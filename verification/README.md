# PartCAD core, modelled and proved in Dafny

PartCAD's core process moves geometry around without a CAD kernel of its own: it schedules
work, fills and walks assembly trees, composes placements, keeps caches, and checks the
small expressions that packages carry. This project models those parts, one module per
component, and proves what each of them promises, over every input, every interleaving and
every run. `dafny verify dfyconfig.toml` checks all of it.

**Protocols.** Code that awaits is cut at its awaits. A state, an `Enabled` predicate and an
`Apply` function say what each part does; `After` runs an arbitrary schedule of parts of
different tasks. Every protocol has an invariant that each part keeps, a proof that some
part can always go on, a measure that bounds every run, and its claims stated over `After`.
A class beside the step system holds the fields of the source's class, and its methods, one
for each uninterrupted part, are proved equal to `Apply`.

- `GateProtocol` (`ReentrantGate.dfy`): an admission limit per event loop that nested work
  passes straight through. A bare semaphore in its place deadlocks, whatever its limit.
- `Instantiation`: many threads and tasks fill one assembly under a re-entrant thread lock
  and a task lock. One fill at a time, never the tree twice. A fill that raises half way
  leaves its beginning behind, and from then on every caller takes that for the assembly.
  Every caller that returns sees the whole tree, whichever fills raise, exactly if there
  are not two callers or the tree has not two items. The thread lock alone would let two
  tasks of one thread in (`ThreadLockAdmitsItsOwnTasks`).
- `NodeList`: the nodes of an ASSY file are resolved concurrently, with a barrier before
  each connecting node; the result is that of resolving them one by one, in file order.
- `PooledClient`: a cache tier's client, opened for the first request of a loop and closed
  after the last. Per state record the counting is exact and every client is closed once.
  Per loop it is not: a last user that has waited for the lock drops the record from the
  table before those that wait behind it, and the loop can end up with two clients. The
  lock is modelled as asyncio's is: free and unwaited for it is taken without suspending,
  otherwise it goes to its waiters in order. Under it one client per loop is guaranteed
  exactly when opening a client does not suspend, as with memcached's, or no loop has four
  requests. A body may be over without having suspended, as when it raises at once or has
  no names to ask for; the run for four requests has two that are. The count is of the
  clients that records hold: one that is still being closed may stand beside a new one
  already with two requests.
- `RenderedImages`: illustrations of a book, one render per key and a budget over all. Keys
  become file names by `_slug`, which is not injective. Every page shows its own picture,
  whatever the interleaving, exactly if no two keys of the book share a file name; two
  renders never write one file at once exactly if that holds or the budget is one.

**Algorithms and algebra.**

- `Sharding`: longest-first greedy distribution of test files. The proved bound is
  4/3 - 1/(3m) against every possible assignment.
- `ExpressionCheck`: the check that runs before an expression is evaluated, against an
  evaluator that records whether a sequence was ever multiplied. It is sound exactly if no
  parameter hides a numeric function with something that may answer a string, a list or a
  tuple; plain values never do, and a package's parameters, which come from YAML, are plain
  values, so the other case takes a caller in Python. It is not complete: `pi * 2` is a
  number and is refused (`PiTimesTwoIsRefused`). The three forms of a declaration answer
  what the format promises.
- `Geometry` and `Placement`: quaternion placements over the reals, and the formula that
  puts a connected item's port against its target's.
- `Sections`: the bottom-up order of an instruction book, and exactly which assemblies get a
  section, told without the walk.
- `BillOfMaterials`: the flat, supply and grouped bills. A count is a number of paths; the
  supply bill expands to the flat one; merging copies entries.
- `BrepTopology`: a scan over the lines of a BREP payload, proved to read back whatever is
  written, and a count of free shells that holds for every numbering of the records. What
  it answers is told over the literal lines, codes and markers of the format.
- `Matings`: the table of mates over any sequence of calls, and the search for the
  interfaces by which two shapes mate. Swapping the shapes swaps the answers
  (`SwappedShapes`).
- `CacheTiers`: nearest-first reads, writes and existence checks over tiers that lose
  entries and fail. The read stops at an empty entry and the existence check goes on; they
  agree exactly if no empty entry stands before one with bytes in it.
- `CacheEntry`: the three forms of a shape cache entry, and exactly which values come back.
  JSON is never taken for another form (`JsonReadsAsJson`).

What the definitions mean is stated over the source's own literals besides: what `_is_numeric`
and `_check` let through (`AcceptedArithmetic`, `AcceptedChoices`, `AcceptedAccess`,
`AcceptedCall`, `ComparisonsAreNumbers`, `NumbersByCall`, `NumbersByAttribute`), how Python adds, repeats and tells true
from false (`AddingAppends`, `RepeatingAnswers`, `RepeatedItems`, `OnlyTheseRepeat`,
`FalseValues`) and which methods values have (`TextsFromTexts`, `ListsFromTexts`,
`MethodsOfOthers`, `AttributesAnswer`, `PicksInOrder`), how lines and numbers read
(`LinesAreCut`, `OneDigit`, `OneMoreDigit`, `UnderscoreWithin`, `SignedNumbers`), what an
assembly holds (`ChildrenAreHeld`), where a location has the origin (`OriginIsMoved`,
`TranslationMoves`), which entries a write leaves alone (`OtherNamesStay`), and that no
mate is filed without a call (`NotFiledUncalled`).

Floats are reals, sine and cosine a pair whose squares sum to one, and a norm is a
non-negative number whose square is the sum of squares. JSON and base64 are parameters
of which only stated laws are used. Where a file's comments and its code differ, the code
is followed: `cache_backend.py` says that a loop's requests share one client, and the code
does not guarantee it; `RenderedImages` says that a lock per key rules out two renders into
one file, and the code does not for keys that share a name.

## Model

| member | source | states |
|---|---|---|
| Sharding.ShardLoads | dev-tools/behave_shard.py:139-155 | the in-place loops over buckets and loads compute `Split`, and each load is the exact sum of its shard's weights |
| Sharding.Place | dev-tools/behave_shard.py:149-152 | one turn puts the file on the first of the lightest shards and keeps every load exact |
| Sharding.ShardFiles | dev-tools/behave_shard.py:158-160 | a 1-based shard is that bucket of the split |
| Sharding.HeaviestThenFirst | dev-tools/behave_shard.py:148-148 | files are placed heaviest first, of equally heavy ones the first by path first |
| Sharding.ToTheFirstLightest | dev-tools/behave_shard.py:149-151 | each file goes to the first of the shards that are lightest when its turn comes |
| Sharding.SplitCoversEachFileOnce | dev-tools/behave_shard.py:145-155 | every file lands in exactly one shard |
| Sharding.SplitIsSorted | dev-tools/behave_shard.py:153-155 | each shard lists its files in path order |
| Sharding.GreedyIsNearOptimal | dev-tools/behave_shard.py:149-152 | at every prefix of a longest-first order, each shard is within 4/3 - 1/(3m) of any assignment of the same files |
| Sharding.SplitIsNearOptimal | dev-tools/behave_shard.py:145-155 | the worst shard is at most 4/3 - 1/(3m) times the worst shard of any other assignment |
| Sharding.LightestShardHasRoom | dev-tools/behave_shard.py:149-152 | while all files exceed a third of the other assignment's worst load, the lightest shard has room under it |
| GateProtocol.ReentrantGate.SemaphoreOf | src/partcad/concurrency.py:65-72 | the loop's semaphore is made once, with this arrival's limit or the default |
| GateProtocol.ReentrantGate.Enter | src/partcad/concurrency.py:74-81 | a call made inside an admitted body runs at once, any other looks up its loop's semaphore and waits |
| GateProtocol.ReentrantGate.Leave | src/partcad/concurrency.py:82-88 | the permit goes back and the context variable is reset, for the call that took it only |
| GateProtocol.StepKeeps | src/partcad/concurrency.py:65-88 | every part of every call keeps the permit balance and the shape of the call tree |
| GateProtocol.PermitsBalance | src/partcad/concurrency.py:65-88 | under every schedule held plus free permits equal the loop's limit, and only un-nested calls hold one |
| GateProtocol.NestedCallsPassThrough | src/partcad/concurrency.py:74-81 | no step of a nested call touches a semaphore or leaves it waiting |
| GateProtocol.LimitIsFixedByFirstArrival | src/partcad/concurrency.py:65-72 | after any schedule a loop's capacity is what its first un-nested arrival asked for, or the default |
| GateProtocol.DefaultIsAtLeastEight | src/partcad/concurrency.py:37-39 | the default limit is the number of processors but at least eight, an unknown number counting as one |
| GateProtocol.AdmitsAtMostLimit | src/partcad/concurrency.py:42-63 | after any schedule no more than the limit of un-nested bodies run on a loop, and no nested call waits or holds a permit |
| GateProtocol.NeverStuck | src/partcad/concurrency.py:8-20 | in every unfinished reachable state some call can go on |
| GateProtocol.EveryRunFinishes | src/partcad/concurrency.py:65-88 | every run ends within three parts per call, all calls finished |
| GateProtocol.BareSemaphoreDeadlocks | src/partcad/concurrency.py:13-20 | without the pass-through, at any limit n, n callers and their nested calls deadlock |
| ExpressionCheck.NumericIsUnrepeatable | src/partcad/expr.py:275-305 | what `_is_numeric` accepts evaluates, if at all, to a number or an uncalled method |
| ExpressionCheck.AcceptedNeverRepeats | src/partcad/expr.py:308-336 | in an expression `_check` accepts no multiplication is ever applied to a sequence |
| ExpressionCheck.EvaluateNeverRepeats | src/partcad/expr.py:104-119 | whatever its text, evaluating a declaration never repeats a sequence, for plain parameters and for all safe ones |
| ExpressionCheck.ParameterIsItsValue | src/partcad/expr.py:106-110 | a text that is a parameter's name, blanks around it or not, answers the parameter as it is |
| ExpressionCheck.ValueIsTheParameter | src/partcad/expr.py:112-117 | name:expression answers the expression with `value` standing for that parameter and every other name for what it stood for |
| ExpressionCheck.ValueAnswersTheParameter | src/partcad/expr.py:112-117 | in particular name:value answers the parameter |
| ExpressionCheck.SizeOfAScrew | src/partcad/expr.py:31-38 | `value[1:value.index('-')]`, which packages have written since before the check, is accepted and reads "M4-0.7" as "4" |
| ExpressionCheck.OtherTextIsItsExpression | src/partcad/expr.py:119-119 | any other text answers what its own tree does, or an error exactly if it does not parse, is refused, or raises |
| ExpressionCheck.RefusedNodes | src/partcad/expr.py:308-336 | an accepted tree has at every node only the listed operators and attributes, calls of names and attributes, and plain arguments |
| ExpressionCheck.CertainlyNumbers | src/partcad/expr.py:275-305 | literals and parameters that are numbers, and what is made of those by arithmetic and choice, are certainly numbers, and nothing else of these forms is |
| ExpressionCheck.StrTimesNumberIsRefused | src/partcad/expr.py:308-336 | `str(1) * 10` would repeat text and is refused |
| ExpressionCheck.SoundExactlyIfNumericNamesAreSafe | src/partcad/expr.py:275-336 | no accepted expression repeats a sequence, whatever Python answers, if and only if no parameter hides a numeric function with what may answer a sequence |
| ExpressionCheck.CallableParameterSlipsThrough | src/partcad/expr.py:275-305 | whichever the parameter is, there is an accepted expression that calls it with arguments that fit it, and repeats the sequence where Python answers one |
| Geometry.NormIsMultiplicative | src/partcad/geom.py:50-58 | the four-square identity: the squared norm of a product is the product of the squared norms |
| Geometry.RotationIsConjugation | src/partcad/geom.py:68-76 | the nine-entry rotation is conjugation by a unit quaternion |
| Geometry.RotationIsProper | src/partcad/geom.py:68-76 | a rotation preserves dot products and cross products |
| Geometry.AxisAngleIsUnit | src/partcad/geom.py:34-47 | an axis and an angle give a unit quaternion |
| Geometry.AxisStays | src/partcad/geom.py:34-47 | the rotation about an axis leaves that axis, and not another, where it is |
| Geometry.PerpendicularTurns | src/partcad/geom.py:34-47 | it turns what is at right angles to the axis by the whole angle, counterclockwise as seen from the axis' tip |
| Geometry.OnlyZeroAxisIsRejected | src/partcad/geom.py:40-43 | the axis of zero length is rejected, and no other |
| Geometry.BuiltIsRigid | src/partcad/geom.py:214-227 | every location made by constructors, products and inverses keeps a unit quaternion |
| Geometry.MulIsComposition | src/partcad/geom.py:220-227 | (a * b) applies b first and then a, to points and to directions |
| Geometry.TurnsThenMoves | src/partcad/geom.py:201-212 | a point is turned about the origin and then moved, a vector only turned |
| Geometry.BuiltActs | src/partcad/geom.py:142-227 | what the identity, the packed form, a product and an inverse do to points |
| Geometry.LocationsAssociate | src/partcad/geom.py:220-227 | composition is associative |
| Geometry.IdentityIsNeutral | src/partcad/geom.py:29-31 | the identity on either side of a location changes nothing |
| Geometry.InverseUndoes | src/partcad/geom.py:214-218 | the inverse undoes a location on both sides |
| Geometry.TransformIsRigid | src/partcad/geom.py:201-212 | distances between points survive a transform |
| Placement.Connect | src/partcad/assembly_factory_assy.py:977-1021 | the four branches of the connection code compute one formula, over whichever ports are known |
| Placement.ConnectToChild | src/partcad/assembly_factory_assy.py:463-481 | without a target the item stays unplaced, against an unplaced target the multiplication raises, and otherwise the formula is applied to the target's location |
| Placement.PortsMate | src/partcad/assembly_factory_assy.py:979-996 | the placed item's port frame is target placement, target port, turn-around, offsets, exactly |
| Placement.PlacedPointByPoint | src/partcad/assembly_factory_assy.py:981-1021 | in each of the four branches, every point of the item goes through its own port, the offsets that apply in their order, the turn-around, the target's port and the target |
| Placement.TurnAroundIsInvolution | src/partcad/assembly_factory_assy.py:979-979 | the turn-around swaps X and Y, reverses Z, and done twice turns nothing |
| Placement.PortsMeetFaceToFace | src/partcad/assembly_factory_assy.py:1039-1040 | with no offsets the origins coincide and the Z axes are opposite |
| Placement.PlacementFollowsTarget | src/partcad/assembly_factory_assy.py:979-1021 | moving the target moves the connected item with it |
| Placement.RecordedJointIsTheMatedPort | src/partcad/assembly_factory_assy.py:1055-1108 | the recorded joint is where and how the mated port ends up |
| Placement.JointIsTheTargetPort | src/partcad/assembly_factory_assy.py:1104-1107 | whatever the offsets, the recorded point and direction are the target port's origin and Z axis, as the target has them |
| Placement.ApplyRootPlacement | src/partcad/assembly_factory_assy.py:246-274 | every child is moved by the root's placement, in place, and none without one |
| Placement.MovedPointByPoint | src/partcad/assembly_factory_assy.py:246-274 | a moved child's points go where it put them, if it had a location, and from there with the placement |
| Placement.RootPlacementKeepsConnections | src/partcad/assembly_factory_assy.py:246-274 | children stay where they were relative to each other, those without a location of their own too |
| Instantiation.Assembly.GetAsyncInstantiateLock | src/partcad/assembly.py:149-166 | a thread's task lock is kept while its loop is the same and replaced when it is not |
| Instantiation.Assembly.BeginFill | src/partcad/assembly.py:184-187 | only a caller that finds no children fills |
| Instantiation.AtMostOneInside | src/partcad/assembly.py:168-195 | two tasks are never inside both locks, on one thread or on two |
| Instantiation.OneFillAtATime | src/partcad/assembly.py:168-195 | under every interleaving one caller fills at a time and `children` is a prefix of one fill |
| Instantiation.ReturnedCallerSeesWholeTree | src/partcad/assembly.py:168-195 | a caller that returns sees the complete fill exactly if no fill was cut short |
| Instantiation.CutShortIsForGood | src/partcad/assembly.py:184-195 | once a fill was cut short no later step changes `children` |
| Instantiation.FillRaisingHalfWayCutsShort | src/partcad/assembly.py:184-195 | a raising fill cuts short exactly if it has appended some of the tree and not all of it |
| Instantiation.EveryRunFinishes | src/partcad/assembly.py:168-195 | no deadlock, every run ends, and what each returning caller finds |
| Instantiation.WholeTreeExactlyIfNotTwo | src/partcad/assembly.py:168-195 | every caller that returns finds the whole tree, whatever the interleaving and whichever fills raise, if and only if there are not two callers or not two items |
| Instantiation.ReturnsWithHalfATree | src/partcad/assembly.py:168-195 | a run from the start in which a caller returns with an incomplete tree |
| NodeList.Handler.WaitForTasks | src/partcad/assembly_factory_assy.py:281-287 | whatever order the tasks finish in, their results are appended in the order they were started |
| NodeList.Handler.HandleNodeList | src/partcad/assembly_factory_assy.py:276-294 | the final items are those of the nodes resolved one after another |
| NodeList.ConnectFindsEarlierNodes | src/partcad/assembly_factory_assy.py:289-293 | while a connecting node is resolved, the items are exactly the results of all earlier nodes |
| NodeList.SequentialInFileOrder | src/partcad/assembly_factory_assy.py:276-294 | the items are the non-None results, all of them, in file order, each connecting node resolved with exactly the items before it and any other with none |
| NodeList.EveryRunIsSequential | src/partcad/assembly_factory_assy.py:276-294 | under every interleaving the list ends, and ends with the sequential result |
| PooledClient.PooledCacheBackend.GuardFor | src/partcad/cache_backend.py:180-191 | a loop's record is found, or made without an await in between |
| PooledClient.PooledCacheBackend.CountIn | src/partcad/cache_backend.py:198-201 | with the lock, a request is counted in, or goes on to open the client if there is none |
| PooledClient.PooledCacheBackend.CountOut | src/partcad/cache_backend.py:204-212 | with the lock, the last user takes the client away to close and drops the loop's entry |
| PooledClient.PooledCacheBackend.Connect | src/partcad/cache_backend.py:194-201 | a request finds its record and goes on under the lock at once if that is free and unwaited for, and queues if not |
| PooledClient.PooledCacheBackend.Disconnect | src/partcad/cache_backend.py:202-212 | the same on the way out, whether the body returned or raised |
| PooledClient.PooledCacheBackend.GetsLock | src/partcad/cache_backend.py:198-212 | the first in the queue leaves it and is counted in or out |
| PooledClient.StepKeeps | src/partcad/cache_backend.py:194-217 | every part of every request keeps the counting invariant and the queue |
| PooledClient.UsersShareOneOpenClient | src/partcad/cache_backend.py:194-217 | per record `users` counts the requests in or leaving their body, a client is open exactly while there are some, and they hold that client, unclosed |
| PooledClient.EveryClientIsClosedOnce | src/partcad/cache_backend.py:194-217 | no client is closed twice, every run ends, and at its end each opened client has been closed once |
| PooledClient.RegisteredUntilDropped | src/partcad/cache_backend.py:203-212 | the table stays right for requests under way exactly until a last user that has waited drops a record for which another waits to enter |
| PooledClient.OneClientExactlyIfNoFour | src/partcad/cache_backend.py:150-217 | under every interleaving a loop never has two clients if and only if opening does not suspend or no loop has four requests |
| PooledClient.OpenedAtOnceIsShared | src/partcad/cache_backend_memcache.py:86-89 | while no other request of the loop goes on during an opening, nobody ever waits for the lock, every request works on its loop's record, and a loop has one client |
| PooledClient.TwoClientsOnOneLoop | src/partcad/cache_backend.py:194-217 | any four requests of one loop have a run, under a lock that is taken at once if free and unwaited for, and serves in order otherwise, that has two clients open on it |
| PooledClient.TwoClientsTakeFour | src/partcad/cache_backend.py:194-217 | two clients on one loop are held by two of its requests, and two others have left |
| RenderedImages.Illustrations.LookUp | src/partcad/assembly_guide.py:228-231 | with the key's lock, a rendered key answers at once and any other goes on to the budget |
| RenderedImages.Illustrations.Finish | src/partcad/assembly_guide.py:233-244 | budget and lock go back; the key counts as rendered if its file is there, whoever wrote it |
| RenderedImages.AnsweredIfFileThere | src/partcad/assembly_guide.py:240-245 | a render that wrote nothing answers with the file all the same if one of that name is there |
| RenderedImages.OneRenderAtATime | src/partcad/assembly_guide.py:218-245 | per key, renders follow each other and the one that succeeds is the last |
| RenderedImages.EveryBookIsDrawn | src/partcad/assembly_guide.py:218-245 | renders in flight never exceed the budget and are of different, unrendered keys; no deadlock; every run ends |
| RenderedImages.PicturesAreOwnExactlyIfSlugsApart | src/partcad/assembly_guide.py:218-250 | every page shows its own picture under every interleaving if and only if no two keys share a file name |
| RenderedImages.FilesAreUnsharedExactlyIfSlugsApart | src/partcad/assembly_guide.py:218-250 | two renders never write one file at once if and only if no two keys share a file name or the budget is one |
| RenderedImages.SharedNameShowsWrongPicture | src/partcad/assembly_guide.py:231-244 | a run in which a shared file name gives a page another key's picture |
| RenderedImages.SlugIsAName | src/partcad/assembly_guide.py:248-250 | a file name is never empty, has only safe characters, no dash at an end, and is its own file name |
| RenderedImages.RunsBecomeDashes | src/partcad/assembly_guide.py:248-250 | letters, digits, underscores, dots and dashes are copied and each run of anything else becomes one dash |
| RenderedImages.SlugIsDashedText | src/partcad/assembly_guide.py:248-250 | the name is that text without the dashes at its ends, or "image" if nothing else is left |
| RenderedImages.TwoShapesOneName | src/partcad/assembly_guide.py:248-250 | shape b-c of package //a and shape c of package //a/b get one file name |
| Sections.LookThrough | src/partcad/assembly_guide.py:419-440 | the loop finds what is inside the wrappers |
| Sections.WrappersAreBare | src/partcad/assembly_guide.py:433-440 | what is looked through holds one embedded assembly that is not connected to anything, and nothing else |
| Sections.Walk.Collect | src/partcad/assembly_guide.py:397-416 | an assembly is listed once, after everything its content places, and only what is reached from it is added |
| Sections.KeysTellApart | src/partcad/assembly_guide.py:454-466 | two assemblies are one to the walk if they are one object, or packages declare both under one name |
| Sections.CollectSections | src/partcad/assembly_guide.py:351-390 | each assembly to document once, parts of it before it, the top last and alone marked, and a section exactly for what should have one |
| Sections.WalksExactlyToDocumented | src/partcad/assembly_guide.py:397-440 | the walk reaches the top and whatever an assembly inside it holds that is no mere wrapper, and nothing else |
| BillOfMaterials.CountsPaths | src/partcad/assembly.py:465-600 | every count of every bill is the number of distinct paths to what it counts |
| BillOfMaterials.LeadsIsCounted | src/partcad/assembly.py:465-600 | which paths those are, for each bill, by the names, kinds, vendors and SKUs of what they pass and where they end |
| BillOfMaterials.GroupedLineIsPathsAndUsers | src/partcad/assembly.py:586-600 | a grouped line counts the paths to its object, and is the sum over its users of their count times their placements, embedded containers transparent |
| BillOfMaterials.PlacementsByUser | src/partcad/assembly_guide.py:374-390 | placements under an assembly, split by the declared assembly that places |
| BillOfMaterials.SupplyExpandsToFlat | src/partcad/assembly.py:530-548 | replacing each purchasable line by that many copies of its own flat bill gives the flat bill, line by line |
| BillOfMaterials.GetBom | src/partcad/assembly.py:465-485 | the dictionary has exactly the counted lines, and its total is the number of leaf placements |
| BillOfMaterials.GetSupplyBom | src/partcad/assembly.py:530-548 | the dictionary has exactly the lines of the walk that stops at purchasable assemblies |
| BillOfMaterials.GroupedBom.Add | src/partcad/assembly.py:666-670 | one more of one line and of no other |
| BillOfMaterials.GroupedBom.Merge | src/partcad/assembly.py:711-720 | every line's counts are added, the merged-in bill is unchanged, and no entry is shared afterwards |
| BillOfMaterials.GetBomGrouped | src/partcad/assembly.py:586-600 | every line of the grouped bill has the count of its query, in entries of its own |
| BrepTopology.Line | src/partcad/brep_inspect.py:140-147 | the stripped line at a position and where the next one starts, None exactly at the end |
| BrepTopology.SectionStart | src/partcad/brep_inspect.py:150-163 | the first header at the start of a line, or none |
| BrepTopology.Records | src/partcad/brep_inspect.py:166-204 | the scan by positions agrees with reading the text line by line, failures included |
| BrepTopology.TopologyOf | src/partcad/brep_inspect.py:207-241 | None exactly if nothing was read; otherwise counts, root and free shells describe the records |
| BrepTopology.ScannedRecords | src/partcad/brep_inspect.py:166-204 | records that open with one of the eight codes and close on a star, one after the other, as many as the header says, are read, each of the type its code spells |
| BrepTopology.RecordsAreScanned | src/partcad/brep_inspect.py:166-204 | and whatever is read is made of such records |
| BrepTopology.OtherOpeningIsNotRead | src/partcad/brep_inspect.py:189-191 | a record that opens with any other line makes the section unreadable, however many come before it |
| BrepTopology.DescriptionAnswers | src/partcad/brep_inspect.py:225-241 | the answer for such lines: for each code how many records open with it, the last one's type, and how many more open with "Sh" than those with "So" refer to |
| BrepTopology.MarkersAreLookedFor | src/partcad/brep_inspect.py:130-137 | a payload is looked at if either marker stands within its first 128 bytes |
| BrepTopology.StripTakesBlanks | src/partcad/brep_inspect.py:140-147 | a line loses the blanks at both its ends, all of them and nothing else |
| BrepTopology.ReadsBack | src/partcad/brep_inspect.py:166-204 | scanning a written payload yields exactly the records written |
| BrepTopology.ReadsSubs | src/partcad/brep_inspect.py:103-103 | the references found in a written sub-shape line are its indices, in order |
| BrepTopology.ReferencesAreSignedNumbers | src/partcad/brep_inspect.py:103-103 | in any text a reference is a sign and all the digits after it; anything else is passed over |
| BrepTopology.FreeShellsAreUnownedShells | src/partcad/brep_inspect.py:207-241 | for every one-to-one numbering, free shells are the shells no solid is made of, with the right counts and root |
| Matings.Context.AddMate | src/partcad/context.py:1009-1042 | the table after a call, in both directions, an existing mate kept |
| Matings.TableIsSymmetric | src/partcad/context.py:1009-1042 | every sequence of calls keeps the table symmetric, mirrored mates sharing their configuration |
| Matings.FirstCallDecides | src/partcad/context.py:1024-1042 | the first call that joins two interfaces decides their mate for good |
| Matings.FiledAsCalled | src/partcad/context.py:1024-1042 | the first call between two interfaces is filed as it says under its source and target, and as a reverse one under the two swapped |
| Matings.Context.FindMatingInterfaces | src/partcad/context.py:1052-1132 | exactly the real interfaces on each side that mate, directly or through what they are compatible with |
| Matings.BothSidesOrNeither | src/partcad/context.py:1052-1132 | over any sequence of calls one side is empty if and only if the other is |
| Matings.MatesThroughACall | src/partcad/context.py:1052-1132 | an interface is found exactly if some call joined, in either order, things the two sides stand for |
| CacheTiers.Cache.Write | src/partcad/cache.py:42-79 | a key is reported exactly if some tier reports it, and each tier holds what it was offered and stored |
| CacheTiers.ReportedIsAcceptedAndStored | src/partcad/cache.py:61-78 | a tier reports what it accepts, stored and did not raise on, and then holds it, but for a key "name" that the sidecar replaces |
| CacheTiers.SizeWindow | src/partcad/cache_backend.py:80-92 | which keys and sizes a tier takes |
| CacheTiers.WrittenByKey | src/partcad/cache.py:61-71 | under hash, dot and key a tier has the item it took and stored, and under any other key what it had |
| CacheTiers.WrittenBesideKeys | src/partcad/cache.py:58-69 | under "name" a tier that stores names has the object's name, if it took anything |
| CacheTiers.Cache.Read | src/partcad/cache.py:81-110 | the batched read gives each key the entry of the nearest tier that answers |
| CacheTiers.Cache.Contains | src/partcad/cache.py:112-147 | a key is contained exactly if some tier that answers holds bytes for it |
| CacheTiers.ReadIsContentOrNothing | src/partcad/cache.py:42-147 | over any run where names determine their bytes, a read gives those bytes exactly if some answering tier holds them, and the existence check agrees |
| CacheTiers.ReadAndContainsAgreeUnlessHidden | src/partcad/cache.py:112-147 | read and existence check agree whatever fails if and only if no empty entry stands before one with bytes |
| CacheTiers.RunHidesBytes | src/partcad/cache.py:42-79 | two writes that leave an empty entry in any nearer tier and bytes in any further one |
| CacheTiers.NamesDiffer | src/partcad/cache.py:39-40 | different hashes and keys have different entry names |
| CacheEntry.ComesBackExactly | src/partcad/cache_shape.py:70-115 | payload and metadata come back if and only if a lone payload is bytes with a known beginning or framed metadata below 4 GiB, or the rest is what the codec keeps |
| CacheEntry.FrameReadsBack | src/partcad/cache_shape.py:52-67 | behind a frame, any payload and its metadata come back |
| CacheEntry.RawReadsBackExactly | src/partcad/cache_shape.py:104-115 | a bare payload reads back as itself if and only if its beginning is recognised |
| CacheEntry.TripsExactly | src/partcad/shape_envelope.py:427-500 | a value decodes to what was encoded if and only if it is made of what the codec keeps |
| CacheEntry.KeptOfEnvelope | src/partcad/shape_envelope.py:374-402 | what an entry keeps of a shape or an assembly is it without its outer layer |
| CacheEntry.KeptByKey | src/partcad/cache_shape.py:79-100 | key by key: of a shape or an assembly its payload and metadata that is not empty are kept, of any other dictionary everything but metadata that says nothing |
| CacheEntry.KeptOfList | src/partcad/shape_envelope.py:392-402 | a list is kept item by item |
| CacheEntry.BareShapeIsItsBytes | src/partcad/cache_shape.py:90-93 | a shape with nothing recorded is stored as its payload's bytes |
| CacheEntry.ShapeWithMetadataIsFramed | src/partcad/cache_shape.py:90-95 | one with metadata is stored behind "PCM1" and the metadata's length in four bytes, and both come back |
| CacheEntry.OthersAreJson | src/partcad/cache_shape.py:96-101 | anything else is stored as the JSON of what is kept of it |
| CacheEntry.ReadByBeginning | src/partcad/cache_shape.py:104-115 | how an entry begins decides how it is read |
| CacheEntry.EncodedByKey | src/partcad/shape_envelope.py:427-472 | what each field becomes when it is encoded |
| CacheEntry.DecodedByKey | src/partcad/shape_envelope.py:475-500 | what each field becomes when it is decoded |

## Left out

- Task cancellation, everywhere; exceptions escape a body only where a step says so (`OpenFails`, `FillRaises`, `RenderRaises`).
- Suspended methods as one method: Dafny has no await, so a method that suspends is split into its uninterrupted parts, and the parts that only hand over (a body's end, a lock's release without more) have no method of their own, only a step.
- The order in which waiters are served, but for the lock of `PooledClient`: elsewhere any waiter may be the next one. What is claimed of all runs holds of asyncio's then, and no run that is given as an example passes a waiter by.
- Sandboxes, subprocesses, containers, downloads, the memcached and S3 protocols, and the file system beyond which file was written last.
- The conversion of placements to and from OCCT, the axis-angle output with its arc cosine, and rounding.
- The search for ports and interface instances before a connection is placed, exploded views and instruction texts.
- How test weights are estimated (`_estimate`) and how coverage reports are made.
- ExpressionCheck.EvaluateNeverRepeats: parsing, arithmetic, comparison and string methods of Python are parameters; whitespace beyond ASCII is not stripped around a parameter's name.
- BrepTopology.TopologyOf: decompressing the payload and the limit on it are not modelled, nor is Python's limit on the digits of a number.
- CacheTiers.Cache.Write: the memcached tier's own limit on key lengths is not modelled; every tier accepts by the base class's rule.
- CacheEntry.ComesBackExactly: tuples, sets and exceptions, which JSON turns into lists and texts, and an "assembly" that is no list, which is refused here, are not modelled.
- Sections.CollectSections: that a package's assembly is one object wherever it is used is assumed, as the source says it is; measuring the steps of a section is left out.
- BillOfMaterials.GetBomGrouped: software lines and descriptions are left out, and the two levels of package and name are one key; objects are numbered contents first.
- The detailed bill and supplier queries, `count_sections`' lookups in the grouped bill, and all document output.
- Matings.Context.FindMatingInterfaces: an interface that cannot be resolved, on which the source raises, is not modelled; what an interface is compatible with is a parameter.
- Package loading, versions, unit names, hold forces: lookups and parsing whose properties are easy.
