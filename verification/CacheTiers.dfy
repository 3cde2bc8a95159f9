/** A cache of storage tiers, read nearest first (src/partcad/cache.py and
    CacheBackend in src/partcad/cache_backend.py).

    A tier is a map from entry names to bytes that may lose entries at any time, and may
    on any call raise, or fail for some of the names it is asked for.  What fails when is
    a parameter of each call.  A character stands for a byte. */
module CacheTiers {
  import opened Wrappers

  type Bytes = string

  type Store = map<string, Bytes>

  const SIZED_KEYS := ["shape", "sketch", "part", "assembly", "cmps"]
  const PROPERTIES_SUFFIX := "-props"

  datatype Tier = Tier(minEntrySize: nat, maxEntrySize: nat, storesNames: bool)

  predicate EndsWith(s: string, suffix: string) {
    |suffix| <= |s| && s[|s| - |suffix|..] == suffix
  }

  predicate HoldsGeometry(key: string) {
    (exists i | 0 <= i < |SIZED_KEYS| :: SIZED_KEYS[i] <= key) && !EndsWith(key, PROPERTIES_SUFFIX)
  }

  /** Whether an entry of this size belongs in the tier; a bound of zero is none. */
  predicate Accepts(tier: Tier, key: string, size: nat) {
    if !HoldsGeometry(key) then true
    else if size >= 2 && tier.minEntrySize != 0 && size < tier.minEntrySize then false
    else !(tier.maxEntrySize != 0 && size > tier.maxEntrySize)
  }

  function Name(hash: string, key: string): string { hash + "." + key }

  /** A hash is a digest in hexadecimal, or nothing. */
  predicate IsHash(hash: string) { '.' !in hash }

  lemma NoDot(hash: string, i: int)
    requires IsHash(hash) && 0 <= i < |hash|
    ensures hash[i] != '.'
  {}

  lemma NamesDiffer(hash: string, key: string, hash': string, key': string)
    requires Name(hash, key) == Name(hash', key') && (hash == hash' || (IsHash(hash) && IsHash(hash')))
    ensures hash == hash' && key == key'
  {
    var name := Name(hash, key);
    assert name[..|hash|] == hash && name[..|hash'|] == hash';
    assert name[|hash|] == '.' && name[|hash'|] == '.';
    if |hash| < |hash'| { NoDot(hash', |hash|); }
    if |hash'| < |hash| { NoDot(hash, |hash'|); }
    assert name[|hash| + 1..] == key && name[|hash'| + 1..] == key';
  }

  lemma KeysDiffer(hash: string)
    ensures forall k, k' | Name(hash, k) == Name(hash, k') :: k == k'
  {
    forall k, k' | Name(hash, k) == Name(hash, k') ensures k == k' { NamesDiffer(hash, k, hash, k'); }
  }

  // ---- writing ----

  /** What one tier made of what it was offered: the names it stored, and whether it
      lived to report them. */
  datatype Outcome = Outcome(stored: set<string>, raised: bool)

  /** The items whose size the tier takes, under their names. */
  function Accepted(tier: Tier, hash: string, items: map<string, Bytes>): (r: Store)
    ensures forall key :: Name(hash, key) in r <==> key in items && Accepts(tier, key, |items[key]|)
    ensures forall key | Name(hash, key) in r :: r[Name(hash, key)] == items[key]
    ensures forall n | n in r :: exists key :: key in items && n == Name(hash, key)
  {
    KeysDiffer(hash);
    map key | key in items && Accepts(tier, key, |items[key]|) :: Name(hash, key) := items[key]
  }

  /** What a tier is offered: nothing, or what it takes and the object's name with it. */
  function Offered(tier: Tier, hash: string, objectName: Bytes, items: map<string, Bytes>): Store {
    var accepted := Accepted(tier, hash, items);
    if accepted == map[] || !tier.storesNames then accepted else accepted[Name(hash, "name") := objectName]
  }

  /** A tier's store once it has dealt with an offer. */
  function Stored(store: Store, offered: Store, outcome: Outcome): Store {
    store + (map n | n in offered && n in outcome.stored :: offered[n])
  }

  datatype Step =
    | Put(hash: string, objectName: Bytes, items: map<string, Bytes>, outcomes: seq<Outcome>)
    | Drop(tier: nat, names: set<string>)

  /** Whether tier t reports having stored an entry. */
  predicate Reports(tiers: seq<Tier>, w: Step, t: nat, key: string)
    requires w.Put? && |w.outcomes| == |tiers|
  {
    && t < |tiers| && !w.outcomes[t].raised && Name(w.hash, key) in w.outcomes[t].stored
    && Name(w.hash, key) in Offered(tiers[t], w.hash, w.objectName, w.items)
  }

  predicate SomeReport(tiers: seq<Tier>, w: Step, t: nat, key: string)
    requires w.Put? && |w.outcomes| == |tiers|
  {
    exists u | t <= u < |tiers| :: Reports(tiers, w, u, key)
  }

  /** A tier reports a key exactly if it takes an entry of that size, stored it, and did
      not raise; and then it holds the entry, except that a tier that stores names has
      put the object's name in place of a caller's key "name". */
  lemma ReportedIsAcceptedAndStored(tiers: seq<Tier>, stores: seq<Store>, w: Step, t: nat, key: string)
    requires w.Put? && |w.outcomes| == |tiers| == |stores| && t < |tiers| && w.hash != "" && key in w.items
    ensures Reports(tiers, w, t, key) <==>
              && Accepts(tiers[t], key, |w.items[key]|) && Name(w.hash, key) in w.outcomes[t].stored && !w.outcomes[t].raised
    ensures Reports(tiers, w, t, key) ==>
              && Name(w.hash, key) in WrittenTier(tiers, stores, w, t)
              && WrittenTier(tiers, stores, w, t)[Name(w.hash, key)]
                   == if key == "name" && tiers[t].storesNames then w.objectName else w.items[key]
  {
    if Name(w.hash, key) == Name(w.hash, "name") { NamesDiffer(w.hash, key, w.hash, "name"); }
    NameIsNoGeometry();
  }

  lemma NameIsNoGeometry()
    ensures !HoldsGeometry("name")
  {
    var key := "name";
    forall i | 0 <= i < |SIZED_KEYS| ensures !(SIZED_KEYS[i] <= key) {
      assert SIZED_KEYS[i][0] != key[0];
    }
  }

  lemma ReportByTier(tiers: seq<Tier>, w: Step, t: nat, key: string)
    requires w.Put? && |w.outcomes| == |tiers| && t < |tiers|
    ensures SomeReport(tiers, w, t, key) <==> Reports(tiers, w, t, key) || SomeReport(tiers, w, t + 1, key)
  {}

  function Empty(tiers: seq<Tier>): (r: seq<Store>)
    ensures |r| == |tiers|
  {
    seq(|tiers|, _ => map[])
  }

  function WrittenTier(tiers: seq<Tier>, stores: seq<Store>, w: Step, t: nat): Store
    requires |stores| == |tiers| && w.Put? && |w.outcomes| == |tiers| && t < |tiers|
  {
    if w.hash == "" then stores[t] else Stored(stores[t], Offered(tiers[t], w.hash, w.objectName, w.items), w.outcomes[t])
  }

  function WrittenTo(tiers: seq<Tier>, stores: seq<Store>, w: Step): (r: seq<Store>)
    requires |stores| == |tiers| && w.Put? && |w.outcomes| == |tiers|
    ensures |r| == |tiers| && forall t | 0 <= t < |r| :: r[t] == WrittenTier(tiers, stores, w, t)
  {
    seq(|tiers|, t requires 0 <= t < |tiers| => WrittenTier(tiers, stores, w, t))
  }

  // ---- reading ----

  /** What tier t answers for a name, `lost[t]` being the names it fails on. */
  function Answer(stores: seq<Store>, lost: seq<set<string>>, t: nat, name: string): Option<Bytes>
    requires |lost| == |stores| && t < |stores|
  {
    if name in stores[t] && name !in lost[t] then Some(stores[t][name]) else None
  }

  predicate Answers(stores: seq<Store>, lost: seq<set<string>>, t: nat, name: string)
    requires |lost| == |stores|
  {
    t < |stores| && Answer(stores, lost, t, name).Some?
  }

  /** The answer of the nearest tier that has one, from tier t on. */
  function Nearest(stores: seq<Store>, lost: seq<set<string>>, t: nat, name: string): (r: Option<Bytes>)
    requires |lost| == |stores| && t <= |stores|
    ensures r.None? <==> forall u | t <= u < |stores| :: !Answers(stores, lost, u, name)
    ensures r.Some? ==> exists u | t <= u < |stores| ::
              && Answers(stores, lost, u, name) && Answer(stores, lost, u, name) == r
              && forall v | t <= v < u :: !Answers(stores, lost, v, name)
    decreases |stores| - t
  {
    if t == |stores| then None
    else if Answers(stores, lost, t, name) then Answer(stores, lost, t, name)
    else Nearest(stores, lost, t + 1, name)
  }

  predicate HoldsBytes(stores: seq<Store>, lost: seq<set<string>>, t: nat, name: string)
    requires |lost| == |stores|
  {
    Answers(stores, lost, t, name) && Answer(stores, lost, t, name) != Some("")
  }

  predicate SomeHoldBytes(stores: seq<Store>, lost: seq<set<string>>, t: nat, name: string)
    requires |lost| == |stores|
  {
    exists u | t <= u < |stores| :: HoldsBytes(stores, lost, u, name)
  }

  class Cache {
    const tiers: seq<Tier>
    var stores: seq<Store>

    predicate Valid()
      reads this
    {
      |stores| == |tiers|
    }

    constructor (tiers: seq<Tier>)
      ensures Valid() && this.tiers == tiers && stores == Empty(tiers)
    {
      this.tiers := tiers;
      stores := Empty(tiers);
    }

    /** Reports a key exactly when some tier that takes it stored it and lived to say so. */
    method Write(w: Step) returns (saved: set<string>)
      requires Valid() && w.Put? && |w.outcomes| == |tiers|
      modifies this
      ensures Valid() && stores == WrittenTo(tiers, old(stores), w)
      ensures forall key :: key in saved <==> (w.hash != "" && key in w.items && SomeReport(tiers, w, 0, key))
    {
      saved := {};
      if tiers == [] || w.hash == "" {
        assert stores == WrittenTo(tiers, stores, w);
        return;
      }
      var t := 0;
      while t < |tiers|
        invariant 0 <= t <= |tiers| == |stores|
        invariant forall u | 0 <= u < |tiers| :: stores[u] == if u < t then WrittenTier(tiers, old(stores), w, u) else old(stores)[u]
        invariant forall key | key in saved :: key in w.items && SomeReport(tiers, w, 0, key)
        invariant forall key | key in w.items && key !in saved :: SomeReport(tiers, w, 0, key) <==> SomeReport(tiers, w, t, key)
      {
        stores := stores[t := Stored(stores[t], Offered(tiers[t], w.hash, w.objectName, w.items), w.outcomes[t])];
        forall key ensures SomeReport(tiers, w, t, key) <==> Reports(tiers, w, t, key) || SomeReport(tiers, w, t + 1, key) { ReportByTier(tiers, w, t, key); }
        saved := saved + (set key | key in w.items && Reports(tiers, w, t, key));
        t := t + 1;
      }
      assert stores == WrittenTo(tiers, old(stores), w);
    }

    method Evict(t: nat, names: set<string>)
      requires Valid() && t < |tiers|
      modifies this
      ensures Valid() && stores == old(stores)[t := old(stores)[t] - names]
    {
      stores := stores[t := stores[t] - names];
    }

    /** Each key's entry from the nearest tier that answers, None where none does. */
    method Read(hash: string, keys: seq<string>, lost: seq<set<string>>) returns (found: map<string, Option<Bytes>>)
      requires Valid() && |lost| == |tiers|
      ensures tiers == [] || hash == "" ==> found == map[]
      ensures tiers != [] && hash != "" ==>
                && (forall key :: key in found <==> key in keys)
                && forall key | key in keys :: found[key] == Nearest(stores, lost, 0, Name(hash, key))
    {
      found := map[];
      if tiers == [] || hash == "" { return; }
      var pending, t := keys, 0;
      while t < |tiers| && pending != []
        invariant 0 <= t <= |tiers| && forall key :: FoundOrPending(stores, lost, t, Name(hash, key), keys, pending, found, key)
      {
        found, pending := ReadOn(stores, lost, t, hash, keys, pending, found);
        t := t + 1;
      }
      ghost var had := found;
      found := AddMisses(found, pending);
      forall key ensures (key in found <==> key in keys) && (key in keys ==> found[key] == Nearest(stores, lost, 0, Name(hash, key))) {
        assert FoundOrPending(stores, lost, t, Name(hash, key), keys, pending, had, key);
      }
    }

    /** Whether some tier answers that it holds the entry, with bytes in it. */
    method Contains(hash: string, keys: seq<string>, lost: seq<set<string>>) returns (found: map<string, bool>)
      requires Valid() && |lost| == |tiers|
      ensures forall key :: key in found <==> key in keys
      ensures forall key | key in keys :: found[key] == (hash != "" && SomeHoldBytes(stores, lost, 0, Name(hash, key)))
    {
      found := map key | key in keys :: false;
      if tiers == [] || hash == "" { return; }
      var pending, t := keys, 0;
      while t < |tiers| && pending != []
        invariant 0 <= t <= |tiers| && forall key :: HeldOrPending(stores, lost, t, Name(hash, key), keys, pending, found, key)
      {
        ghost var was, had := pending, found;
        var held;
        held, pending := AskTier(stores, lost, t, hash, pending);
        found := found + (map key | key in held :: true);
        forall key ensures HeldOrPending(stores, lost, t + 1, Name(hash, key), keys, pending, found, key) {
          assert HeldOrPending(stores, lost, t, Name(hash, key), keys, was, had, key);
        }
        t := t + 1;
      }
      forall key ensures (key in found <==> key in keys) && (key in keys ==> found[key] == SomeHoldBytes(stores, lost, 0, Name(hash, key))) {
        assert HeldOrPending(stores, lost, t, Name(hash, key), keys, pending, found, key);
      }
    }
  }

  /** Of one key, before tier t is read: the nearer tiers answered it, or it is pending. */
  predicate FoundOrPending(stores: seq<Store>, lost: seq<set<string>>, t: nat, name: string,
                           keys: seq<string>, pending: seq<string>, found: map<string, Option<Bytes>>, key: string)
    requires |lost| == |stores| && t <= |stores|
  {
    && (key in keys <==> key in pending || key in found)
    && (key in pending ==> Nearest(stores, lost, 0, name) == Nearest(stores, lost, t, name))
    && (key in found ==> found[key] == Nearest(stores, lost, 0, name))
  }

  predicate HeldOrPending(stores: seq<Store>, lost: seq<set<string>>, t: nat, name: string,
                          keys: seq<string>, pending: seq<string>, found: map<string, bool>, key: string)
    requires |lost| == |stores| && t <= |stores|
  {
    && (key in found <==> key in keys)
    && (key in pending ==> key in keys)
    && (key in keys && found[key] ==> SomeHoldBytes(stores, lost, 0, name))
    && (key in keys && !found[key] ==> key in pending && SomeHoldBytes(stores, lost, 0, name) == SomeHoldBytes(stores, lost, t, name))
  }

  /** One turn of a read: what the tier answers is found, the rest is pending. */
  method ReadOn(stores: seq<Store>, lost: seq<set<string>>, t: nat, hash: string,
                ghost keys: seq<string>, was: seq<string>, had: map<string, Option<Bytes>>)
    returns (found: map<string, Option<Bytes>>, pending: seq<string>)
    requires |lost| == |stores| && t < |stores|
    requires forall key :: FoundOrPending(stores, lost, t, Name(hash, key), keys, was, had, key)
    ensures forall key :: FoundOrPending(stores, lost, t + 1, Name(hash, key), keys, pending, found, key)
  {
    var more;
    more, pending := ReadTier(stores, lost, t, hash, was);
    found := had + more;
    forall key ensures FoundOrPending(stores, lost, t + 1, Name(hash, key), keys, pending, found, key) {
      assert FoundOrPending(stores, lost, t, Name(hash, key), keys, was, had, key);
    }
  }

  /** One tier's part of a read: what it answers, and the keys that are still pending. */
  method ReadTier(stores: seq<Store>, lost: seq<set<string>>, t: nat, hash: string, pending: seq<string>)
    returns (found: map<string, Option<Bytes>>, still: seq<string>)
    requires |lost| == |stores| && t < |stores|
    ensures forall key :: key in still <==> key in pending && !Answers(stores, lost, t, Name(hash, key))
    ensures forall key :: key in found <==> key in pending && Answers(stores, lost, t, Name(hash, key))
    ensures forall key | key in found :: found[key] == Answer(stores, lost, t, Name(hash, key))
  {
    found, still := map[], [];
    var k := 0;
    while k < |pending|
      invariant 0 <= k <= |pending|
      invariant forall key :: key in still <==> key in pending[..k] && !Answers(stores, lost, t, Name(hash, key))
      invariant forall key :: key in found <==> key in pending[..k] && Answers(stores, lost, t, Name(hash, key))
      invariant forall key | key in found :: found[key] == Answer(stores, lost, t, Name(hash, key))
    {
      var key := pending[k];
      assert pending[..k + 1] == pending[..k] + [key];
      var data := Answer(stores, lost, t, Name(hash, key));
      if data.None? { still := still + [key]; } else { found := found[key := data]; }
      k := k + 1;
    }
    assert pending[..k] == pending;
  }

  /** A key nobody had is a miss. */
  method AddMisses(before: map<string, Option<Bytes>>, pending: seq<string>) returns (found: map<string, Option<Bytes>>)
    ensures forall key :: key in found <==> key in before || key in pending
    ensures forall key | key in found :: found[key] == if key in pending then None else before[key]
  {
    found := before;
    var k := 0;
    while k < |pending|
      invariant 0 <= k <= |pending|
      invariant forall key :: key in found <==> key in before || key in pending[..k]
      invariant forall key | key in found :: found[key] == if key in pending[..k] then None else before[key]
    {
      assert pending[..k + 1] == pending[..k] + [pending[k]];
      found := found[pending[k] := None];
      k := k + 1;
    }
    assert pending[..k] == pending;
  }

  method AskTier(stores: seq<Store>, lost: seq<set<string>>, t: nat, hash: string, pending: seq<string>)
    returns (held: set<string>, still: seq<string>)
    requires |lost| == |stores| && t < |stores|
    ensures forall key :: key in still <==> key in pending && !HoldsBytes(stores, lost, t, Name(hash, key))
    ensures forall key :: key in held <==> key in pending && HoldsBytes(stores, lost, t, Name(hash, key))
  {
    held, still := {}, [];
    var k := 0;
    while k < |pending|
      invariant 0 <= k <= |pending|
      invariant forall key :: key in still <==> key in pending[..k] && !HoldsBytes(stores, lost, t, Name(hash, key))
      invariant forall key :: key in held <==> key in pending[..k] && HoldsBytes(stores, lost, t, Name(hash, key))
    {
      var key := pending[k];
      assert pending[..k + 1] == pending[..k] + [key];
      if HoldsBytes(stores, lost, t, Name(hash, key)) { held := held + {key}; } else { still := still + [key]; }
      k := k + 1;
    }
    assert pending[..k] == pending;
  }

  // ---- runs in which a name determines its bytes ----

  predicate Enabled(tiers: seq<Tier>, step: Step) {
    match step
    case Put(_, _, _, outcomes) => |outcomes| == |tiers|
    case Drop(t, _) => t < |tiers|
  }

  function Apply(tiers: seq<Tier>, stores: seq<Store>, step: Step): (r: seq<Store>)
    requires |stores| == |tiers| && Enabled(tiers, step)
    ensures |r| == |tiers|
  {
    match step
    case Put(_, _, _, _) => WrittenTo(tiers, stores, step)
    case Drop(t, names) => stores[t := stores[t] - names]
  }

  function After(tiers: seq<Tier>, run: seq<Step>): (r: seq<Store>)
    requires forall i | 0 <= i < |run| :: Enabled(tiers, run[i])
    ensures |r| == |tiers|
  {
    if run == [] then Empty(tiers) else Apply(tiers, After(tiers, run[..|run|-1]), run[|run|-1])
  }

  /** Every write puts under a name what the name stands for.  The sidecar with the
      object's name is the cache's own, and no caller's key. */
  ghost predicate Faithful(content: string -> Bytes, step: Step) {
    step.Put? ==> IsHash(step.hash) && forall key | key in step.items && key != "name" :: step.items[key] == content(Name(step.hash, key))
  }

  /** What is stored under a caller's name is what the name stands for. */
  ghost predicate StoreOk(content: string -> Bytes, store: Store) {
    forall hash, key | IsHash(hash) && key != "name" && Name(hash, key) in store :: store[Name(hash, key)] == content(Name(hash, key))
  }

  lemma OfferIsFaithful(content: string -> Bytes, tier: Tier, w: Step, hash: string, key: string)
    requires w.Put? && Faithful(content, w) && IsHash(hash) && key != "name"
    requires Name(hash, key) in Offered(tier, w.hash, w.objectName, w.items)
    ensures Offered(tier, w.hash, w.objectName, w.items)[Name(hash, key)] == content(Name(hash, key))
  {
    var accepted, name := Accepted(tier, w.hash, w.items), Name(hash, key);
    if name == Name(w.hash, "name") { NamesDiffer(hash, key, w.hash, "name"); }
    assert name in accepted;
    var k :| k in w.items && name == Name(w.hash, k);
    NamesDiffer(hash, key, w.hash, k);
  }

  lemma StepKeepsStore(content: string -> Bytes, tiers: seq<Tier>, stores: seq<Store>, step: Step, t: nat)
    requires |stores| == |tiers| && Enabled(tiers, step) && Faithful(content, step) && t < |tiers| && StoreOk(content, stores[t])
    ensures StoreOk(content, Apply(tiers, stores, step)[t])
  {
    var store := Apply(tiers, stores, step)[t];
    forall hash, key | IsHash(hash) && key != "name" && Name(hash, key) in store
      ensures store[Name(hash, key)] == content(Name(hash, key))
    {
      if step.Put? && Name(hash, key) in Offered(tiers[t], step.hash, step.objectName, step.items) {
        OfferIsFaithful(content, tiers[t], step, hash, key);
      }
    }
  }

  lemma {:induction false} RunKeepsStores(content: string -> Bytes, tiers: seq<Tier>, run: seq<Step>, t: nat)
    requires (forall i | 0 <= i < |run| :: Enabled(tiers, run[i]) && Faithful(content, run[i])) && t < |tiers|
    ensures StoreOk(content, After(tiers, run)[t])
    decreases |run|
  {
    if run != [] {
      RunKeepsStores(content, tiers, run[..|run|-1], t);
      StepKeepsStore(content, tiers, After(tiers, run[..|run|-1]), run[|run|-1], t);
    }
  }

  /** Over any run of writes, evictions and failures: a read gives the bytes that the
      name stands for exactly if some tier that answers holds them, and nothing
      otherwise; and the existence check says the same. */
  lemma ReadIsContentOrNothing(content: string -> Bytes, tiers: seq<Tier>, run: seq<Step>, lost: seq<set<string>>, hash: string, key: string)
    requires forall i | 0 <= i < |run| :: Enabled(tiers, run[i]) && Faithful(content, run[i])
    requires |lost| == |tiers| && IsHash(hash) && key != "name" && content(Name(hash, key)) != ""
    ensures var stores, name := After(tiers, run), Name(hash, key);
            && Nearest(stores, lost, 0, name)
                 == (if exists t | 0 <= t < |tiers| :: name in stores[t] && name !in lost[t] then Some(content(name)) else None)
            && (SomeHoldBytes(stores, lost, 0, name) <==> Nearest(stores, lost, 0, name).Some?)
  {
    var stores, name := After(tiers, run), Name(hash, key);
    forall t | 0 <= t < |tiers| && name in stores[t] ensures stores[t][name] == content(name) {
      RunKeepsStores(content, tiers, run, t);
      assert StoreOk(content, stores[t]);
    }
    var r := Nearest(stores, lost, 0, name);
    forall t | 0 <= t < |tiers| ensures Answers(stores, lost, t, name) <==> name in stores[t] && name !in lost[t] {}
    if r.Some? {
      var u :| 0 <= u < |stores| && Answers(stores, lost, u, name) && Answer(stores, lost, u, name) == r;
      assert HoldsBytes(stores, lost, u, name);
    }
  }

  // ---- where entries may be empty ----

  /** An empty entry, and one with bytes in it further away. */
  predicate EmptyBefore(stores: seq<Store>, name: string, i: nat, j: nat) {
    && i < j < |stores| && name in stores[i] && stores[i][name] == ""
    && name in stores[j] && stores[j][name] != ""
  }

  /** A read that comes back with bytes. */
  predicate ReadsBytes(stores: seq<Store>, lost: seq<set<string>>, name: string)
    requires |lost| == |stores|
  {
    var r := Nearest(stores, lost, 0, name);
    r.Some? && r.value != ""
  }

  lemma HiddenByEmpty(stores: seq<Store>, name: string, i: nat, j: nat) returns (lost: seq<set<string>>)
    requires EmptyBefore(stores, name, i, j)
    ensures |lost| == |stores| && !ReadsBytes(stores, lost, name) && SomeHoldBytes(stores, lost, 0, name)
  {
    lost := seq(|stores|, t => if t == i || t == j then {} else {name});
    assert Answers(stores, lost, i, name) && HoldsBytes(stores, lost, j, name);
    forall t | 0 <= t < i ensures !Answers(stores, lost, t, name) {}
  }

  /** The read and the existence check agree whatever fails - exactly when no empty entry
      stands before one with bytes in it: the read stops there, the check goes on. */
  lemma ReadAndContainsAgreeUnlessHidden(stores: seq<Store>, name: string)
    ensures (forall lost: seq<set<string>> | |lost| == |stores| :: ReadsBytes(stores, lost, name) == SomeHoldBytes(stores, lost, 0, name))
        <==> !(exists i, j :: EmptyBefore(stores, name, i, j))
  {
    if i, j :| EmptyBefore(stores, name, i, j) {
      var lost := HiddenByEmpty(stores, name, i, j);
    } else {
      forall lost: seq<set<string>> | |lost| == |stores| ensures ReadsBytes(stores, lost, name) == SomeHoldBytes(stores, lost, 0, name) {
        AgreeIfNotHidden(stores, lost, name);
      }
    }
  }

  lemma AgreeIfNotHidden(stores: seq<Store>, lost: seq<set<string>>, name: string)
    requires |lost| == |stores| && forall i, j :: !EmptyBefore(stores, name, i, j)
    ensures ReadsBytes(stores, lost, name) == SomeHoldBytes(stores, lost, 0, name)
  {
    var r := Nearest(stores, lost, 0, name);
    if r.Some? {
      var u :| 0 <= u < |stores| && Answers(stores, lost, u, name) && Answer(stores, lost, u, name) == r
               && forall v | 0 <= v < u :: !Answers(stores, lost, v, name);
      if r.value != "" {
        assert HoldsBytes(stores, lost, u, name);
      } else if t :| 0 <= t < |stores| && HoldsBytes(stores, lost, t, name) {
        assert EmptyBefore(stores, name, u, t);
      }
    }
  }

  /** Only tier t stores the name. */
  function OnlyTier(n: nat, t: nat, name: string): (r: seq<Outcome>)
    ensures |r| == n && forall u | 0 <= u < n :: r[u] == Outcome(if u == t then {name} else {}, false)
  {
    seq(n, u => Outcome(if u == t then {name} else {}, false))
  }

  /** Writing one entry that only tier t stores. */
  function PutIn(n: nat, t: nat, hash: string, key: string, value: Bytes): Step {
    Put(hash, "", map[key := value], OnlyTier(n, t, Name(hash, key)))
  }

  lemma PutInStores(tiers: seq<Tier>, stores: seq<Store>, t: nat, hash: string, key: string, value: Bytes)
    requires |stores| == |tiers| && t < |tiers| && hash != "" && key != "name" && Accepts(tiers[t], key, |value|)
    ensures var name, after := Name(hash, key), WrittenTo(tiers, stores, PutIn(|tiers|, t, hash, key, value));
            name in after[t] && after[t][name] == value
  {
    ReportedIsAcceptedAndStored(tiers, stores, PutIn(|tiers|, t, hash, key, value), t, key);
  }

  lemma PutInElsewhere(tiers: seq<Tier>, stores: seq<Store>, t: nat, hash: string, key: string, value: Bytes, u: nat)
    requires |stores| == |tiers| && t < |tiers| && u < |tiers| && u != t
    ensures WrittenTo(tiers, stores, PutIn(|tiers|, t, hash, key, value))[u] == stores[u]
  {}

  lemma BothEnabled(tiers: seq<Tier>, first: Step, second: Step)
    requires Enabled(tiers, first) && Enabled(tiers, second)
    ensures forall k | 0 <= k < |[first, second]| :: Enabled(tiers, [first, second][k])
  {}

  lemma AfterTwo(tiers: seq<Tier>, first: Step, second: Step)
    requires first.Put? && second.Put? && Enabled(tiers, first) && Enabled(tiers, second)
    ensures After(tiers, [first, second]) == WrittenTo(tiers, WrittenTo(tiers, Empty(tiers), first), second)
  {
    assert [first, second][..1] == [first] && [first][..0] == [];
    assert After(tiers, [first]) == WrittenTo(tiers, Empty(tiers), first);
  }

  lemma WrittenOneByOne(tiers: seq<Tier>, hash: string, key: string, i: nat, j: nat) returns (s1: seq<Store>, s2: seq<Store>)
    requires i < j < |tiers| && hash != "" && key != "name" && Accepts(tiers[i], key, 0) && Accepts(tiers[j], key, 1)
    ensures s1 == WrittenTo(tiers, Empty(tiers), PutIn(|tiers|, i, hash, key, ""))
    ensures s2 == WrittenTo(tiers, s1, PutIn(|tiers|, j, hash, key, "x"))
    ensures EmptyBefore(s2, Name(hash, key), i, j)
  {
    s1 := WrittenTo(tiers, Empty(tiers), PutIn(|tiers|, i, hash, key, ""));
    PutInStores(tiers, Empty(tiers), i, hash, key, "");
    s2 := WrittenTo(tiers, s1, PutIn(|tiers|, j, hash, key, "x"));
    PutInElsewhere(tiers, s1, j, hash, key, "x", i);
    PutInStores(tiers, s1, j, hash, key, "x");
  }

  /** A run that gets there: an empty entry that only tier i stores, then bytes under the
      same name that only tier j stores. */
  lemma RunHidesBytes(tiers: seq<Tier>, hash: string, key: string, i: nat, j: nat) returns (run: seq<Step>)
    requires i < j < |tiers| && hash != "" && key != "name" && Accepts(tiers[i], key, 0) && Accepts(tiers[j], key, 1)
    ensures forall k | 0 <= k < |run| :: Enabled(tiers, run[k])
    ensures EmptyBefore(After(tiers, run), Name(hash, key), i, j)
  {
    var s1, s2 := WrittenOneByOne(tiers, hash, key, i, j);
    var first, second := PutIn(|tiers|, i, hash, key, ""), PutIn(|tiers|, j, hash, key, "x");
    BothEnabled(tiers, first, second);
    AfterTwo(tiers, first, second);
    run := [first, second];
  }

  // ---- what a tier takes, and what a write leaves in it ----

  /** Keys of geometry begin with one of five words and do not end in "-props". */
  predicate OfGeometry(key: string) {
    && ("shape" <= key || "sketch" <= key || "part" <= key || "assembly" <= key || "cmps" <= key)
    && !(|key| >= 6 && key[|key| - 6..] == "-props")
  }

  /** Whatever is not geometry is taken at any size; geometry up to the maximum and from the
      minimum on, if there is one, a single byte or none at all being always enough. */
  lemma SizeWindow(tier: Tier, key: string, size: nat)
    ensures Accepts(tier, key, size) <==>
              !OfGeometry(key) || ((size <= 1 || size >= tier.minEntrySize) && (tier.maxEntrySize == 0 || size <= tier.maxEntrySize))
  {
    assert HoldsGeometry(key) <==> OfGeometry(key) by {
      assert SIZED_KEYS[0] == "shape" && SIZED_KEYS[1] == "sketch" && SIZED_KEYS[2] == "part" && SIZED_KEYS[3] == "assembly" && SIZED_KEYS[4] == "cmps";
    }
  }

  /** After a write a tier has, under the hash, a dot and the key, each item that it took
      and stored; under any other key but "name" it has what it had. */
  lemma WrittenByKey(tiers: seq<Tier>, stores: seq<Store>, w: Step, t: nat, key: string)
    requires w.Put? && |w.outcomes| == |tiers| == |stores| && t < |tiers| && key != "name"
    ensures var name, before, after := w.hash + "." + key, stores[t], WrittenTier(tiers, stores, w, t);
            if w.hash != "" && key in w.items && Accepts(tiers[t], key, |w.items[key]|) && name in w.outcomes[t].stored then
              name in after && after[name] == w.items[key]
            else (name in after <==> name in before) && (name in after ==> after[name] == before[name])
  {
    if Name(w.hash, key) == Name(w.hash, "name") { NamesDiffer(w.hash, key, w.hash, "name"); }
  }

  /** Under "name" it has the object's name, if it stores names and took anything. */
  lemma WrittenBesideKeys(tiers: seq<Tier>, stores: seq<Store>, w: Step, t: nat)
    requires w.Put? && |w.outcomes| == |tiers| == |stores| && t < |tiers|
    ensures var name, after := w.hash + ".name", WrittenTier(tiers, stores, w, t);
            w.hash != "" && tiers[t].storesNames && name in w.outcomes[t].stored
            && (exists key :: key in w.items && Accepts(tiers[t], key, |w.items[key]|)) ==>
              name in after && after[name] == w.objectName
  {
    assert w.hash + ".name" == w.hash + "." + "name" == Name(w.hash, "name");
    if key :| key in w.items && Accepts(tiers[t], key, |w.items[key]|) {
      assert Name(w.hash, key) in Accepted(tiers[t], w.hash, w.items);
    }
  }

  lemma OtherNamesStay(tiers: seq<Tier>, stores: seq<Store>, w: Step, t: nat, n: string)
    requires w.Put? && |w.outcomes| == |tiers| == |stores| && t < |tiers| && !(w.hash + "." <= n)
    ensures var after := WrittenTier(tiers, stores, w, t);
            (n in after <==> n in stores[t]) && (n in after ==> after[n] == stores[t][n])
  {
    forall key ensures n != Name(w.hash, key) { assert w.hash + "." <= Name(w.hash, key); }
  }
}
