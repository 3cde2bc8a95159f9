/** What a BREP payload is made of, read off its text (src/partcad/brep_inspect.py).

    A character stands for a byte.  Decompressing the payload is not modelled: `plain`
    is what came of it, or None where it raised. */
module BrepTopology {
  import opened Wrappers

  datatype ShapeType = Vertex | Edge | Wire | Face | Shell | Solid | CompSolid | Compound

  const MAGIC := ["CASCADE Topology", "DBRep_DrawableShape"]
  const MAGIC_WINDOW := 128
  const TSHAPES := "TShapes "

  function TypeOf(code: string): Option<ShapeType> {
    if code == "Ve" then Some(Vertex)
    else if code == "Ed" then Some(Edge)
    else if code == "Wi" then Some(Wire)
    else if code == "Fa" then Some(Face)
    else if code == "Sh" then Some(Shell)
    else if code == "So" then Some(Solid)
    else if code == "CS" then Some(CompSolid)
    else if code == "Co" then Some(Compound)
    else None
  }

  // ---- lines ----

  predicate Space(c: char) { c == ' ' || c == '\t' || c == '\n' || c == '\r' || c == 11 as char || c == 12 as char }

  function StripLeft(s: string): string {
    if s != "" && Space(s[0]) then StripLeft(s[1..]) else s
  }

  function StripRight(s: string): string {
    if s != "" && Space(s[|s|-1]) then StripRight(s[..|s|-1]) else s
  }

  function Strip(s: string): string { StripRight(StripLeft(s)) }

  function LineEnd(data: string): (e: nat)
    ensures e <= |data| && (forall j | 0 <= j < e :: data[j] != '\n') && (e < |data| ==> data[e] == '\n')
  {
    if data == "" || data[0] == '\n' then 0 else 1 + LineEnd(data[1..])
  }

  /** The text cut at its newlines, each line stripped. */
  function Lines(data: string): seq<string>
    decreases |data|
  {
    if data == "" then []
    else
      var e := LineEnd(data);
      if e < |data| then [Strip(data[..e])] + Lines(data[e + 1..]) else [Strip(data)]
  }

  /** What reading a line at a position gives: None at the end of the text, otherwise its
      first line and where the rest begins. */
  ghost predicate LineAt(data: string, pos: nat, line: Option<string>, next: nat) {
    && pos <= next <= |data|
    && if line.None? then next == pos && Lines(data[pos..]) == []
       else next > pos && Lines(data[pos..]) == [line.value] + Lines(data[next..])
  }

  method Line(data: string, pos: nat) returns (line: Option<string>, next: nat)
    requires pos <= |data|
    ensures LineAt(data, pos, line, next)
  {
    if pos >= |data| { return None, pos; }
    var end := FindNewline(data, pos);
    if end == |data| {
      LastLineFound(data, pos);
      return Some(Strip(data[pos..])), |data|;
    }
    LineFound(data, pos, end);
    return Some(Strip(data[pos..end])), end + 1;
  }

  /** data.find(b"\n", pos), with the length of the text for "not found". */
  method FindNewline(data: string, pos: nat) returns (end: nat)
    requires pos <= |data|
    ensures pos <= end <= |data| && (end < |data| ==> data[end] == '\n')
    ensures forall j | pos <= j < end :: data[j] != '\n'
  {
    end := pos;
    while end < |data| && data[end] != '\n'
      invariant pos <= end <= |data| && forall j | pos <= j < end :: data[j] != '\n'
    {
      end := end + 1;
    }
  }

  lemma LineFound(data: string, pos: nat, end: nat)
    requires pos <= end < |data| && data[end] == '\n' && forall j | pos <= j < end :: data[j] != '\n'
    ensures LineAt(data, pos, Some(Strip(data[pos..end])), end + 1)
  {
    var rest, e := data[pos..], end - pos;
    LineEndsAt(rest, e);
    assert rest[..e] == data[pos..end];
    assert rest[e + 1..] == data[end + 1..];
  }

  lemma LastLineFound(data: string, pos: nat)
    requires pos < |data| && forall j | pos <= j < |data| :: data[j] != '\n'
    ensures LineAt(data, pos, Some(Strip(data[pos..])), |data|)
  {
    var rest := data[pos..];
    LineEndsAt(rest, |rest|);
    assert data[|data|..] == "";
  }

  lemma LineEndsAt(data: string, e: nat)
    requires e <= |data| && (forall j | 0 <= j < e :: data[j] != '\n') && (e < |data| ==> data[e] == '\n')
    ensures LineEnd(data) == e
  {}

  // ---- numbers ----

  predicate IsDigit(c: char) { '0' <= c <= '9' }

  function Digit(c: char): nat
    requires IsDigit(c)
  {
    c as int - '0' as int
  }

  /** Decimal digits, a single underscore allowed between two of them. */
  function Number(s: string): (r: Option<nat>)
    ensures s != "" && (forall i | 0 <= i < |s| :: IsDigit(s[i])) ==> r.Some?
  {
    var n := |s|;
    if n == 0 || !IsDigit(s[n - 1]) then None
    else if n == 1 then Some(Digit(s[0]))
    else
      match Number(s[..if s[n - 2] == '_' then n - 2 else n - 1])
      case None => None
      case Some(v) => Some(10 * v + Digit(s[n - 1]))
  }

  /** Python's int() of a text. */
  function Int(text: string): Option<int> {
    var s := Strip(text);
    if s != "" && (s[0] == '+' || s[0] == '-') then
      match Number(s[1..])
      case None => None
      case Some(v) => var i: int := v; Some(if s[0] == '-' then -i else i)
    else
      match Number(s)
      case None => None
      case Some(v) => Some(v)
  }

  function DigitRun(text: string, i: nat): (e: nat)
    requires i <= |text|
    ensures i <= e <= |text| && (forall j | i <= j < e :: IsDigit(text[j])) && (e < |text| ==> !IsDigit(text[e]))
    decreases |text| - i
  {
    if i < |text| && IsDigit(text[i]) then DigitRun(text, i + 1) else i
  }

  /** The indices a sub-shape line refers to: what follows each sign that has digits
      after it. */
  function References(text: string): seq<nat>
    decreases |text|
  {
    if |text| < 2 then []
    else if (text[0] == '+' || text[0] == '-') && IsDigit(text[1]) then
      var e := DigitRun(text, 1);
      assert IsDigit(text[1]) && e > 1;
      [Number(text[1..e]).value] + References(text[e..])
    else References(text[1..])
  }

  // ---- the section and its records ----

  predicate HeaderAt(data: string, i: nat) {
    i + |TSHAPES| <= |data| && data[i..i + |TSHAPES|] == TSHAPES && (i == 0 || data[i - 1] == '\n')
  }

  function FirstHeader(data: string, i: nat): (r: Option<nat>)
    ensures r.Some? ==> r.value >= i && HeaderAt(data, r.value) && forall j | i <= j < r.value :: !HeaderAt(data, j)
    ensures r.None? ==> forall j | i <= j :: !HeaderAt(data, j)
    decreases |data| - i
  {
    if i + |TSHAPES| > |data| then None
    else if HeaderAt(data, i) then Some(i)
    else FirstHeader(data, i + 1)
  }

  datatype Record = Record(shape: ShapeType, references: string)

  predicate Closes(line: string) { line != "" && line[|line|-1] == '*' }

  /** The line a record closes on, and what follows it. */
  function CloseRecord(t: ShapeType, lines: seq<string>): Option<(Record, seq<string>)> {
    if lines == [] then None
    else if Closes(lines[0]) then Some((Record(t, lines[0]), lines[1..]))
    else CloseRecord(t, lines[1..])
  }

  function TakeRecord(lines: seq<string>): Option<(Record, seq<string>)> {
    if lines == [] then None
    else if lines[0] == "" then TakeRecord(lines[1..])
    else match TypeOf(lines[0])
      case None => None
      case Some(t) => CloseRecord(t, lines[1..])
  }

  function TakeRecords(lines: seq<string>, count: nat): Option<seq<Record>>
    decreases count
  {
    if count == 0 then Some([])
    else match TakeRecord(lines)
      case None => None
      case Some((record, rest)) =>
        match TakeRecords(rest, count - 1)
        case None => None
        case Some(more) => Some([record] + more)
  }

  function Tail(header: string): string { if |header| < |TSHAPES| then "" else header[|TSHAPES|..] }

  function RecordsOf(data: string): Option<seq<Record>> {
    match FirstHeader(data, 0)
    case None => None
    case Some(start) =>
      var lines := Lines(data[start..]);
      match Int(Tail(lines[0]))
      case None => None
      case Some(count) => TakeRecords(lines[1..], if count < 0 then 0 else count)
  }

  method SectionStart(data: string) returns (start: int)
    ensures start >= 0 ==> FirstHeader(data, 0) == Some(start)
    ensures start < 0 ==> FirstHeader(data, 0).None?
  {
    var pos := 0;
    while pos + |TSHAPES| <= |data|
      invariant 0 <= pos && forall j | 0 <= j < pos :: !HeaderAt(data, j)
      decreases |data| - pos
    {
      if data[pos..pos + |TSHAPES|] == TSHAPES && (pos == 0 || data[pos - 1] == '\n') {
        assert HeaderAt(data, pos);
        return pos;
      }
      assert !HeaderAt(data, pos);
      pos := pos + 1;
    }
    return -1;
  }

  method NextRecord(data: string, start: nat) returns (record: Option<Record>, pos: nat)
    requires start <= |data|
    ensures start <= pos <= |data|
    ensures record.None? <==> TakeRecord(Lines(data[start..])).None?
    ensures record.Some? ==> TakeRecord(Lines(data[start..])) == Some((record.value, Lines(data[pos..])))
  {
    var line;
    line, pos := Line(data, start);
    ghost var here := start;
    while line == Some("")
      invariant here <= pos <= |data| && start <= here && (line.None? <==> Lines(data[here..]) == [])
      invariant line.Some? ==> pos > here && Lines(data[here..]) == [line.value] + Lines(data[pos..])
      invariant TakeRecord(Lines(data[start..])) == TakeRecord(Lines(data[here..]))
      decreases |data| - here
    {
      here := pos;
      line, pos := Line(data, pos);
    }
    if line.None? { return None, pos; }
    var code := TypeOf(line.value);
    if code.None? { return None, pos; }
    ghost var body := pos;
    assert TakeRecord(Lines(data[start..])) == CloseRecord(code.value, Lines(data[body..]));
    line, pos := Line(data, pos);
    here := body;
    while line.Some? && !Closes(line.value)
      invariant here <= pos <= |data| && start <= here && (line.None? <==> Lines(data[here..]) == [])
      invariant line.Some? ==> pos > here && Lines(data[here..]) == [line.value] + Lines(data[pos..])
      invariant CloseRecord(code.value, Lines(data[body..])) == CloseRecord(code.value, Lines(data[here..]))
      decreases |data| - here
    {
      here := pos;
      line, pos := Line(data, pos);
    }
    if line.None? { return None, pos; }
    return Some(Record(code.value, line.value)), pos;
  }

  /** `found` of the n records is taken, and `left` of them are in the lines that remain. */
  ghost predicate Taken(lines: seq<string>, n: nat, found: seq<Record>, here: seq<string>, left: nat) {
    TakeRecords(lines, n) == After(found, TakeRecords(here, left))
  }

  method TakeNext(data: string, pos: nat, found: seq<Record>, ghost lines: seq<string>, ghost n: nat, ghost left: nat)
    returns (more: Option<seq<Record>>, next: nat)
    requires pos <= |data| && left > 0 && Taken(lines, n, found, Lines(data[pos..]), left)
    ensures next <= |data|
    ensures more.None? ==> TakeRecords(lines, n).None?
    ensures more.Some? ==> Taken(lines, n, more.value, Lines(data[next..]), left - 1)
  {
    ghost var here := Lines(data[pos..]);
    var record;
    record, next := NextRecord(data, pos);
    if record.None? {
      NoMoreToTake(lines, n, found, here, left);
      return None, next;
    }
    TookOne(lines, n, found, here, left, record.value, Lines(data[next..]));
    more := Some(found + [record.value]);
  }

  method Take(data: string, start: nat, n: nat) returns (records: Option<seq<Record>>)
    requires start <= |data|
    ensures records == TakeRecords(Lines(data[start..]), n)
  {
    var found: seq<Record>, pos: nat := [], start;
    ghost var lines := Lines(data[start..]);
    TookNone(lines, n);
    for index := 0 to n
      invariant pos <= |data| && Taken(lines, n, found, Lines(data[pos..]), n - index)
    {
      var more;
      more, pos := TakeNext(data, pos, found, lines, n, n - index);
      if more.None? { return None; }
      found := more.value;
    }
    TookAll(lines, n, found, Lines(data[pos..]));
    return Some(found);
  }

  method Records(data: string) returns (records: Option<seq<Record>>)
    ensures records == RecordsOf(data)
  {
    var start := SectionStart(data);
    if start < 0 { return None; }
    var header, pos := Line(data, start);
    var count := Int(Tail(header.value));
    if count.None? { return None; }
    assert Lines(data[start..])[1..] == Lines(data[pos..]);
    records := Take(data, pos, if count.value < 0 then 0 else count.value);
  }

  ghost function After(found: seq<Record>, rest: Option<seq<Record>>): Option<seq<Record>> {
    if rest.None? then None else Some(found + rest.value)
  }

  lemma TookNone(lines: seq<string>, n: nat)
    ensures Taken(lines, n, [], lines, n)
  {
    var rest := TakeRecords(lines, n);
    if rest.Some? { assert [] + rest.value == rest.value; }
  }

  lemma AfterOne(found: seq<Record>, record: Record, rest: Option<seq<Record>>)
    ensures After(found, After([record], rest)) == After(found + [record], rest)
  {
    if rest.Some? { assert found + ([record] + rest.value) == found + [record] + rest.value; }
  }

  lemma TookOne(lines: seq<string>, n: nat, found: seq<Record>, here: seq<string>, left: nat, record: Record, there: seq<string>)
    requires Taken(lines, n, found, here, left)
    requires left > 0 && TakeRecord(here) == Some((record, there))
    ensures Taken(lines, n, found + [record], there, left - 1)
  {
    assert TakeRecords(here, left) == After([record], TakeRecords(there, left - 1));
    AfterOne(found, record, TakeRecords(there, left - 1));
  }

  lemma NoMoreToTake(lines: seq<string>, n: nat, found: seq<Record>, here: seq<string>, left: nat)
    requires Taken(lines, n, found, here, left) && left > 0 && TakeRecord(here).None?
    ensures TakeRecords(lines, n).None?
  {}

  lemma TookAll(lines: seq<string>, n: nat, found: seq<Record>, here: seq<string>)
    requires Taken(lines, n, found, here, 0)
    ensures TakeRecords(lines, n) == Some(found)
  {
    assert found + [] == found;
  }

  // ---- the topology ----

  datatype Topology = Topology(counts: map<ShapeType, nat>, root: Option<ShapeType>, freeShells: nat)

  predicate OccursAt(marker: string, text: string, i: nat) {
    i + |marker| <= |text| && text[i..i + |marker|] == marker
  }

  predicate Occurs(marker: string, text: string) {
    exists i | 0 <= i <= |text| :: OccursAt(marker, text, i)
  }

  predicate LooksLikeBrep(data: string) {
    var head := if |data| > MAGIC_WINDOW then data[..MAGIC_WINDOW] else data;
    Occurs(MAGIC[0], head) || Occurs(MAGIC[1], head)
  }

  predicate OfType(records: seq<Record>, i: nat, t: ShapeType) {
    i < |records| && records[i].shape == t
  }

  /** The records of one type, by position. */
  function Positions(records: seq<Record>, t: ShapeType): set<nat> {
    set i | 0 <= i < |records| && OfType(records, i, t)
  }

  /** What the solids refer to. */
  function Bounding(records: seq<Record>): set<nat> {
    set i, n | 0 <= i < |records| && OfType(records, i, Solid) && n in References(records[i].references) :: n
  }

  ghost predicate CountOk(counts: map<ShapeType, nat>, records: seq<Record>, k: ShapeType) {
    && (k in counts <==> Positions(records, k) != {})
    && (k in counts ==> counts[k] == |Positions(records, k)|)
  }

  /** `counts` holds the types that occur, and how often each does. */
  ghost predicate Counts(counts: map<ShapeType, nat>, records: seq<Record>) {
    forall k: ShapeType :: CountOk(counts, records, k)
  }

  ghost predicate Describes(t: Topology, records: seq<Record>) {
    && Counts(t.counts, records)
    && t.root == (if records == [] then None else Some(records[|records|-1].shape))
    && t.freeShells == (if |Positions(records, Shell)| > |Bounding(records)| then |Positions(records, Shell)| - |Bounding(records)| else 0)
  }

  function CountOne(counts: map<ShapeType, nat>, t: ShapeType): map<ShapeType, nat> {
    counts[t := (if t in counts then counts[t] else 0) + 1]
  }

  lemma CountsOneMore(counts: map<ShapeType, nat>, records: seq<Record>, record: Record)
    requires Counts(counts, records)
    ensures Counts(CountOne(counts, record.shape), records + [record])
  {
    forall k ensures CountOk(CountOne(counts, record.shape), records + [record], k) {
      assert CountOk(counts, records, k);
      OneMorePosition(records, record, k);
    }
  }

  lemma OneMorePosition(records: seq<Record>, record: Record, t: ShapeType)
    ensures Positions(records + [record], t) == Positions(records, t) + (if record.shape == t then {|records|} else {})
    ensures |records| !in Positions(records, t)
  {}

  lemma OneMoreBounding(records: seq<Record>, record: Record)
    ensures Bounding(records + [record])
         == Bounding(records) + (if record.shape == Solid then (set n | n in References(record.references)) else {})
  {
    var more := records + [record];
    forall n ensures n in Bounding(more) <==>
        n in Bounding(records) || (record.shape == Solid && n in References(record.references)) {
      if n in Bounding(records) {
        var i :| 0 <= i < |records| && OfType(records, i, Solid) && n in References(records[i].references);
        assert OfType(more, i, Solid) && more[i] == records[i];
      }
      if record.shape == Solid && n in References(record.references) {
        assert OfType(more, |records|, Solid);
      }
      if n in Bounding(more) {
        var i :| 0 <= i < |more| && OfType(more, i, Solid) && n in References(more[i].references);
        assert i < |records| ==> OfType(records, i, Solid) && more[i] == records[i];
      }
    }
  }

  method Tally(records: seq<Record>) returns (counts: map<ShapeType, nat>, root: Option<ShapeType>, bounding: set<nat>)
    ensures Counts(counts, records) && bounding == Bounding(records)
    ensures root == if records == [] then None else Some(records[|records|-1].shape)
  {
    counts, root, bounding := map[], None, {};
    var k := 0;
    while k < |records|
      invariant 0 <= k <= |records| && Counts(counts, records[..k]) && bounding == Bounding(records[..k])
      invariant root == (if k == 0 then None else Some(records[k - 1].shape))
    {
      var record := records[k];
      assert records[..k + 1] == records[..k] + [record];
      CountsOneMore(counts, records[..k], record);
      OneMoreBounding(records[..k], record);
      root := Some(record.shape);
      counts := CountOne(counts, record.shape);
      if record.shape == Solid {
        bounding := bounding + (set n | n in References(record.references));
      }
      k := k + 1;
    }
    assert records[..k] == records;
  }

  // ---- the scan in the format's own terms ----

  /** The lines on which a record opens and closes. */
  datatype Span = Span(open: nat, close: nat)

  predicate EndsInStar(line: string) { exists i | 0 <= i < |line| :: i == |line| - 1 && line[i] == '*' }

  /** From here on: empty lines, the opening line, lines that do not end in a star, and one
      that does. */
  predicate SpanOk(lines: seq<string>, from: nat, s: Span) {
    && from <= s.open < s.close < |lines|
    && (forall j | from <= j < s.open :: lines[j] == "") && lines[s.open] != ""
    && (forall j | s.open < j < s.close :: !EndsInStar(lines[j])) && EndsInStar(lines[s.close])
  }

  predicate OpensShape(line: string) {
    line == "Ve" || line == "Ed" || line == "Wi" || line == "Fa" || line == "Sh" || line == "So" || line == "CS" || line == "Co"
  }

  /** One record after the other, each looked for where the one before it closes. */
  predicate SpansFrom(lines: seq<string>, from: nat, spans: seq<Span>)
    decreases |spans|
  {
    spans != [] ==>
      && SpanOk(lines, from, spans[0]) && OpensShape(lines[spans[0].open])
      && SpansFrom(lines, spans[0].close + 1, spans[1..])
  }

  /** A record is of the type that its opening line spells, and refers by its closing line. */
  predicate Spells(code: string, t: ShapeType) {
    || (code == "Ve" && t == Vertex) || (code == "Ed" && t == Edge) || (code == "Wi" && t == Wire) || (code == "Fa" && t == Face)
    || (code == "Sh" && t == Shell) || (code == "So" && t == Solid) || (code == "CS" && t == CompSolid) || (code == "Co" && t == Compound)
  }

  lemma SpellsIsTypeOf(code: string, t: ShapeType)
    ensures Spells(code, t) <==> TypeOf(code) == Some(t)
    ensures TypeOf(code).Some? <==> OpensShape(code)
  {}

  lemma {:induction false} ClosesAtSpan(t: ShapeType, lines: seq<string>, from: nat, close: nat)
    requires from <= close < |lines| && (forall j | from <= j < close :: !EndsInStar(lines[j])) && EndsInStar(lines[close])
    ensures CloseRecord(t, lines[from..]) == Some((Record(t, lines[close]), lines[close + 1..]))
    decreases close - from
  {
    var rest := lines[from..];
    assert rest[0] == lines[from] && rest[1..] == lines[from + 1..];
    assert EndsInStar(lines[from]) <==> Closes(lines[from]);
    if from < close { ClosesAtSpan(t, lines, from + 1, close); }
  }

  lemma {:induction false} SpanIsTaken(lines: seq<string>, from: nat, s: Span, t: ShapeType)
    requires SpanOk(lines, from, s) && Spells(lines[s.open], t)
    ensures TakeRecord(lines[from..]) == Some((Record(t, lines[s.close]), lines[s.close + 1..]))
    decreases s.open - from
  {
    var rest := lines[from..];
    assert rest[0] == lines[from] && rest[1..] == lines[from + 1..];
    if from < s.open {
      SpanIsTaken(lines, from + 1, s, t);
    } else {
      SpellsIsTypeOf(lines[from], t);
      ClosesAtSpan(t, lines, from + 1, s.close);
    }
  }

  lemma {:induction false} CloseOfRecord(t: ShapeType, lines: seq<string>, from: nat) returns (close: nat)
    requires from <= |lines| && CloseRecord(t, lines[from..]).Some?
    ensures from <= close < |lines| && (forall j | from <= j < close :: !EndsInStar(lines[j])) && EndsInStar(lines[close])
    decreases |lines| - from
  {
    var rest := lines[from..];
    assert rest[0] == lines[from] && rest[1..] == lines[from + 1..];
    if Closes(lines[from]) {
      close := from;
      assert lines[from][|lines[from]|-1] == '*';
    } else {
      close := CloseOfRecord(t, lines, from + 1);
    }
  }

  lemma {:induction false} SpanOfRecord(lines: seq<string>, from: nat) returns (s: Span)
    requires from <= |lines| && TakeRecord(lines[from..]).Some?
    ensures SpanOk(lines, from, s) && OpensShape(lines[s.open])
    decreases |lines| - from
  {
    var rest := lines[from..];
    assert rest[0] == lines[from] && rest[1..] == lines[from + 1..];
    if lines[from] == "" {
      s := SpanOfRecord(lines, from + 1);
    } else {
      var t := TypeOf(lines[from]).value;
      SpellsIsTypeOf(lines[from], t);
      var close := CloseOfRecord(t, lines, from + 1);
      s := Span(from, close);
    }
  }

  predicate InLines(lines: seq<string>, spans: seq<Span>) {
    forall i | 0 <= i < |spans| :: spans[i].open < |lines| && spans[i].close < |lines|
  }

  /** What the records are, given where they open and close. */
  predicate ReadOff(lines: seq<string>, spans: seq<Span>, records: seq<Record>)
    requires InLines(lines, spans)
  {
    && |records| == |spans|
    && forall i | 0 <= i < |spans| :: Spells(lines[spans[i].open], records[i].shape) && records[i].references == lines[spans[i].close]
  }

  lemma Spelled(code: string) returns (t: ShapeType)
    requires OpensShape(code)
    ensures Spells(code, t)
  {
    t := TypeOf(code).value;
  }

  lemma ReadOffOneMore(lines: seq<string>, spans: seq<Span>, first: Record, more: seq<Record>)
    requires spans != [] && InLines(lines, spans) && InLines(lines, spans[1..]) && ReadOff(lines, spans[1..], more)
    requires Spells(lines[spans[0].open], first.shape) && first.references == lines[spans[0].close]
    ensures ReadOff(lines, spans, [first] + more)
  {
    var records := [first] + more;
    forall i | 0 <= i < |spans|
      ensures Spells(lines[spans[i].open], records[i].shape) && records[i].references == lines[spans[i].close]
    {
      if i > 0 { assert spans[1..][i - 1] == spans[i] && records[i] == more[i - 1]; }
    }
  }

  lemma {:induction false} SpansAreInLines(lines: seq<string>, from: nat, spans: seq<Span>)
    requires SpansFrom(lines, from, spans)
    ensures InLines(lines, spans)
    decreases |spans|
  {
    if spans != [] {
      SpansAreInLines(lines, spans[0].close + 1, spans[1..]);
      assert spans == [spans[0]] + spans[1..];
    }
  }

  lemma OneMoreTaken(here: seq<string>, record: Record, rest: seq<string>, n: nat, more: seq<Record>)
    requires TakeRecord(here) == Some((record, rest)) && TakeRecords(rest, n) == Some(more)
    ensures TakeRecords(here, n + 1) == Some([record] + more)
  {}

  lemma FirstSpanIsTaken(lines: seq<string>, from: nat, spans: seq<Span>, more: seq<Record>) returns (records: seq<Record>)
    requires from <= |lines| && spans != [] && InLines(lines, spans) && InLines(lines, spans[1..])
    requires SpanOk(lines, from, spans[0]) && OpensShape(lines[spans[0].open])
    requires TakeRecords(lines[spans[0].close + 1..], |spans| - 1) == Some(more) && ReadOff(lines, spans[1..], more)
    ensures TakeRecords(lines[from..], |spans|) == Some(records) && ReadOff(lines, spans, records)
  {
    var t := Spelled(lines[spans[0].open]);
    var first := Record(t, lines[spans[0].close]);
    SpanIsTaken(lines, from, spans[0], t);
    ReadOffOneMore(lines, spans, first, more);
    OneMoreTaken(lines[from..], first, lines[spans[0].close + 1..], |spans| - 1, more);
    records := [first] + more;
  }

  lemma {:induction false} SpansAreTaken(lines: seq<string>, from: nat, spans: seq<Span>) returns (records: seq<Record>)
    requires from <= |lines| && SpansFrom(lines, from, spans)
    ensures InLines(lines, spans)
    ensures TakeRecords(lines[from..], |spans|) == Some(records) && ReadOff(lines, spans, records)
    decreases |spans|
  {
    SpansAreInLines(lines, from, spans);
    if spans == [] {
      records := [];
    } else {
      var more := SpansAreTaken(lines, spans[0].close + 1, spans[1..]);
      records := FirstSpanIsTaken(lines, from, spans, more);
    }
  }

  lemma FirstOfRecords(lines: seq<string>, from: nat, n: nat) returns (s: Span)
    requires from <= |lines| && n > 0 && TakeRecords(lines[from..], n).Some?
    ensures SpanOk(lines, from, s) && OpensShape(lines[s.open]) && TakeRecords(lines[s.close + 1..], n - 1).Some?
  {
    s := SpanOfRecord(lines, from);
    var t := Spelled(lines[s.open]);
    SpanIsTaken(lines, from, s, t);
  }

  lemma {:induction false} SpansOfRecords(lines: seq<string>, from: nat, n: nat) returns (spans: seq<Span>)
    requires from <= |lines| && TakeRecords(lines[from..], n).Some?
    ensures |spans| == n && SpansFrom(lines, from, spans)
    decreases n
  {
    if n == 0 {
      spans := [];
    } else {
      var s := FirstOfRecords(lines, from, n);
      var rest := SpansOfRecords(lines, s.close + 1, n - 1);
      spans := [s] + rest;
      assert spans[1..] == rest;
    }
  }

  lemma {:induction false} OtherLineIsNotTaken(lines: seq<string>, from: nat, j: nat)
    requires from <= j < |lines| && (forall i | from <= i < j :: lines[i] == "") && lines[j] != "" && !OpensShape(lines[j])
    ensures TakeRecord(lines[from..]).None?
    decreases j - from
  {
    var rest := lines[from..];
    assert rest[0] == lines[from] && rest[1..] == lines[from + 1..];
    if from < j { OtherLineIsNotTaken(lines, from + 1, j); } else { SpellsIsTypeOf(lines[from], Vertex); }
  }

  /** Where the spans end. */
  function EndOf(from: nat, spans: seq<Span>): nat { if spans == [] then from else spans[|spans|-1].close + 1 }

  /** If after some records, and before there are as many as the header says, a line that is
      not empty spells no type, nothing is read. */
  lemma {:induction false} OtherOpeningIsNotRead(lines: seq<string>, from: nat, spans: seq<Span>, j: nat, n: nat)
    requires from <= |lines| && SpansFrom(lines, from, spans) && |spans| < n && EndOf(from, spans) <= j < |lines|
    requires (forall i | EndOf(from, spans) <= i < j :: lines[i] == "") && lines[j] != "" && !OpensShape(lines[j])
    ensures TakeRecords(lines[from..], n).None?
    decreases |spans|
  {
    if spans == [] {
      OtherLineIsNotTaken(lines, from, j);
    } else {
      var s, rest := spans[0], spans[1..];
      var t := Spelled(lines[s.open]);
      SpanIsTaken(lines, from, s, t);
      assert EndOf(s.close + 1, rest) == EndOf(from, spans);
      OtherOpeningIsNotRead(lines, s.close + 1, rest, j, n - 1);
    }
  }

  /** The section begins where "TShapes " first stands at the start of a line. */
  predicate SectionAt(data: string, start: nat) {
    && BeginsSection(data, start) && forall j | 0 <= j < start :: !BeginsSection(data, j)
  }

  predicate BeginsSection(data: string, i: nat) {
    i + 8 <= |data| && data[i..i + 8] == "TShapes " && (i == 0 || data[i - 1] == '\n')
  }

  /** The payload has a section, its header counts the records, and they are all there. */
  predicate Scanned(data: string, start: nat, spans: seq<Span>) {
    && SectionAt(data, start) && Lines(data[start..]) != []
    && var lines := Lines(data[start..]);
       var count := Int(if |lines[0]| >= 8 then lines[0][8..] else "");
       count.Some? && |spans| == (if count.value < 0 then 0 else count.value) && SpansFrom(lines, 1, spans)
  }

  lemma SectionIsFirstHeader(data: string, start: nat)
    ensures SectionAt(data, start) <==> FirstHeader(data, 0) == Some(start)
  {
    forall i ensures BeginsSection(data, i) <==> HeaderAt(data, i) {}
    if HeaderAt(data, start) && forall j | 0 <= j < start :: !HeaderAt(data, j) { FirstIsFirst(data, start); }
  }

  lemma ScannedRecords(data: string, start: nat, spans: seq<Span>) returns (records: seq<Record>)
    requires Scanned(data, start, spans)
    ensures start <= |data| && InLines(Lines(data[start..]), spans)
    ensures RecordsOf(data) == Some(records) && ReadOff(Lines(data[start..]), spans, records)
  {
    SectionIsFirstHeader(data, start);
    records := SpansAreTaken(Lines(data[start..]), 1, spans);
  }

  lemma RecordsAreScanned(data: string) returns (start: nat, spans: seq<Span>)
    requires RecordsOf(data).Some?
    ensures Scanned(data, start, spans)
  {
    start := FirstHeader(data, 0).value;
    SectionIsFirstHeader(data, start);
    var lines := Lines(data[start..]);
    var count := Int(Tail(lines[0])).value;
    spans := SpansOfRecords(lines, 1, if count < 0 then 0 else count);
  }

  /** The records that open with this line. */
  function OpenedBy(lines: seq<string>, spans: seq<Span>, code: string): set<nat>
    requires InLines(lines, spans)
  {
    set i | 0 <= i < |spans| && lines[spans[i].open] == code
  }

  /** What the closing lines of records that open with "So" refer to. */
  function ReferredBySolids(lines: seq<string>, spans: seq<Span>): set<nat>
    requires InLines(lines, spans)
  {
    set i, n | 0 <= i < |spans| && lines[spans[i].open] == "So" && n in References(lines[spans[i].close]) :: n
  }

  predicate CountIs(counts: map<ShapeType, nat>, t: ShapeType, n: nat) {
    if n == 0 then t !in counts else t in counts && counts[t] == n
  }

  /** What is answered of these lines: for each spelling how many records open with it; the
      type that the last one's spells; and how many more shells there are than solids
      refer to. */
  predicate Answers(t: Topology, lines: seq<string>, spans: seq<Span>)
    requires InLines(lines, spans)
  {
    && CountIs(t.counts, Vertex, |OpenedBy(lines, spans, "Ve")|) && CountIs(t.counts, Edge, |OpenedBy(lines, spans, "Ed")|)
    && CountIs(t.counts, Wire, |OpenedBy(lines, spans, "Wi")|) && CountIs(t.counts, Face, |OpenedBy(lines, spans, "Fa")|)
    && CountIs(t.counts, Shell, |OpenedBy(lines, spans, "Sh")|) && CountIs(t.counts, Solid, |OpenedBy(lines, spans, "So")|)
    && CountIs(t.counts, CompSolid, |OpenedBy(lines, spans, "CS")|) && CountIs(t.counts, Compound, |OpenedBy(lines, spans, "Co")|)
    && (if spans == [] then t.root.None? else t.root.Some? && Spells(lines[spans[|spans|-1].open], t.root.value))
    && var shells, referred := |OpenedBy(lines, spans, "Sh")|, |ReferredBySolids(lines, spans)|;
       t.freeShells == (if shells > referred then shells - referred else 0)
  }

  predicate AnswersScan(t: Topology, data: string, start: nat, spans: seq<Span>) {
    start <= |data| && InLines(Lines(data[start..]), spans) && Answers(t, Lines(data[start..]), spans)
  }

  lemma OpenedArePositions(lines: seq<string>, spans: seq<Span>, records: seq<Record>, code: string, t: ShapeType)
    requires InLines(lines, spans) && ReadOff(lines, spans, records)
    requires Spells(code, t)
    ensures OpenedBy(lines, spans, code) == Positions(records, t)
  {
    forall i | 0 <= i < |spans| ensures lines[spans[i].open] == code <==> records[i].shape == t {
      assert Spells(lines[spans[i].open], records[i].shape);
      SpellsIsTypeOf(lines[spans[i].open], records[i].shape);
      SpellsIsTypeOf(code, t);
    }
  }

  lemma ReferredAreBounding(lines: seq<string>, spans: seq<Span>, records: seq<Record>)
    requires InLines(lines, spans) && ReadOff(lines, spans, records)
    ensures ReferredBySolids(lines, spans) == Bounding(records)
  {
    OpenedArePositions(lines, spans, records, "So", Solid);
    forall i | 0 <= i < |spans| ensures lines[spans[i].open] == "So" <==> OfType(records, i, Solid) {
      assert i in OpenedBy(lines, spans, "So") <==> i in Positions(records, Solid);
    }
  }

  lemma CountOfOpened(t: Topology, lines: seq<string>, spans: seq<Span>, records: seq<Record>, code: string, k: ShapeType)
    requires InLines(lines, spans) && ReadOff(lines, spans, records)
    requires Describes(t, records) && Spells(code, k)
    ensures CountIs(t.counts, k, |OpenedBy(lines, spans, code)|)
  {
    OpenedArePositions(lines, spans, records, code, k);
    assert CountOk(t.counts, records, k);
  }

  lemma DescriptionAnswers(t: Topology, lines: seq<string>, spans: seq<Span>, records: seq<Record>)
    requires InLines(lines, spans) && ReadOff(lines, spans, records)
    requires Describes(t, records)
    ensures Answers(t, lines, spans)
  {
    CountOfOpened(t, lines, spans, records, "Ve", Vertex);
    CountOfOpened(t, lines, spans, records, "Ed", Edge);
    CountOfOpened(t, lines, spans, records, "Wi", Wire);
    CountOfOpened(t, lines, spans, records, "Fa", Face);
    CountOfOpened(t, lines, spans, records, "Sh", Shell);
    CountOfOpened(t, lines, spans, records, "So", Solid);
    CountOfOpened(t, lines, spans, records, "CS", CompSolid);
    CountOfOpened(t, lines, spans, records, "Co", Compound);
    OpenedArePositions(lines, spans, records, "Sh", Shell);
    ReferredAreBounding(lines, spans, records);
  }

  predicate StandsEarly(marker: string, data: string, i: nat) {
    i + |marker| <= |data| && i + |marker| <= 128 && data[i..i + |marker|] == marker
  }

  /** One of the two markers in the first 128 bytes. */
  lemma MarkersAreLookedFor(data: string)
    ensures LooksLikeBrep(data) <==>
              (exists i :: StandsEarly("CASCADE Topology", data, i)) || (exists i :: StandsEarly("DBRep_DrawableShape", data, i))
  {
    MarkerIsEarly("CASCADE Topology", data);
    MarkerIsEarly("DBRep_DrawableShape", data);
  }

  lemma MarkerIsEarly(marker: string, data: string)
    ensures Occurs(marker, if |data| > MAGIC_WINDOW then data[..MAGIC_WINDOW] else data) <==> exists i :: StandsEarly(marker, data, i)
  {
    var head := if |data| > MAGIC_WINDOW then data[..MAGIC_WINDOW] else data;
    forall i: nat ensures OccursAt(marker, head, i) <==> StandsEarly(marker, data, i) {
      if i + |marker| <= |head| { assert head[i..i + |marker|] == data[i..i + |marker|]; }
    }
    if i :| StandsEarly(marker, data, i) { assert OccursAt(marker, head, i); }
  }

  /** None means that nothing was read; anything else describes the records. */
  method TopologyOf(plain: Option<string>) returns (r: Option<Topology>)
    ensures r.Some? <==> plain.Some? && LooksLikeBrep(plain.value) && RecordsOf(plain.value).Some?
    ensures r.Some? ==> Describes(r.value, RecordsOf(plain.value).value)
    // And line by line: it is read exactly if it scans, whichever the records.
    ensures r.Some? <==> plain.Some? && LooksLikeBrep(plain.value) && exists start: nat, spans: seq<Span> :: Scanned(plain.value, start, spans)
    ensures r.Some? ==> forall start: nat, spans: seq<Span> | Scanned(plain.value, start, spans) ::
              AnswersScan(r.value, plain.value, start, spans)
  {
    if plain.None? || !LooksLikeBrep(plain.value) { return None; }
    var records := Records(plain.value);
    if records.None? {
      forall start: nat, spans: seq<Span> ensures !Scanned(plain.value, start, spans) {
        if Scanned(plain.value, start, spans) { var taken := ScannedRecords(plain.value, start, spans); }
      }
      return None;
    }
    ghost var start, spans := RecordsAreScanned(plain.value);
    var counts, root, bounding := Tally(records.value);
    assert CountOk(counts, records.value, Shell);
    var shells := if Shell in counts then counts[Shell] else 0;
    var free: nat := if shells > |bounding| then shells - |bounding| else 0;
    r := Some(Topology(counts, root, free));
    forall start: nat, spans: seq<Span> | Scanned(plain.value, start, spans)
      ensures AnswersScan(r.value, plain.value, start, spans)
    {
      var taken := ScannedRecords(plain.value, start, spans);
      DescriptionAnswers(r.value, Lines(plain.value[start..]), spans, taken);
    }
  }

  // ---- writing a payload, and reading it back ----

  /** A reference as the writer has it: an orientation, an index, a location. */
  datatype Sub = Sub(forward: bool, index: nat, location: nat)

  datatype Shape = Shape(shape: ShapeType, geometry: seq<string>, subs: seq<Sub>)

  function CodeOf(t: ShapeType): (code: string)
    ensures TypeOf(code) == Some(t) && |code| == 2 && 'A' <= code[0] <= 'Z' && 'A' <= code[1] <= 'z'
  {
    match t
    case Vertex => "Ve"
    case Edge => "Ed"
    case Wire => "Wi"
    case Face => "Fa"
    case Shell => "Sh"
    case Solid => "So"
    case CompSolid => "CS"
    case Compound => "Co"
  }

  function Decimal(n: nat): (s: string)
    ensures s != "" && forall i | 0 <= i < |s| :: IsDigit(s[i])
  {
    var last := ('0' as int + n % 10) as char;
    if n < 10 then [last] else Decimal(n / 10) + [last]
  }

  function PrintSub(sub: Sub): string {
    [if sub.forward then '+' else '-'] + Decimal(sub.index) + " " + Decimal(sub.location) + " "
  }

  function PrintSubs(subs: seq<Sub>): string {
    if subs == [] then "*" else PrintSub(subs[0]) + PrintSubs(subs[1..])
  }

  function ShapeLines(shape: Shape): seq<string> {
    [CodeOf(shape.shape)] + shape.geometry + [PrintSubs(shape.subs)]
  }

  function AllLines(shapes: seq<Shape>): seq<string> {
    if shapes == [] then [] else ShapeLines(shapes[0]) + AllLines(shapes[1..])
  }

  function Text(lines: seq<string>): string {
    if lines == [] then "" else lines[0] + "\n" + Text(lines[1..])
  }

  function Header(n: nat): string { TSHAPES + Decimal(n) }

  function Section(shapes: seq<Shape>, after: string): string {
    Text([Header(|shapes|)] + AllLines(shapes)) + after
  }

  /** A payload: what comes before the section, the section, what comes after it. */
  function Print(before: string, shapes: seq<Shape>, after: string): string {
    before + Section(shapes, after)
  }

  /** The first section: it says what the payload is, ends its last line, and no line of
      it reads like the header. */
  predicate Opening(before: string) {
    && before != "" && before[|before|-1] == '\n' && LooksLikeBrep(before)
    && FirstHeader(before, 0).None?
  }

  predicate Geometry(line: string) { '\n' !in line && !Closes(Strip(line)) }

  predicate Printable(shape: Shape) { forall i | 0 <= i < |shape.geometry| :: Geometry(shape.geometry[i]) }

  function RecordOf(shape: Shape): Record { Record(shape.shape, PrintSubs(shape.subs)) }

  function RecordsPrinted(shapes: seq<Shape>): (r: seq<Record>)
    ensures |r| == |shapes| && forall i | 0 <= i < |r| :: r[i] == RecordOf(shapes[i])
  {
    seq(|shapes|, i requires 0 <= i < |shapes| => RecordOf(shapes[i]))
  }

  function Indices(subs: seq<Sub>): (r: seq<nat>)
    ensures |r| == |subs| && forall i | 0 <= i < |r| :: r[i] == subs[i].index
  {
    seq(|subs|, i requires 0 <= i < |subs| => subs[i].index)
  }

  function Stripped(lines: seq<string>): (r: seq<string>)
    ensures |r| == |lines| && forall i | 0 <= i < |r| :: r[i] == Strip(lines[i])
  {
    seq(|lines|, i requires 0 <= i < |lines| => Strip(lines[i]))
  }

  lemma {:induction false} NumberOfDecimal(n: nat)
    ensures Number(Decimal(n)) == Some(n)
  {
    var s := Decimal(n);
    if n >= 10 {
      NumberOfDecimal(n / 10);
      assert s[..|s| - 1] == Decimal(n / 10);
      assert IsDigit(s[|s| - 2]);
    }
  }

  lemma NothingToStrip(s: string)
    requires s != "" ==> !Space(s[0]) && !Space(s[|s|-1])
    ensures Strip(s) == s
  {}

  /** What has no sign in it is passed over. */
  lemma {:induction false} PassedOver(plain: string, text: string)
    requires forall i | 0 <= i < |plain| :: plain[i] != '+' && plain[i] != '-'
    ensures References(plain + text) == References(text)
  {
    if plain == "" {
      assert plain + text == text;
    } else {
      assert (plain + text)[1..] == plain[1..] + text;
      PassedOver(plain[1..], text);
    }
  }

  lemma RunEndsAt(text: string, i: nat, e: nat)
    requires i <= e < |text| && (forall j | i <= j < e :: IsDigit(text[j])) && !IsDigit(text[e])
    ensures DigitRun(text, i) == e
  {}

  lemma ReadsSub(sub: Sub, text: string)
    ensures References(PrintSub(sub) + text) == [sub.index] + References(text)
  {
    var digits, plain := Decimal(sub.index), " " + Decimal(sub.location) + " ";
    var all := PrintSub(sub) + text;
    var e := 1 + |digits|;
    assert all[1..e] == digits;
    assert forall j | 1 <= j < e :: IsDigit(all[j]) by {
      forall j | 1 <= j < e ensures IsDigit(all[j]) { assert all[j] == digits[j - 1]; }
    }
    RunEndsAt(all, 1, e);
    NumberOfDecimal(sub.index);
    assert all[e..] == plain + text;
    PassedOver(plain, text);
  }

  lemma {:induction false} ReadsSubs(subs: seq<Sub>)
    ensures References(PrintSubs(subs)) == Indices(subs)
  {
    if subs != [] {
      ReadsSub(subs[0], PrintSubs(subs[1..]));
      ReadsSubs(subs[1..]);
      assert Indices(subs) == [subs[0].index] + Indices(subs[1..]);
    }
  }

  lemma {:induction false} SubsLine(subs: seq<Sub>)
    ensures var line := PrintSubs(subs);
            Closes(line) && !Space(line[0]) && '\n' !in line
  {
    if subs != [] {
      SubsLine(subs[1..]);
      var sub := PrintSub(subs[0]);
      forall i | 0 <= i < |sub| ensures sub[i] != '\n' {}
    }
  }

  lemma FirstLine(line: string, rest: string)
    requires '\n' !in line
    ensures Lines(line + "\n" + rest) == [Strip(line)] + Lines(rest)
  {
    var data := line + "\n" + rest;
    LineEndsAt(data, |line|);
    assert data[..|line|] == line && data[|line| + 1..] == rest;
  }

  lemma Regrouped(a: string, b: string, c: string)
    ensures a + b + c == a + (b + c)
  {}

  lemma StrippedOneByOne(lines: seq<string>, rest: seq<string>)
    requires lines != []
    ensures Stripped(lines) + rest == [Strip(lines[0])] + (Stripped(lines[1..]) + rest)
  {
    assert Stripped(lines) == [Strip(lines[0])] + Stripped(lines[1..]);
  }

  lemma {:induction false} LinesOfText(lines: seq<string>, rest: string)
    requires forall i | 0 <= i < |lines| :: '\n' !in lines[i]
    ensures Lines(Text(lines) + rest) == Stripped(lines) + Lines(rest)
  {
    if lines == [] {
      assert Text(lines) + rest == rest;
    } else {
      var more := Text(lines[1..]);
      LinesOfText(lines[1..], rest);
      FirstLine(lines[0], more + rest);
      Regrouped(lines[0] + "\n", more, rest);
      StrippedOneByOne(lines, Lines(rest));
    }
  }

  lemma {:induction false} GeometryIsSkipped(t: ShapeType, geometry: seq<string>, line: string, rest: seq<string>)
    requires forall i | 0 <= i < |geometry| :: Geometry(geometry[i])
    requires Closes(line)
    ensures CloseRecord(t, Stripped(geometry) + [line] + rest) == Some((Record(t, line), rest))
  {
    var lines := Stripped(geometry) + [line] + rest;
    if geometry == [] {
      assert lines[1..] == rest;
    } else {
      GeometryIsSkipped(t, geometry[1..], line, rest);
      assert lines[1..] == Stripped(geometry[1..]) + [line] + rest;
    }
  }

  lemma ShapeIsTaken(shape: Shape, rest: seq<string>)
    requires Printable(shape)
    ensures TakeRecord(Stripped(ShapeLines(shape)) + rest) == Some((RecordOf(shape), rest))
  {
    var code, line := CodeOf(shape.shape), PrintSubs(shape.subs);
    SubsLine(shape.subs);
    NothingToStrip(code);
    NothingToStrip(line);
    var lines := Stripped(ShapeLines(shape)) + rest;
    assert lines[1..] == Stripped(shape.geometry) + [line] + rest;
    GeometryIsSkipped(shape.shape, shape.geometry, line, rest);
  }

  lemma StrippedTogether(a: seq<string>, b: seq<string>)
    ensures Stripped(a + b) == Stripped(a) + Stripped(b)
  {
    var both := Stripped(a) + Stripped(b);
    forall i | 0 <= i < |a| + |b| ensures Strip((a + b)[i]) == both[i] {}
  }

  lemma RegroupedLines(a: seq<string>, b: seq<string>, c: seq<string>)
    ensures a + b + c == a + (b + c)
  {}

  lemma LinesByShape(shapes: seq<Shape>, rest: seq<string>)
    requires shapes != []
    ensures Stripped(AllLines(shapes)) + rest == Stripped(ShapeLines(shapes[0])) + (Stripped(AllLines(shapes[1..])) + rest)
  {
    var first, others := ShapeLines(shapes[0]), AllLines(shapes[1..]);
    StrippedTogether(first, others);
    RegroupedLines(Stripped(first), Stripped(others), rest);
  }

  lemma {:induction false} ShapesAreTaken(shapes: seq<Shape>, rest: seq<string>)
    requires forall i | 0 <= i < |shapes| :: Printable(shapes[i])
    ensures TakeRecords(Stripped(AllLines(shapes)) + rest, |shapes|) == Some(RecordsPrinted(shapes))
  {
    if shapes != [] {
      var more := Stripped(AllLines(shapes[1..])) + rest;
      LinesByShape(shapes, rest);
      ShapeIsTaken(shapes[0], more);
      ShapesAreTaken(shapes[1..], rest);
      FirstRecordPrinted(shapes);
    }
  }

  lemma FirstRecordPrinted(shapes: seq<Shape>)
    requires shapes != []
    ensures RecordsPrinted(shapes) == [RecordOf(shapes[0])] + RecordsPrinted(shapes[1..])
  {}

  lemma {:induction false} LinesHaveNoNewline(shapes: seq<Shape>)
    requires forall i | 0 <= i < |shapes| :: Printable(shapes[i])
    ensures forall i | 0 <= i < |AllLines(shapes)| :: '\n' !in AllLines(shapes)[i]
  {
    if shapes != [] {
      LinesHaveNoNewline(shapes[1..]);
      SubsLine(shapes[0].subs);
      assert Printable(shapes[0]);
      var lines := ShapeLines(shapes[0]);
      forall i | 0 <= i < |lines| ensures '\n' !in lines[i] {
        if 0 < i < |lines| - 1 { assert Geometry(shapes[0].geometry[i - 1]); }
      }
    }
  }

  lemma HeaderReadsBack(n: nat)
    ensures '\n' !in Header(n) && Int(Tail(Strip(Header(n)))) == Some(n)
  {
    var digits, header := Decimal(n), Header(n);
    forall i | 0 <= i < |header| ensures header[i] != '\n' {
      if i >= |TSHAPES| { assert header[i] == digits[i - |TSHAPES|]; }
    }
    assert header[|header|-1] == digits[|digits|-1];
    NothingToStrip(header);
    assert Tail(header) == digits;
    assert IsDigit(digits[0]);
    NothingToStrip(digits);
    NumberOfDecimal(n);
  }

  lemma NoNewlineInHeader(data: string, i: nat, j: nat)
    requires HeaderAt(data, i) && i <= j < i + |TSHAPES|
    ensures data[j] != '\n'
  {
    assert data[j] == TSHAPES[j - i];
  }

  lemma NotBefore(before: string, section: string, i: nat)
    requires Opening(before) && i < |before|
    ensures !HeaderAt(before + section, i)
  {
    var data, b := before + section, |before|;
    if HeaderAt(data, i) {
      if i + |TSHAPES| <= b {
        assert before[i..i + |TSHAPES|] == data[i..i + |TSHAPES|];
        assert HeaderAt(before, i);
      } else {
        NoNewlineInHeader(data, i, b - 1);
      }
    }
  }

  lemma HeaderHere(before: string, section: string)
    requires before != "" && before[|before|-1] == '\n' && |TSHAPES| <= |section| && section[..|TSHAPES|] == TSHAPES
    ensures HeaderAt(before + section, |before|)
  {
    var data, b := before + section, |before|;
    assert data[b..b + |TSHAPES|] == section[..|TSHAPES|];
    assert data[b - 1] == before[b - 1];
  }

  /** The header is found where it was written: it has no newline in it, so none can
      begin in the first section and reach out of it. */
  lemma HeaderIsFound(before: string, section: string)
    requires Opening(before) && |TSHAPES| <= |section| && section[..|TSHAPES|] == TSHAPES
    ensures FirstHeader(before + section, 0) == Some(|before|)
  {
    HeaderHere(before, section);
    forall i | 0 <= i < |before| ensures !HeaderAt(before + section, i) { NotBefore(before, section, i); }
    FirstIsFirst(before + section, |before|);
  }

  lemma FirstIsFirst(data: string, b: nat)
    requires HeaderAt(data, b) && forall i | 0 <= i < b :: !HeaderAt(data, i)
    ensures FirstHeader(data, 0) == Some(b)
  {}

  lemma OccursFurther(marker: string, head: string, more: string)
    requires Occurs(marker, head)
    ensures Occurs(marker, head + more)
  {
    var i :| 0 <= i <= |head| && OccursAt(marker, head, i);
    assert (head + more)[i..i + |marker|] == head[i..i + |marker|];
    assert OccursAt(marker, head + more, i);
  }

  lemma MarkerStays(before: string, more: string)
    requires LooksLikeBrep(before)
    ensures LooksLikeBrep(before + more)
  {
    var data := before + more;
    var head := if |before| > MAGIC_WINDOW then before[..MAGIC_WINDOW] else before;
    var head' := if |data| > MAGIC_WINDOW then data[..MAGIC_WINDOW] else data;
    assert head' == head + head'[|head|..];
    if Occurs(MAGIC[0], head) { OccursFurther(MAGIC[0], head, head'[|head|..]); }
    if Occurs(MAGIC[1], head) { OccursFurther(MAGIC[1], head, head'[|head|..]); }
  }

  lemma SectionReadsBack(shapes: seq<Shape>, after: string)
    requires forall i | 0 <= i < |shapes| :: Printable(shapes[i])
    ensures Lines(Section(shapes, after)) == [Strip(Header(|shapes|))] + (Stripped(AllLines(shapes)) + Lines(after))
  {
    var lines := [Header(|shapes|)] + AllLines(shapes);
    HeaderReadsBack(|shapes|);
    LinesHaveNoNewline(shapes);
    LinesOfText(lines, after);
    StrippedOneByOne(lines, Lines(after));
    assert lines[1..] == AllLines(shapes);
  }

  lemma SectionOpensWithHeader(shapes: seq<Shape>, after: string)
    ensures |TSHAPES| <= |Section(shapes, after)| && Section(shapes, after)[..|TSHAPES|] == TSHAPES
  {
    var lines := [Header(|shapes|)] + AllLines(shapes);
    var more := "\n" + Text(lines[1..]) + after;
    assert Section(shapes, after) == Header(|shapes|) + more;
    assert Header(|shapes|)[..|TSHAPES|] == TSHAPES;
  }

  /** Scanning what was written yields exactly the records written. */
  lemma ReadsBack(before: string, shapes: seq<Shape>, after: string)
    requires Opening(before) && forall i | 0 <= i < |shapes| :: Printable(shapes[i])
    ensures LooksLikeBrep(Print(before, shapes, after))
    ensures RecordsOf(Print(before, shapes, after)) == Some(RecordsPrinted(shapes))
  {
    var section := Section(shapes, after);
    MarkerStays(before, section);
    SectionOpensWithHeader(shapes, after);
    HeaderIsFound(before, section);
    assert (before + section)[|before|..] == section;
    SectionReadsBack(shapes, after);
    assert Lines(section)[1..] == Stripped(AllLines(shapes)) + Lines(after);
    HeaderReadsBack(|shapes|);
    ShapesAreTaken(shapes, Lines(after));
  }

  // ---- free shells, without resolving an index ----

  predicate IsType(shapes: seq<Shape>, i: nat, t: ShapeType) {
    i < |shapes| && shapes[i].shape == t
  }

  predicate Refers(shapes: seq<Shape>, i: nat, n: nat) {
    i < |shapes| && n in Indices(shapes[i].subs)
  }

  /** `number[i]` is the index by which the i-th record is referred to: any numbering
      that gives no two records one number, from whichever end it counts. */
  predicate Numbering(shapes: seq<Shape>, number: seq<nat>) {
    |number| == |shapes| && forall i, j | 0 <= i < j < |number| :: number[i] != number[j]
  }

  /** OCCT's rule: a solid is made of shells and of nothing else. */
  ghost predicate SolidsAreMadeOfShells(shapes: seq<Shape>, number: seq<nat>)
    requires |number| == |shapes|
  {
    forall i: nat, n: nat | IsType(shapes, i, Solid) && n in Indices(shapes[i].subs) :: exists j: nat :: IsType(shapes, j, Shell) && number[j] == n
  }

  predicate Owned(shapes: seq<Shape>, number: seq<nat>, j: nat)
    requires |number| == |shapes| && j < |shapes|
  {
    exists i | 0 <= i < |shapes| :: IsType(shapes, i, Solid) && Refers(shapes, i, number[j])
  }

  function OfShapeType(shapes: seq<Shape>, k: ShapeType): set<nat> {
    set j | 0 <= j < |shapes| && IsType(shapes, j, k)
  }

  function OwnedShells(shapes: seq<Shape>, number: seq<nat>): set<nat>
    requires |number| == |shapes|
  {
    set j | j in OfShapeType(shapes, Shell) && Owned(shapes, number, j)
  }

  function Numbers(number: seq<nat>, js: set<nat>): set<nat>
    requires forall j | j in js :: j < |number|
  {
    set j | j in js :: number[j]
  }

  lemma {:induction false} DistinctNumbers(number: seq<nat>, js: set<nat>)
    requires (forall j | j in js :: j < |number|) && forall i, j | 0 <= i < j < |number| :: number[i] != number[j]
    ensures |Numbers(number, js)| == |js|
    decreases |js|
  {
    if js == {} {
      assert Numbers(number, js) == {};
    } else {
      var j :| j in js;
      DistinctNumbers(number, js - {j});
      assert Numbers(number, js) == Numbers(number, js - {j}) + {number[j]};
    }
  }

  lemma WhatASolidRefersTo(shapes: seq<Shape>, i: nat, n: nat)
    requires i < |shapes|
    ensures n in References(RecordsPrinted(shapes)[i].references) <==> Refers(shapes, i, n)
  {
    ReadsSubs(shapes[i].subs);
  }

  lemma BoundingIsOwned(shapes: seq<Shape>, number: seq<nat>, n: nat)
    requires Numbering(shapes, number) && SolidsAreMadeOfShells(shapes, number) && n in Bounding(RecordsPrinted(shapes))
    ensures n in Numbers(number, OwnedShells(shapes, number))
  {
    var records := RecordsPrinted(shapes);
    var i :| 0 <= i < |records| && OfType(records, i, Solid) && n in References(records[i].references);
    WhatASolidRefersTo(shapes, i, n);
    ReferredIsOwned(shapes, number, i, n);
  }

  lemma ReferredIsOwned(shapes: seq<Shape>, number: seq<nat>, i: nat, n: nat)
    requires Numbering(shapes, number) && SolidsAreMadeOfShells(shapes, number)
    requires IsType(shapes, i, Solid) && Refers(shapes, i, n)
    ensures n in Numbers(number, OwnedShells(shapes, number))
  {
    var j: nat :| IsType(shapes, j, Shell) && number[j] == n;
    assert j in OwnedShells(shapes, number);
  }

  lemma OwnedIsBounding(shapes: seq<Shape>, number: seq<nat>, n: nat)
    requires Numbering(shapes, number) && n in Numbers(number, OwnedShells(shapes, number))
    ensures n in Bounding(RecordsPrinted(shapes))
  {
    var j :| j in OwnedShells(shapes, number) && number[j] == n;
    var i :| 0 <= i < |shapes| && IsType(shapes, i, Solid) && Refers(shapes, i, number[j]);
    WhatASolidRefersTo(shapes, i, n);
    assert OfType(RecordsPrinted(shapes), i, Solid);
  }

  lemma SamePositions(shapes: seq<Shape>, k: ShapeType)
    ensures Positions(RecordsPrinted(shapes), k) == OfShapeType(shapes, k)
  {}

  lemma BoundingAreOwned(shapes: seq<Shape>, number: seq<nat>)
    requires Numbering(shapes, number) && SolidsAreMadeOfShells(shapes, number)
    ensures Bounding(RecordsPrinted(shapes)) == Numbers(number, OwnedShells(shapes, number))
  {
    var owned := OwnedShells(shapes, number);
    forall n | n in Bounding(RecordsPrinted(shapes)) ensures n in Numbers(number, owned) { BoundingIsOwned(shapes, number, n); }
    forall n | n in Numbers(number, owned) ensures n in Bounding(RecordsPrinted(shapes)) { OwnedIsBounding(shapes, number, n); }
  }

  lemma FreeAreUnowned(shapes: seq<Shape>, number: seq<nat>)
    requires Numbering(shapes, number) && SolidsAreMadeOfShells(shapes, number)
    ensures |OfShapeType(shapes, Shell)| - |Bounding(RecordsPrinted(shapes))| == |OfShapeType(shapes, Shell) - OwnedShells(shapes, number)|
  {
    var owned, shells := OwnedShells(shapes, number), OfShapeType(shapes, Shell);
    BoundingAreOwned(shapes, number);
    DistinctNumbers(number, owned);
    assert shells == owned + (shells - owned);
  }

  predicate CountedRight(t: Topology, shapes: seq<Shape>, k: ShapeType) {
    if k in t.counts then t.counts[k] == |OfShapeType(shapes, k)| > 0 else OfShapeType(shapes, k) == {}
  }

  lemma CountsPrinted(shapes: seq<Shape>, t: Topology, k: ShapeType)
    requires Describes(t, RecordsPrinted(shapes))
    ensures CountedRight(t, shapes, k)
  {
    SamePositions(shapes, k);
    assert CountOk(t.counts, RecordsPrinted(shapes), k);
  }

  lemma DescribesPrinted(shapes: seq<Shape>, number: seq<nat>, t: Topology)
    requires Numbering(shapes, number) && SolidsAreMadeOfShells(shapes, number)
    requires Describes(t, RecordsPrinted(shapes))
    ensures t.freeShells == |OfShapeType(shapes, Shell) - OwnedShells(shapes, number)|
    ensures t.root == if shapes == [] then None else Some(shapes[|shapes|-1].shape)
    ensures forall k :: CountedRight(t, shapes, k)
  {
    SamePositions(shapes, Shell);
    FreeAreUnowned(shapes, number);
    assert shapes != [] ==> RecordsPrinted(shapes)[|shapes|-1] == RecordOf(shapes[|shapes|-1]);
    forall k ensures CountedRight(t, shapes, k) { CountsPrinted(shapes, t, k); }
  }

  /** The payload of any shapes reads as their counts and their last one's type, and its
      free shells are the shells that no solid is made of - for every numbering. */
  lemma FreeShellsAreUnownedShells(before: string, shapes: seq<Shape>, after: string, number: seq<nat>, t: Topology)
    requires Opening(before) && forall i | 0 <= i < |shapes| :: Printable(shapes[i])
    requires Numbering(shapes, number) && SolidsAreMadeOfShells(shapes, number)
    ensures RecordsOf(Print(before, shapes, after)).Some?
    ensures Describes(t, RecordsOf(Print(before, shapes, after)).value) ==>
              && t.freeShells == |OfShapeType(shapes, Shell) - OwnedShells(shapes, number)|
              && t.root == (if shapes == [] then None else Some(shapes[|shapes|-1].shape))
              && forall k :: CountedRight(t, shapes, k)
  {
    ReadsBack(before, shapes, after);
    if Describes(t, RecordsPrinted(shapes)) { DescribesPrinted(shapes, number, t); }
  }

  // ---- lines, blanks, numbers and references ----

  /** A blank is a space, a tab, a newline, a return, a vertical tab or a form feed. */
  predicate Blank(s: string) { forall i | 0 <= i < |s| :: s[i] as int in {9, 10, 11, 12, 13, 32} }

  lemma {:induction false} LeftOf(s: string) returns (k: nat)
    ensures k <= |s| && Blank(s[..k]) && StripLeft(s) == s[k..] && (k < |s| ==> !Blank([s[k]]))
  {
    if s == "" || !Space(s[0]) {
      k := 0;
      if s != "" { assert [s[0]][0] == s[0]; }
    } else {
      var n := LeftOf(s[1..]);
      k := n + 1;
      assert s[1..][..n] == s[1..k] && s[1..][n..] == s[k..];
      forall i | 0 <= i < k ensures s[i] as int in {9, 10, 11, 12, 13, 32} {
        if i > 0 { assert s[1..][..n][i - 1] == s[i]; }
      }
    }
  }

  lemma {:induction false} RightOf(s: string) returns (k: nat)
    ensures k <= |s| && Blank(s[k..]) && StripRight(s) == s[..k] && (k > 0 ==> !Blank([s[k - 1]]))
  {
    var n := |s|;
    if s == "" || !Space(s[n - 1]) {
      k := n;
      if s != "" { assert [s[n - 1]][0] == s[n - 1]; }
    } else {
      k := RightOf(s[..n - 1]);
      assert s[..n - 1][..k] == s[..k];
      forall i | k <= i < n ensures s[i] as int in {9, 10, 11, 12, 13, 32} {
        if i < n - 1 { assert s[..n - 1][k..][i - k] == s[i]; }
      }
    }
  }

  /** What is stripped: the blanks at both ends, all of them and nothing else. */
  lemma StripTakesBlanks(s: string) returns (left: string, right: string)
    ensures s == left + Strip(s) + right && Blank(left) && Blank(right)
    ensures Strip(s) != "" ==> !Blank([Strip(s)[0]]) && !Blank([Strip(s)[|Strip(s)|-1]])
  {
    var i := LeftOf(s);
    var rest := s[i..];
    var j := RightOf(rest);
    left, right := s[..i], rest[j..];
    assert rest == rest[..j] + rest[j..] && s == left + rest;
  }

  /** A text is cut at each newline, and nothing follows the last one. */
  lemma LinesAreCut(line: string, rest: string)
    requires '\n' !in line
    ensures Lines("") == [] && Lines(line + "\n" + rest) == [Strip(line)] + Lines(rest)
    ensures line != "" ==> Lines(line) == [Strip(line)]
  {
    FirstLine(line, rest);
    LineEndsAt(line, |line|);
  }

  // Numbers are decimal, the highest digit first, single underscores between digits allowed.

  predicate Ends09(s: string) { s != "" && '0' <= s[|s|-1] <= '9' }

  lemma OneDigit(c: char)
    requires '0' <= c <= '9'
    ensures Number([c]) == Some(c as int - '0' as int)
  {}

  lemma OneMoreDigit(s: string, c: char)
    requires Ends09(s) && '0' <= c <= '9'
    ensures Number(s + [c]) == (match Number(s) case None => None case Some(v) => Some(10 * v + (c as int - '0' as int)))
  {
    assert (s + [c])[..|s|] == s;
  }

  lemma UnderscoreWithin(s: string, c: char)
    requires Ends09(s) && '0' <= c <= '9'
    ensures Number(s + ['_', c]) == Number(s + [c])
  {
    var t := s + ['_', c];
    assert t[..|t| - 2] == s && t[|t| - 2] == '_';
    OneMoreDigit(s, c);
  }

  lemma UnderscoreElsewhere(s: string, c: char)
    ensures Number("") == None && Number(s + ['_']) == None && Number(['_', c]) == None && Number(s + ['_', '_', c]) == None
  {
    assert ['_', c][..0] == "";
    var t := s + ['_', '_', c];
    assert t[|t| - 2] == '_' && t[..|t| - 2] == s + ['_'];
  }

  /** A sign before a number, or none. */
  lemma SignedNumbers(s: string, v: nat)
    requires Ends09(s) && '0' <= s[0] <= '9' && Number(s) == Some(v)
    ensures var minus: int := 0 - v; Int(s) == Some(v) && Int(['+'] + s) == Some(v) && Int(['-'] + s) == Some(minus)
  {
    NothingToStrip(s);
    NothingToStrip(['+'] + s);
    NothingToStrip(['-'] + s);
    assert (['+'] + s)[1..] == s && (['-'] + s)[1..] == s;
  }

  /** A reference is a sign and the digits after it, as many as there are; what has no sign
      in it, or a sign with no digit after it, is passed over. */
  lemma ReferencesAreSignedNumbers(plain: string, sign: char, digits: string, rest: string)
    requires (forall i | 0 <= i < |plain| :: plain[i] != '+' && plain[i] != '-') && (sign == '+' || sign == '-')
    requires digits != "" && (forall i | 0 <= i < |digits| :: '0' <= digits[i] <= '9') && (rest == "" || !('0' <= rest[0] <= '9'))
    ensures References("") == [] && References(plain + rest) == References(rest) && References([sign] + rest) == References(rest)
    ensures Number(digits).Some? && References(plain + ([sign] + (digits + rest))) == [Number(digits).value] + References(rest)
  {
    PassedOver(plain, rest);
    PassedOver(plain, [sign] + (digits + rest));
    SignedDigits(sign, digits, rest);
    assert ([sign] + rest)[1..] == rest;
  }

  lemma SignedDigits(sign: char, digits: string, rest: string)
    requires (sign == '+' || sign == '-') && digits != "" && (forall i | 0 <= i < |digits| :: IsDigit(digits[i]))
    requires rest == "" || !IsDigit(rest[0])
    ensures Number(digits).Some? && References([sign] + (digits + rest)) == [Number(digits).value] + References(rest)
  {
    var all, e := [sign] + (digits + rest), 1 + |digits|;
    assert all[1..e] == digits && all[e..] == rest;
    forall j | 1 <= j < e ensures IsDigit(all[j]) { assert all[j] == digits[j - 1]; }
    DigitsEndAt(all, e);
  }

  lemma DigitsEndAt(all: string, e: nat)
    requires 1 <= e <= |all| && (forall j | 1 <= j < e :: IsDigit(all[j])) && (e < |all| ==> !IsDigit(all[e]))
    ensures DigitRun(all, 1) == e
  {}
}
