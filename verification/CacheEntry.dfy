/** What the shape cache stores for a value, and reading it back
    (src/partcad/cache_shape.py: _serialize, _deserialize; src/partcad/shape_envelope.py:
    metadata_of, strip_metadata, encode, decode).

    A character stands for a byte.  JSON and base64 are parameters with the laws that are
    used of them; failing, in any way, is None. */
module CacheEntry {
  import opened Wrappers

  type Bytes = string

  /** Data as the core holds it: a dictionary is its fields in order, a number stands by
      the number of its bits.  `Other` is whatever the codec refuses. */
  datatype Value =
    | Null
    | Flag(b: bool)
    | Number(n: int)
    | Text(s: string)
    | Binary(data: Bytes)
    | List(items: seq<Value>)
    | Dict(fields: seq<Field>)
    | Other

  datatype Field = Field(key: string, value: Value)

  const KEY_BREP := "brep"
  const KEY_ASSEMBLY := "assembly"
  const KEY_BYTES := "__bytes__"
  const KEY_METADATA := "metadata"

  /** `dumps` and `loads` are JSON, `b64` and `unb64` base64. */
  datatype Codec = Codec(dumps: Value -> Bytes, loads: Bytes -> Option<Value>, b64: Bytes -> string, unb64: string -> Option<Bytes>)

  /** Made of what JSON has. */
  predicate Native(v: Value) {
    match v
    case Binary(_) => false
    case Other => false
    case List(items) => forall i | 0 <= i < |items| :: Native(items[i])
    case Dict(fields) => forall i | 0 <= i < |fields| :: Native(fields[i].value)
    case _ => true
  }

  function BrepOnly(value: Value): Value { Dict([Field(KEY_BREP, value)]) }

  /** What is used of JSON and base64: each undoes itself; a JSON text is not empty and
      begins with no letter of a magic; and it is longer than any payload in it. */
  ghost predicate Lawful(c: Codec) {
    && (forall v | Native(v) :: c.loads(c.dumps(v)) == Some(v))
    && (forall text :: c.loads(text).Some? ==> Native(c.loads(text).value))
    && (forall b: Bytes :: c.unb64(c.b64(b)) == Some(b))
    && (forall v | Native(v) :: c.dumps(v) != "" && c.dumps(v)[0] !in {'P', 'C', 'D', '('})
    && (forall text, s | c.loads(text) == Some(BrepOnly(Text(s))) && c.unb64(s).Some? :: |c.unb64(s).value| < |text|)
  }

  // ---- fields ----

  predicate Has(fields: seq<Field>, key: string) { exists i | 0 <= i < |fields| :: fields[i].key == key }

  function Get(fields: seq<Field>, key: string): Option<Value> {
    if fields == [] then None else if fields[0].key == key then Some(fields[0].value) else Get(fields[1..], key)
  }

  function Without(fields: seq<Field>, key: string): seq<Field> {
    if fields == [] then []
    else (if fields[0].key == key then [] else [fields[0]]) + Without(fields[1..], key)
  }

  predicate IsEnvelope(fields: seq<Field>) { Has(fields, KEY_BREP) || Has(fields, KEY_ASSEMBLY) }

  /** A dictionary that stands for bytes. */
  predicate IsBytes(fields: seq<Field>) { |fields| == 1 && fields[0].key == KEY_BYTES }

  // ---- into JSON's terms and out of them ----

  function Encode(c: Codec, v: Value): Option<Value>
    decreases v
  {
    match v
    case Binary(b) => Some(Dict([Field(KEY_BYTES, Text(c.b64(b)))]))
    case Other => None
    case List(items) =>
      (match EncodeAll(c, items) case None => None case Some(es) => Some(List(es)))
    case Dict(fields) =>
      (match EncodeFields(c, fields, IsEnvelope(fields)) case None => None case Some(es) => Some(Dict(es)))
    case _ => Some(v)
  }

  function EncodeAll(c: Codec, items: seq<Value>): Option<seq<Value>>
    decreases items
  {
    if items == [] then Some([])
    else match (Encode(c, items[0]), EncodeAll(c, items[1..]))
      case (Some(e), Some(es)) => Some([e] + es)
      case _ => None
  }

  function EncodeField(c: Codec, f: Field, envelope: bool): Option<Value>
    decreases f
  {
    if envelope && f.key == KEY_BREP then
      (match f.value
       case Binary(b) => Some(Text(c.b64(b)))
       case Text(s) => Some(Text(s))
       case _ => None)
    else if envelope && f.key == KEY_ASSEMBLY then
      (match f.value
       case List(items) => (match EncodeAll(c, items) case None => None case Some(es) => Some(List(es)))
       case _ => None)
    else if envelope && f.key in ["location", "name", "label"] then Some(f.value)
    else Encode(c, f.value)
  }

  function EncodeFields(c: Codec, fields: seq<Field>, envelope: bool): Option<seq<Field>>
    decreases fields
  {
    if fields == [] then Some([])
    else match (EncodeField(c, fields[0], envelope), EncodeFields(c, fields[1..], envelope))
      case (Some(e), Some(es)) => Some([Field(fields[0].key, e)] + es)
      case _ => None
  }

  function BrepBytes(c: Codec, v: Value): (r: Option<Value>)
    ensures r.Some? ==> r.value.Binary?
  {
    match v
    case Binary(b) => Some(v)
    case Text(s) => (match c.unb64(s) case None => None case Some(b) => Some(Binary(b)))
    case _ => None
  }

  function Decode(c: Codec, v: Value): Option<Value>
    decreases v
  {
    match v
    case List(items) =>
      (match DecodeAll(c, items) case None => None case Some(ds) => Some(List(ds)))
    case Dict(fields) =>
      if !IsEnvelope(fields) && IsBytes(fields) then BrepBytes(c, fields[0].value)
      else (match DecodeFields(c, fields, IsEnvelope(fields)) case None => None case Some(ds) => Some(Dict(ds)))
    case _ => Some(v)
  }

  function DecodeAll(c: Codec, items: seq<Value>): Option<seq<Value>>
    decreases items
  {
    if items == [] then Some([])
    else match (Decode(c, items[0]), DecodeAll(c, items[1..]))
      case (Some(d), Some(ds)) => Some([d] + ds)
      case _ => None
  }

  function DecodeField(c: Codec, f: Field, envelope: bool): Option<Value>
    decreases f
  {
    if !envelope then Decode(c, f.value)
    else if f.key == KEY_BREP then BrepBytes(c, f.value)
    else if f.key == KEY_ASSEMBLY then
      (match f.value
       case List(items) => (match DecodeAll(c, items) case None => None case Some(ds) => Some(List(ds)))
       case _ => None)
    else Some(f.value)
  }

  function DecodeFields(c: Codec, fields: seq<Field>, envelope: bool): Option<seq<Field>>
    decreases fields
  {
    if fields == [] then Some([])
    else match (DecodeField(c, fields[0], envelope), DecodeFields(c, fields[1..], envelope))
      case (Some(d), Some(ds)) => Some([Field(fields[0].key, d)] + ds)
      case _ => None
  }

  // ---- which values come back as they were ----

  /** What encoding leaves as it is. */
  predicate Fixed(v: Value)
    decreases v
  {
    match v
    case Binary(_) => false
    case Other => false
    case List(items) => forall i | 0 <= i < |items| :: Fixed(items[i])
    case Dict(fields) => forall i | 0 <= i < |fields| :: FixedField(fields[i], IsEnvelope(fields))
    case _ => true
  }

  predicate FixedField(f: Field, envelope: bool)
    decreases f
  {
    if envelope && f.key == KEY_BREP then f.value.Text?
    else if envelope && f.key == KEY_ASSEMBLY then f.value.List? && Fixed(f.value)
    else if envelope && f.key in ["location", "name", "label"] then Native(f.value)
    else Fixed(f.value)
  }

  /** Bytes anywhere but in the fields that an envelope carries beside its payload; no
      dictionary that reads like bytes; payloads in bytes. */
  predicate Faithful(v: Value)
    decreases v
  {
    match v
    case Other => false
    case List(items) => forall i | 0 <= i < |items| :: Faithful(items[i])
    case Dict(fields) =>
      && (IsEnvelope(fields) || !IsBytes(fields))
      && forall i | 0 <= i < |fields| :: FaithfulField(fields[i], IsEnvelope(fields))
    case _ => true
  }

  predicate FaithfulField(f: Field, envelope: bool)
    decreases f
  {
    if !envelope then Faithful(f.value)
    else if f.key == KEY_BREP then f.value.Binary?
    else if f.key == KEY_ASSEMBLY then f.value.List? && Faithful(f.value)
    else FixedField(f, true)
  }

  lemma {:induction false} FixedExactly(c: Codec, v: Value)
    ensures Encode(c, v) == Some(v) && Native(v) <==> Fixed(v)
    decreases v
  {
    match v
    case List(items) => FixedAllExactly(c, items);
    case Dict(fields) => FixedFieldsExactly(c, fields, IsEnvelope(fields));
    case Binary(b) =>
    case Other =>
    case Null =>
    case Flag(_) =>
    case Number(_) =>
    case Text(_) =>
  }

  lemma {:induction false} FixedAllExactly(c: Codec, items: seq<Value>)
    ensures EncodeAll(c, items) == Some(items) && (forall i | 0 <= i < |items| :: Native(items[i]))
       <==> forall i | 0 <= i < |items| :: Fixed(items[i])
    decreases items
  {
    if items != [] {
      FixedExactly(c, items[0]);
      FixedAllExactly(c, items[1..]);
      assert items == [items[0]] + items[1..];
    }
  }

  lemma {:induction false} FixedFieldExactly(c: Codec, f: Field, envelope: bool)
    ensures EncodeField(c, f, envelope) == Some(f.value) && Native(f.value) <==> FixedField(f, envelope)
    decreases f
  {
    FixedExactly(c, f.value);
  }

  lemma {:induction false} FixedFieldsExactly(c: Codec, fields: seq<Field>, envelope: bool)
    ensures EncodeFields(c, fields, envelope) == Some(fields) && (forall i | 0 <= i < |fields| :: Native(fields[i].value))
       <==> forall i | 0 <= i < |fields| :: FixedField(fields[i], envelope)
    decreases fields
  {
    if fields != [] {
      FixedFieldExactly(c, fields[0], envelope);
      FixedFieldsExactly(c, fields[1..], envelope);
      assert fields == [fields[0]] + fields[1..];
    }
  }

  /** A value that JSON can hold once it is encoded, and that decodes as it was. */
  predicate Trips(c: Codec, v: Value) {
    var e := Encode(c, v);
    e.Some? && Native(e.value) && Decode(c, e.value) == Some(v)
  }

  predicate NativeAll(items: seq<Value>) { forall i | 0 <= i < |items| :: Native(items[i]) }

  predicate NativeFields(fields: seq<Field>) { forall i | 0 <= i < |fields| :: Native(fields[i].value) }

  predicate TripsAll(c: Codec, items: seq<Value>) {
    var e := EncodeAll(c, items);
    e.Some? && NativeAll(e.value) && DecodeAll(c, e.value) == Some(items)
  }

  predicate TripsField(c: Codec, f: Field, envelope: bool) {
    var e := EncodeField(c, f, envelope);
    e.Some? && Native(e.value) && DecodeField(c, Field(f.key, e.value), envelope) == Some(f.value)
  }

  predicate TripsFields(c: Codec, fields: seq<Field>, envelope: bool) {
    var e := EncodeFields(c, fields, envelope);
    e.Some? && NativeFields(e.value) && DecodeFields(c, e.value, envelope) == Some(fields)
  }

  lemma {:induction false} KeysStay(c: Codec, fields: seq<Field>, envelope: bool)
    ensures EncodeFields(c, fields, envelope).Some? ==>
              var es := EncodeFields(c, fields, envelope).value;
              |es| == |fields| && forall i | 0 <= i < |fields| :: es[i].key == fields[i].key
    decreases fields
  {
    if fields != [] { KeysStay(c, fields[1..], envelope); }
  }

  lemma {:induction false} TripsExactly(c: Codec, v: Value)
    requires Lawful(c)
    ensures Trips(c, v) <==> Faithful(v)
    decreases v
  {
    match v
    case Binary(b) => BytesTrip(c, b);
    case List(items) =>
      TripsAllExactly(c, items);
      ListTripsByItems(c, items);
    case Dict(fields) => DictTripsExactly(c, fields);
    case Other =>
    case Null => ScalarTrips(c, v);
    case Flag(_) => ScalarTrips(c, v);
    case Number(_) => ScalarTrips(c, v);
    case Text(_) => ScalarTrips(c, v);
  }

  lemma ScalarTrips(c: Codec, v: Value)
    requires v.Null? || v.Flag? || v.Number? || v.Text?
    ensures Trips(c, v)
  {}

  lemma ListTripsByItems(c: Codec, items: seq<Value>)
    ensures Trips(c, List(items)) <==> TripsAll(c, items)
  {}

  lemma BytesTrip(c: Codec, b: Bytes)
    requires Lawful(c)
    ensures Trips(c, Binary(b))
  {
    var e := [Field(KEY_BYTES, Text(c.b64(b)))];
    assert !Has(e, KEY_BREP) && !Has(e, KEY_ASSEMBLY);
    assert Native(e[0].value);
  }

  lemma {:induction false} DictTripsExactly(c: Codec, fields: seq<Field>)
    requires Lawful(c)
    ensures Trips(c, Dict(fields)) <==> Faithful(Dict(fields))
    decreases fields, 1
  {
    TripsFieldsExactly(c, fields, IsEnvelope(fields));
    if !IsEnvelope(fields) && IsBytes(fields) { ReadsLikeBytes(c, fields); } else { DictTripsByFields(c, fields); }
  }

  /** A dictionary that reads like bytes is decoded to bytes, if at all. */
  lemma ReadsLikeBytes(c: Codec, fields: seq<Field>)
    requires !IsEnvelope(fields) && IsBytes(fields)
    ensures !Trips(c, Dict(fields))
  {
    KindStays(c, fields);
  }

  lemma DictTripsByFields(c: Codec, fields: seq<Field>)
    requires IsEnvelope(fields) || !IsBytes(fields)
    ensures Trips(c, Dict(fields)) <==> TripsFields(c, fields, IsEnvelope(fields))
  {
    KindStays(c, fields);
  }

  lemma KindStays(c: Codec, fields: seq<Field>)
    ensures var e := EncodeFields(c, fields, IsEnvelope(fields));
            e.Some? ==> (IsEnvelope(e.value) <==> IsEnvelope(fields)) && (IsBytes(e.value) <==> IsBytes(fields))
  {
    KeysStay(c, fields, IsEnvelope(fields));
    var e := EncodeFields(c, fields, IsEnvelope(fields));
    if e.Some? {
      SameKeysHave(fields, e.value, KEY_BREP);
      SameKeysHave(fields, e.value, KEY_ASSEMBLY);
    }
  }

  lemma SameKeysHave(fields: seq<Field>, es: seq<Field>, key: string)
    requires |es| == |fields| && forall i | 0 <= i < |fields| :: es[i].key == fields[i].key
    ensures Has(es, key) == Has(fields, key)
  {
    if Has(fields, key) { var i :| 0 <= i < |fields| && fields[i].key == key; assert es[i].key == key; }
  }

  lemma NativeFirst(e: Value, es: seq<Value>)
    ensures NativeAll([e] + es) <==> Native(e) && NativeAll(es)
  {
    var all := [e] + es;
    assert all[0] == e && forall i | 0 <= i < |es| :: all[i + 1] == es[i];
    if NativeAll(all) { forall i | 0 <= i < |es| ensures Native(es[i]) { assert Native(all[i + 1]); } }
  }

  lemma NativeFieldFirst(e: Field, es: seq<Field>)
    ensures NativeFields([e] + es) <==> Native(e.value) && NativeFields(es)
  {
    var all := [e] + es;
    assert all[0] == e && forall i | 0 <= i < |es| :: all[i + 1] == es[i];
    if NativeFields(all) { forall i | 0 <= i < |es| ensures Native(es[i].value) { assert Native(all[i + 1].value); } }
  }

  lemma TripsFirst(c: Codec, items: seq<Value>)
    requires items != []
    ensures TripsAll(c, items) <==> Trips(c, items[0]) && TripsAll(c, items[1..])
  {
    var e, es := Encode(c, items[0]), EncodeAll(c, items[1..]);
    if e.Some? && es.Some? {
      var all := [e.value] + es.value;
      NativeFirst(e.value, es.value);
      assert EncodeAll(c, items) == Some(all) && all[1..] == es.value;
      assert items == [items[0]] + items[1..];
    }
  }

  lemma TripsFieldFirst(c: Codec, fields: seq<Field>, envelope: bool)
    requires fields != []
    ensures TripsFields(c, fields, envelope) <==> TripsField(c, fields[0], envelope) && TripsFields(c, fields[1..], envelope)
  {
    var e, es := EncodeField(c, fields[0], envelope), EncodeFields(c, fields[1..], envelope);
    if e.Some? && es.Some? {
      var first := Field(fields[0].key, e.value);
      var all := [first] + es.value;
      NativeFieldFirst(first, es.value);
      assert EncodeFields(c, fields, envelope) == Some(all) && all[1..] == es.value;
      assert fields == [fields[0]] + fields[1..];
    }
  }

  lemma FaithfulFirst(items: seq<Value>)
    requires items != []
    ensures (forall i | 0 <= i < |items| :: Faithful(items[i])) <==> Faithful(items[0]) && forall i | 0 <= i < |items[1..]| :: Faithful(items[1..][i])
  {
    assert items == [items[0]] + items[1..];
  }

  lemma {:induction false} TripsAllExactly(c: Codec, items: seq<Value>)
    requires Lawful(c)
    ensures TripsAll(c, items) <==> forall i | 0 <= i < |items| :: Faithful(items[i])
    decreases items
  {
    if items != [] {
      TripsExactly(c, items[0]);
      TripsAllExactly(c, items[1..]);
      TripsFirst(c, items);
      FaithfulFirst(items);
    }
  }

  lemma {:induction false} TripsFieldExactly(c: Codec, f: Field, envelope: bool)
    requires Lawful(c)
    ensures TripsField(c, f, envelope) <==> FaithfulField(f, envelope)
    decreases f
  {
    TripsExactly(c, f.value);
    FixedFieldExactly(c, f, envelope);
    if envelope && f.key == KEY_ASSEMBLY && f.value.List? { TripsAllExactly(c, f.value.items); }
  }

  lemma FaithfulFieldFirst(fields: seq<Field>, envelope: bool)
    requires fields != []
    ensures (forall i | 0 <= i < |fields| :: FaithfulField(fields[i], envelope))
       <==> FaithfulField(fields[0], envelope) && forall i | 0 <= i < |fields[1..]| :: FaithfulField(fields[1..][i], envelope)
  {
    assert fields == [fields[0]] + fields[1..];
  }

  lemma {:induction false} TripsFieldsExactly(c: Codec, fields: seq<Field>, envelope: bool)
    requires Lawful(c)
    ensures TripsFields(c, fields, envelope) <==> forall i | 0 <= i < |fields| :: FaithfulField(fields[i], envelope)
    decreases fields, 0
  {
    if fields != [] {
      TripsFieldExactly(c, fields[0], envelope);
      TripsFieldsExactly(c, fields[1..], envelope);
      TripsFieldFirst(c, fields, envelope);
      FaithfulFieldFirst(fields, envelope);
    }
  }

  // ---- a cache value and its entry ----

  const FRAME_MAGIC := "PCM1"
  const FRAME_HEADER := 8
  const BREP_PREFIXES := [[40 as char, 181 as char, 47 as char, 253 as char], "CASCADE Topology", "DBRep_DrawableShape"]
  const LENGTH_LIMIT: nat := 0x1_0000_0000

  predicate Recognised(data: Bytes) {
    BREP_PREFIXES[0] <= data || BREP_PREFIXES[1] <= data || BREP_PREFIXES[2] <= data
  }

  /** The metadata a value carries, if it has any. */
  function MetadataOf(v: Value): Option<Value> {
    if !v.Dict? then None
    else match Get(v.fields, KEY_METADATA)
      case Some(Dict(m)) => if m == [] then None else Some(Dict(m))
      case _ => None
  }

  function MetadataField(v: Value): seq<Field> {
    match MetadataOf(v) case None => [] case Some(m) => [Field(KEY_METADATA, m)]
  }

  /** The payload and the metadata, without the outer layer. */
  function StripMetadata(v: Value): Value
    decreases v
  {
    match v
    case List(items) => List(StripAll(items))
    case Dict(fields) =>
      var key := if Has(fields, KEY_BREP) then KEY_BREP else KEY_ASSEMBLY;
      if IsEnvelope(fields) then
        HasGet(fields, key);
        Dict([Field(key, Get(fields, key).value)] + MetadataField(v))
      else v
    case _ => v
  }

  function StripAll(items: seq<Value>): seq<Value>
    decreases items
  {
    if items == [] then [] else [StripMetadata(items[0])] + StripAll(items[1..])
  }

  lemma {:induction false} HasGet(fields: seq<Field>, key: string)
    ensures Has(fields, key) <==> Get(fields, key).Some?
  {
    if fields != [] {
      HasGet(fields[1..], key);
      assert fields == [fields[0]] + fields[1..];
    }
  }

  /** The payload alone. */
  function Geometry(v: Value): Value {
    var payload := StripMetadata(v);
    if payload.Dict? && Has(payload.fields, KEY_METADATA) then Dict(Without(payload.fields, KEY_METADATA)) else payload
  }

  /** The payload with the metadata last. */
  function Kept(v: Value): Value {
    var geometry := Geometry(v);
    if geometry.Dict? then Dict(geometry.fields + MetadataField(v)) else geometry
  }

  predicate IsLone(v: Value) {
    Geometry(v).Dict? && |Geometry(v).fields| == 1 && Geometry(v).fields[0].key == KEY_BREP
  }

  /** A number below 2^32 as four bytes, the highest first. */
  function Big4(n: nat): (r: Bytes)
    requires n < LENGTH_LIMIT
    ensures |r| == 4
  {
    [(n / 0x100_0000) as char, (n / 0x1_0000 % 0x100) as char, (n / 0x100 % 0x100) as char, (n % 0x100) as char]
  }

  function FromBig(data: Bytes): nat {
    if data == "" then 0 else 0x100 * FromBig(data[..|data|-1]) + data[|data|-1] as nat
  }

  function SerializeLone(c: Codec, payload: Value, metadata: Option<Value>): Option<Bytes> {
    match BrepBytes(c, payload)
    case Some(Binary(brep)) =>
      (match metadata
       case None => Some(brep)
       case Some(m) =>
         if !Native(m) || |c.dumps(m)| >= LENGTH_LIMIT then None
         else Some(FRAME_MAGIC + Big4(|c.dumps(m)|) + c.dumps(m) + brep))
    case _ => None
  }

  function SerializeOther(c: Codec, kept: Value): Option<Bytes> {
    match Encode(c, kept)
    case None => None
    case Some(e) => if Native(e) then Some(c.dumps(e)) else None
  }

  function Serialize(c: Codec, v: Value): Option<Bytes> {
    if IsLone(v) then SerializeLone(c, Geometry(v).fields[0].value, MetadataOf(v)) else SerializeOther(c, Kept(v))
  }

  /** A slice as Python takes it, of what there is. */
  function Slice(data: Bytes, from: nat, to: nat): Bytes {
    var hi := if to > |data| then |data| else to;
    if from > hi then "" else data[from..hi]
  }

  function Deserialize(c: Codec, data: Bytes): Option<Value> {
    if FRAME_MAGIC <= data then
      var length := FromBig(Slice(data, |FRAME_MAGIC|, FRAME_HEADER));
      match c.loads(Slice(data, FRAME_HEADER, FRAME_HEADER + length))
      case None => None
      case Some(m) => Some(Dict([Field(KEY_BREP, Binary(Slice(data, FRAME_HEADER + length, |data|))), Field(KEY_METADATA, m)]))
    else if Recognised(data) then Some(BrepOnly(Binary(data)))
    else match c.loads(data)
      case None => None
      case Some(v) => Decode(c, v)
  }

  lemma DigitsInBase256(n: nat)
    ensures 0x100 * (n / 0x100_0000) + n / 0x1_0000 % 0x100 == n / 0x1_0000
    ensures 0x100 * (n / 0x1_0000) + n / 0x100 % 0x100 == n / 0x100
    ensures 0x100 * (n / 0x100) + n % 0x100 == n
  {}

  lemma FromBigOfLonger(data: Bytes, c: char)
    ensures FromBig(data + [c]) == 0x100 * FromBig(data) + c as nat
  {
    assert (data + [c])[..|data|] == data;
  }

  lemma FromBigOfFour(a: char, b: char, c: char, d: char)
    ensures FromBig([a, b, c, d]) == 0x100 * (0x100 * (0x100 * a as nat + b as nat) + c as nat) + d as nat
  {
    FromBigOfLonger("", a);
    FromBigOfLonger([a], b);
    FromBigOfLonger([a, b], c);
    FromBigOfLonger([a, b, c], d);
    assert "" + [a] == [a] && [a] + [b] == [a, b] && [a, b] + [c] == [a, b, c] && [a, b, c] + [d] == [a, b, c, d];
  }

  lemma LengthReadsBack(n: nat)
    requires n < LENGTH_LIMIT
    ensures FromBig(Big4(n)) == n
  {
    var r := Big4(n);
    FromBigOfFour(r[0], r[1], r[2], r[3]);
    DigitsInBase256(n);
  }

  /** Where the parts of a frame are. */
  lemma FrameSlices(size: Bytes, header: Bytes, brep: Bytes)
    requires |size| == 4
    ensures var data := FRAME_MAGIC + size + header + brep;
            && FRAME_MAGIC <= data && Slice(data, 4, 8) == size && Slice(data, 8, 8 + |header|) == header
            && Slice(data, 8 + |header|, |data|) == brep
  {
    var data := FRAME_MAGIC + size + header + brep;
    assert data[4..8] == size;
    assert data[8..8 + |header|] == header;
    assert data[8 + |header|..] == brep;
  }

  /** Behind a frame, any payload and its metadata come back. */
  lemma FrameReadsBack(c: Codec, m: Value, brep: Bytes)
    requires Lawful(c) && Native(m) && |c.dumps(m)| < LENGTH_LIMIT
    ensures Deserialize(c, FRAME_MAGIC + Big4(|c.dumps(m)|) + c.dumps(m) + brep)
         == Some(Dict([Field(KEY_BREP, Binary(brep)), Field(KEY_METADATA, m)]))
  {
    var header := c.dumps(m);
    LengthReadsBack(|header|);
    FrameSlices(Big4(|header|), header, brep);
  }

  lemma NoMagic(text: Bytes)
    requires text != "" && text[0] !in {'P', 'C', 'D', '('}
    ensures !(FRAME_MAGIC <= text) && !Recognised(text)
  {
    assert FRAME_MAGIC[0] == 'P' && BREP_PREFIXES[0][0] == '(' && BREP_PREFIXES[1][0] == 'C' && BREP_PREFIXES[2][0] == 'D';
  }

  /** JSON is never taken for a frame or for BREP. */
  lemma JsonReadsAsJson(c: Codec, v: Value)
    requires Lawful(c) && Native(v)
    ensures Deserialize(c, c.dumps(v)) == Decode(c, v)
  {
    NoMagic(c.dumps(v));
  }

  lemma {:induction false} DecodeKeeps(c: Codec, fields: seq<Field>, envelope: bool)
    ensures DecodeFields(c, fields, envelope).Some? ==>
              var ds := DecodeFields(c, fields, envelope).value;
              |ds| == |fields| && forall i | 0 <= i < |fields| :: ds[i].key == fields[i].key && DecodeField(c, fields[i], envelope) == Some(ds[i].value)
    decreases fields
  {
    if fields != [] { DecodeKeeps(c, fields[1..], envelope); }
  }

  /** What decodes to a lone payload says it in base64. */
  lemma DecodesToLone(c: Codec, v: Value, x: Value)
    requires Native(v) && Decode(c, v) == Some(BrepOnly(x))
    ensures x.Binary? && v.Dict? && |v.fields| == 1 && v == BrepOnly(v.fields[0].value)
    ensures v.fields[0].value.Text? && c.unb64(v.fields[0].value.s) == Some(x.data)
  {
    var fields, lone := v.fields, BrepOnly(x);
    DecodeKeeps(c, fields, IsEnvelope(fields));
    assert lone.fields[0] == Field(KEY_BREP, x);
    assert fields == [fields[0]] && fields[0].key == KEY_BREP && IsEnvelope(fields);
    assert Native(fields[0].value);
  }

  /** What reads as a lone payload was either the payload or a JSON text. */
  lemma ReadsAsLone(c: Codec, data: Bytes, x: Value)
    requires Lawful(c) && Deserialize(c, data) == Some(BrepOnly(x))
    ensures x.Binary? && (x.data == data || |x.data| < |data|) && (!Recognised(data) ==> |x.data| < |data|)
  {
    var lone := BrepOnly(x);
    assert |lone.fields| == 1;
    assert !(FRAME_MAGIC <= data);
    if !Recognised(data) {
      var v := c.loads(data).value;
      DecodesToLone(c, v, x);
    } else {
      assert lone == BrepOnly(Binary(data));
      assert lone.fields[0].value == x;
    }
  }

  /** A lone payload comes back exactly if its beginning is recognised: one that is not
      cannot by chance be a JSON text of itself, being shorter. */
  lemma RawReadsBackExactly(c: Codec, brep: Bytes)
    requires Lawful(c)
    ensures Deserialize(c, brep) == Some(BrepOnly(Binary(brep))) <==> Recognised(brep)
  {
    if Recognised(brep) {
      assert brep[0] == '(' || brep[0] == 'C' || brep[0] == 'D';
    } else if Deserialize(c, brep) == Some(BrepOnly(Binary(brep))) {
      ReadsAsLone(c, brep, Binary(brep));
    }
  }

  /** Whether an entry gives back what was kept. */
  predicate GivesBack(c: Codec, entry: Option<Bytes>, kept: Value) {
    entry.Some? && Deserialize(c, entry.value) == Some(kept)
  }

  function LoneKept(payload: Value, metadata: Option<Value>): Value {
    match metadata
    case None => BrepOnly(payload)
    case Some(m) => Dict([Field(KEY_BREP, payload), Field(KEY_METADATA, m)])
  }

  lemma BareComesBackExactly(c: Codec, payload: Value)
    requires Lawful(c)
    ensures GivesBack(c, SerializeLone(c, payload, None), BrepOnly(payload)) <==> payload.Binary? && Recognised(payload.data)
  {
    var entry := SerializeLone(c, payload, None);
    if payload.Binary? {
      RawReadsBackExactly(c, payload.data);
    } else if GivesBack(c, entry, BrepOnly(payload)) {
      ReadsAsLone(c, entry.value, payload);
    }
  }

  lemma FramedComesBackExactly(c: Codec, payload: Value, m: Value)
    requires Lawful(c)
    ensures GivesBack(c, SerializeLone(c, payload, Some(m)), LoneKept(payload, Some(m)))
       <==> payload.Binary? && Native(m) && |c.dumps(m)| < LENGTH_LIMIT
  {
    var brep, entry := BrepBytes(c, payload), SerializeLone(c, payload, Some(m));
    if brep.None? || !Native(m) || |c.dumps(m)| >= LENGTH_LIMIT {
      assert entry == None;
    } else {
      FrameReadsBack(c, m, brep.value.data);
      var back := LoneKept(brep.value, Some(m));
      assert Deserialize(c, entry.value) == Some(back);
      assert back.fields[0].value == brep.value && LoneKept(payload, Some(m)).fields[0].value == payload;
    }
  }

  lemma OtherComesBackExactly(c: Codec, kept: Value)
    requires Lawful(c)
    ensures GivesBack(c, SerializeOther(c, kept), kept) <==> Faithful(kept)
  {
    TripsExactly(c, kept);
    var e := Encode(c, kept);
    if e.Some? && Native(e.value) { JsonReadsAsJson(c, e.value); }
  }

  lemma KeptOfLone(v: Value)
    requires IsLone(v)
    ensures Kept(v) == LoneKept(Geometry(v).fields[0].value, MetadataOf(v))
  {
    var field := Geometry(v).fields[0];
    assert Geometry(v).fields == [field];
    assert Kept(v) == Dict([field] + MetadataField(v));
  }

  /** A value comes back - the payload and the metadata, and nothing of the outer layer -
      exactly if: a lone payload is in bytes, and begins as BREP does or has metadata that
      JSON can hold in less than 4 GiB; anything else is made of what the codec keeps. */
  lemma ComesBackExactly(c: Codec, v: Value)
    requires Lawful(c)
    ensures GivesBack(c, Serialize(c, v), Kept(v)) <==>
              if IsLone(v) then
                && Geometry(v).fields[0].value.Binary?
                && match MetadataOf(v)
                   case None => Recognised(Geometry(v).fields[0].value.data)
                   case Some(m) => Native(m) && |c.dumps(m)| < LENGTH_LIMIT
              else Faithful(Kept(v))
  {
    if IsLone(v) {
      var payload := Geometry(v).fields[0].value;
      KeptOfLone(v);
      match MetadataOf(v)
      case None => BareComesBackExactly(c, payload);
      case Some(m) => FramedComesBackExactly(c, payload, m);
    } else {
      OtherComesBackExactly(c, Kept(v));
    }
  }

  /** What is kept of a shape or an assembly is it without its outer layer. */
  lemma KeptOfEnvelope(fields: seq<Field>)
    requires IsEnvelope(fields)
    ensures Kept(Dict(fields)) == StripMetadata(Dict(fields))
  {
    var v := Dict(fields);
    var key := if Has(fields, KEY_BREP) then KEY_BREP else KEY_ASSEMBLY;
    HasGet(fields, key);
    var first, rest := Field(key, Get(fields, key).value), MetadataField(v);
    var payload := [first] + rest;
    assert StripMetadata(v) == Dict(payload);
    if rest == [] {
      assert payload == [first];
    } else {
      assert payload[1].key == KEY_METADATA && payload[1..] == rest && rest[1..] == [];
      assert Without(rest, KEY_METADATA) == [];
      assert Without(payload, KEY_METADATA) == [first];
    }
  }

  // ---- what is kept, key by key ----

  lemma {:induction false} GetWithout(fields: seq<Field>, key: string, other: string)
    ensures Get(Without(fields, key), other) == if other == key then None else Get(fields, other)
  {
    if fields != [] {
      GetWithout(fields[1..], key, other);
      var first := if fields[0].key == key then [] else [fields[0]];
      GetTogether(first, Without(fields[1..], key), other);
    }
  }

  lemma {:induction false} GetTogether(a: seq<Field>, b: seq<Field>, key: string)
    ensures Get(a + b, key) == if Get(a, key).Some? then Get(a, key) else Get(b, key)
  {
    if a == [] {
      assert a + b == b;
    } else {
      GetTogether(a[1..], b, key);
      assert (a + b)[1..] == a[1..] + b;
    }
  }

  /** Metadata that says something: a dictionary, and not an empty one. */
  predicate Telling(v: Option<Value>) { v.Some? && v.value.Dict? && v.value.fields != [] }

  /** A shape or an assembly is kept as its payload - of the two, the shape's - and its
      metadata, if that says anything, and nothing else; of any other dictionary only
      metadata that says nothing is lost. */
  lemma KeptByKey(fields: seq<Field>, key: string)
    ensures Kept(Dict(fields)).Dict?
    ensures key == "metadata" ==>
              Get(Kept(Dict(fields)).fields, key) == if Telling(Get(fields, key)) then Get(fields, key) else None
    ensures key == "brep" ==> Get(Kept(Dict(fields)).fields, key) == Get(fields, key)
    ensures key == "assembly" ==>
              Get(Kept(Dict(fields)).fields, key) == if Get(fields, "brep").Some? then None else Get(fields, key)
    ensures key !in ["metadata", "brep", "assembly"] ==>
              Get(Kept(Dict(fields)).fields, key)
                == if Get(fields, "brep").Some? || Get(fields, "assembly").Some? then None else Get(fields, key)
  {
    var v, tail := Dict(fields), MetadataField(Dict(fields));
    HasGet(fields, KEY_BREP);
    HasGet(fields, KEY_ASSEMBLY);
    HasGet(fields, KEY_METADATA);
    GetTogether([], tail, key);
    assert [] + tail == tail;
    if IsEnvelope(fields) {
      KeptOfEnvelope(fields);
      var payload := if Has(fields, KEY_BREP) then KEY_BREP else KEY_ASSEMBLY;
      GetTogether([Field(payload, Get(fields, payload).value)], tail, key);
    } else {
      GetTogether(Geometry(v).fields, tail, key);
      GetWithout(fields, KEY_METADATA, key);
    }
  }

  lemma {:induction false} StripAllOneByOne(items: seq<Value>)
    ensures |StripAll(items)| == |items| && forall i | 0 <= i < |items| :: StripAll(items)[i] == StripMetadata(items[i])
  {
    if items != [] { StripAllOneByOne(items[1..]); }
  }

  /** A list is kept item by item; in it a dictionary that is no payload stays as it is. */
  lemma KeptOfList(items: seq<Value>)
    ensures var kept := Kept(List(items));
            && kept.List? && |kept.items| == |items|
            && forall i | 0 <= i < |items| ::
                 kept.items[i] == if items[i].Dict? && !Has(items[i].fields, "brep") && !Has(items[i].fields, "assembly") then items[i] else Kept(items[i])
  {
    StripAllOneByOne(items);
    forall i | 0 <= i < |items|
      ensures StripMetadata(items[i])
           == if items[i].Dict? && !Has(items[i].fields, "brep") && !Has(items[i].fields, "assembly") then items[i] else Kept(items[i])
    {
      if items[i].Dict? && IsEnvelope(items[i].fields) { KeptOfEnvelope(items[i].fields); }
    }
  }

  // ---- what is written, byte by byte ----

  /** A payload given as bytes or as the base64 of them. */
  predicate PayloadOf(c: Codec, fields: seq<Field>, brep: Bytes) {
    match Get(fields, "brep")
    case Some(Binary(b)) => b == brep
    case Some(Text(s)) => c.unb64(s) == Some(brep)
    case _ => false
  }

  lemma GeometryOfShape(fields: seq<Field>)
    requires Get(fields, "brep").Some?
    ensures Geometry(Dict(fields)) == BrepOnly(Get(fields, "brep").value)
  {
    HasGet(fields, KEY_BREP);
    var v, first := Dict(fields), Field(KEY_BREP, Get(fields, "brep").value);
    var rest := MetadataField(v);
    var payload := [first] + rest;
    assert StripMetadata(v) == Dict(payload);
    if rest == [] {
      assert payload == [first];
    } else {
      assert payload[1].key == KEY_METADATA && payload[1..] == rest && rest[1..] == [];
      assert Without(rest, KEY_METADATA) == [];
      assert Without(payload, KEY_METADATA) == [first];
    }
  }

  /** A shape with nothing recorded about it is stored as the bytes of its payload. */
  lemma BareShapeIsItsBytes(c: Codec, fields: seq<Field>, brep: Bytes)
    requires PayloadOf(c, fields, brep) && !Telling(Get(fields, "metadata"))
    ensures Serialize(c, Dict(fields)) == Some(brep)
  {
    GeometryOfShape(fields);
    assert BrepOnly(Get(fields, "brep").value).fields[0].value == Get(fields, "brep").value;
  }

  /** The number that four bytes stand for, the highest first. */
  predicate FourBytes(size: Bytes, n: nat) {
    && |size| == 4 && (forall i | 0 <= i < 4 :: size[i] < 0x100 as char)
    && size[0] as nat * 0x100_0000 + size[1] as nat * 0x1_0000 + size[2] as nat * 0x100 + size[3] as nat == n
  }

  lemma Big4IsFourBytes(n: nat)
    requires n < LENGTH_LIMIT
    ensures FourBytes(Big4(n), n)
  {
    DigitsInBase256(n);
  }

  lemma ShapeIsFramed(c: Codec, fields: seq<Field>, brep: Bytes, m: Value)
    requires PayloadOf(c, fields, brep) && Get(fields, "metadata") == Some(m) && Telling(Some(m))
    requires Native(m) && |c.dumps(m)| < LENGTH_LIMIT
    ensures Serialize(c, Dict(fields)) == Some(FRAME_MAGIC + Big4(|c.dumps(m)|) + c.dumps(m) + brep)
  {
    var payload := Get(fields, "brep").value;
    GeometryOfShape(fields);
    assert BrepOnly(payload).fields[0].value == payload;
    assert BrepBytes(c, payload) == Some(Binary(brep)) && MetadataOf(Dict(fields)) == Some(m);
  }

  /** One with metadata is stored as "PCM1", the length of the metadata's JSON in four
      bytes, that JSON, and the bytes of its payload; and payload and metadata come back. */
  lemma ShapeWithMetadataIsFramed(c: Codec, fields: seq<Field>, brep: Bytes, m: Value) returns (size: Bytes)
    requires Lawful(c) && PayloadOf(c, fields, brep) && Get(fields, "metadata") == Some(m) && Telling(Some(m))
    requires Native(m) && |c.dumps(m)| < 0x1_0000_0000
    ensures FourBytes(size, |c.dumps(m)|)
    ensures Serialize(c, Dict(fields)) == Some("PCM1" + size + c.dumps(m) + brep)
    ensures Deserialize(c, Serialize(c, Dict(fields)).value) == Some(Dict([Field("brep", Binary(brep)), Field("metadata", m)]))
  {
    size := Big4(|c.dumps(m)|);
    Big4IsFourBytes(|c.dumps(m)|);
    ShapeIsFramed(c, fields, brep, m);
    FrameReadsBack(c, m, brep);
  }

  /** Anything else is stored as the JSON of what is kept of it, encoded. */
  lemma OthersAreJson(c: Codec, v: Value)
    requires v.Dict? ==> Get(v.fields, "brep").None?
    ensures Serialize(c, v) == (match Encode(c, Kept(v)) case None => None case Some(e) => if Native(e) then Some(c.dumps(e)) else None)
  {
    if v.Dict? {
      KeptByKey(v.fields, "brep");
      if IsLone(v) { GetTogether(Geometry(v).fields, MetadataField(v), "brep"); }
    }
  }

  /** An entry is told apart by how it begins. */
  lemma ReadByBeginning(c: Codec, data: Bytes, size: Bytes, header: Bytes, brep: Bytes)
    ensures data == "PCM1" + size + header + brep && FourBytes(size, |header|) ==>
              Deserialize(c, data) == (match c.loads(header) case None => None
                                       case Some(m) => Some(Dict([Field("brep", Binary(brep)), Field("metadata", m)])))
    ensures "CASCADE Topology" <= data || "DBRep_DrawableShape" <= data || [0x28 as char, 0xb5 as char, 0x2f as char, 0xfd as char] <= data ==>
              Deserialize(c, data) == Some(Dict([Field("brep", Binary(data))]))
    ensures !("PCM1" <= data) && !("CASCADE Topology" <= data) && !("DBRep_DrawableShape" <= data)
            && !([0x28 as char, 0xb5 as char, 0x2f as char, 0xfd as char] <= data) ==>
              Deserialize(c, data) == (match c.loads(data) case None => None case Some(v) => Decode(c, v))
  {
    if data == "PCM1" + size + header + brep && FourBytes(size, |header|) {
      FromBigOfFour(size[0], size[1], size[2], size[3]);
      assert size == [size[0], size[1], size[2], size[3]];
      FrameSlices(size, header, brep);
    }
    if Recognised(data) { assert data[0] == '(' || data[0] == 'C' || data[0] == 'D'; }
  }

  // ---- what is encoded and decoded, key by key ----

  lemma {:induction false} EncodesOneByOne(c: Codec, items: seq<Value>)
    ensures EncodeAll(c, items).None? <==> exists i | 0 <= i < |items| :: Encode(c, items[i]).None?
    ensures EncodeAll(c, items).Some? ==>
              |EncodeAll(c, items).value| == |items| && forall i | 0 <= i < |items| :: Encode(c, items[i]) == Some(EncodeAll(c, items).value[i])
  {
    if items != [] {
      EncodesOneByOne(c, items[1..]);
      assert items == [items[0]] + items[1..];
    }
  }

  lemma {:induction false} EncodedFieldByField(c: Codec, fields: seq<Field>, envelope: bool)
    requires EncodeFields(c, fields, envelope).Some?
    ensures var es := EncodeFields(c, fields, envelope).value;
            |es| == |fields| && forall i | 0 <= i < |fields| :: es[i].key == fields[i].key && EncodeField(c, fields[i], envelope) == Some(es[i].value)
  {
    if fields != [] { EncodedFieldByField(c, fields[1..], envelope); }
  }

  /** Bytes become {"__bytes__": base64}.  In a shape or an assembly the payload in bytes
      becomes base64, an assembly's items are encoded one by one, placement, name and
      label stay as they are; all else is encoded as it would be alone. */
  lemma EncodedByKey(c: Codec, fields: seq<Field>, i: nat, b: Bytes)
    requires Encode(c, Dict(fields)).Some? && i < |fields|
    ensures Encode(c, Binary(b)) == Some(Dict([Field("__bytes__", Text(c.b64(b)))]))
    ensures var e, f, envelope := Encode(c, Dict(fields)).value, fields[i], Has(fields, "brep") || Has(fields, "assembly");
            && e.Dict? && |e.fields| == |fields| && e.fields[i].key == f.key
            && (envelope && f.key == "brep" && f.value == Binary(b) ==> e.fields[i].value == Text(c.b64(b)))
            && (envelope && f.key == "brep" && f.value.Text? ==> e.fields[i].value == f.value)
            && (envelope && f.key in ["location", "name", "label"] ==> e.fields[i].value == f.value)
            && ((envelope ==> f.key !in ["brep", "assembly", "location", "name", "label"]) ==> Encode(c, f.value) == Some(e.fields[i].value))
            && (envelope && f.key == "assembly" ==>
                  f.value.List? && e.fields[i].value.List? && |e.fields[i].value.items| == |f.value.items|
                  && forall k | 0 <= k < |f.value.items| :: Encode(c, f.value.items[k]) == Some(e.fields[i].value.items[k]))
  {
    EncodedFieldByField(c, fields, IsEnvelope(fields));
    var f := fields[i];
    assert EncodeField(c, f, IsEnvelope(fields)) == Some(Encode(c, Dict(fields)).value.fields[i].value);
    if f.key == "assembly" && f.value.List? { EncodesOneByOne(c, f.value.items); }
  }

  lemma {:induction false} DecodesOneByOne(c: Codec, items: seq<Value>)
    ensures DecodeAll(c, items).Some? ==>
              |DecodeAll(c, items).value| == |items| && forall i | 0 <= i < |items| :: Decode(c, items[i]) == Some(DecodeAll(c, items).value[i])
  {
    if items != [] { DecodesOneByOne(c, items[1..]); }
  }

  /** And back: a payload's base64 becomes its bytes, an assembly's items are decoded,
      everything beside them stays. */
  lemma DecodedByKey(c: Codec, fields: seq<Field>, i: nat, s: string)
    requires Decode(c, Dict(fields)).Some? && i < |fields|
    ensures Decode(c, Dict([Field("__bytes__", Text(s))])) == (match c.unb64(s) case None => None case Some(b) => Some(Binary(b)))
    ensures var d, f, envelope := Decode(c, Dict(fields)).value, fields[i], Has(fields, "brep") || Has(fields, "assembly");
            envelope || |fields| != 1 || f.key != "__bytes__" ==>
            && d.Dict? && |d.fields| == |fields| && d.fields[i].key == f.key
            && (envelope && f.key == "brep" && f.value.Text? ==> d.fields[i].value.Binary? && c.unb64(f.value.s) == Some(d.fields[i].value.data))
            && (envelope && f.key !in ["brep", "assembly"] ==> d.fields[i].value == f.value)
            && (!envelope ==> Decode(c, f.value) == Some(d.fields[i].value))
            && (envelope && f.key == "assembly" ==>
                  f.value.List? && d.fields[i].value.List? && |d.fields[i].value.items| == |f.value.items|
                  && forall k | 0 <= k < |f.value.items| :: Decode(c, f.value.items[k]) == Some(d.fields[i].value.items[k]))
  {
    var f := fields[i];
    DecodeKeeps(c, fields, IsEnvelope(fields));
    assert !Has([Field("__bytes__", Text(s))], KEY_BREP) && !Has([Field("__bytes__", Text(s))], KEY_ASSEMBLY);
    if f.key == "assembly" && f.value.List? { DecodesOneByOne(c, f.value.items); }
  }
}
