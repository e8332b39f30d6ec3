/** shared/util/byteSerializer: encoding a value by its type, and decoding it from
    any buffer that holds the encoding. */
module Serializer {
  import opened Model
  import opened Words

  // ---------- types and schemas ----------

  datatype Kind =
    | Int8 | Uint8 | Int16 | Uint16 | Int32 | Uint32
    | Uint64
    | Double
    | Utf8
    | ArrayOf(element: Kind)
    | ObjectOf(schema: Byte)
    | SetOf(element: Kind)
    | MapOf(key: Kind, value: Kind)
    | Bool
    | Number64
    | Dynamic

  const ARRAY := 9

  /** The type byte; a dynamic buffer has none of its own. */
  function Code(k: Kind): (c: Byte)
    requires !k.Dynamic?
    ensures c <= 14
  {
    match k
    case Int8 => 0
    case Uint8 => 1
    case Int16 => 2
    case Uint16 => 3
    case Int32 => 4
    case Uint32 => 5
    case Uint64 => 6
    case Double => 7
    case Utf8 => 8
    case ArrayOf(_) => 9
    case ObjectOf(_) => 10
    case SetOf(_) => 11
    case MapOf(_, _) => 12
    case Bool => 13
    case Number64 => 14
  }

  predicate IsInt(k: Kind) {
    k.Int8? || k.Uint8? || k.Int16? || k.Uint16? || k.Int32? || k.Uint32?
  }

  function IntWidth(code: int): nat {
    if code <= 1 then 1 else if code <= 3 then 2 else 4
  }

  predicate IsSigned(code: int) {
    code == 0 || code == 2 || code == 4
  }

  predicate IsSimple(k: Kind) {
    !k.ArrayOf? && !k.ObjectOf? && !k.SetOf? && !k.MapOf? && !k.Dynamic?
  }

  datatype Column = Column(name: string, kind: Kind)

  /** The columns of a schema in the order they were written down. */
  type Schema = seq<Column>

  // ---------- values ----------

  /** A value as the program holds it. `Embedded` is a buffer that already holds an
      encoded value; `Missing` is a property the object does not have. */
  datatype Value =
    | Missing
    | Num(n: int)
    | Flag(flag: bool)
    | Bits(bits: Bytes)
    | Text(text: Bytes)
    | Items(items: seq<Value>)
    | Record(fields: seq<Field>)
    | Entries(entries: seq<Entry>)
    | Embedded(kind: Kind, inner: Value)

  datatype Field = Field(name: string, value: Value)

  datatype Entry = Entry(key: Value, value: Value)

  function Size(v: Value): nat {
    match v
    case Missing => 0
    case Items(items) => 1 + SizeItems(items)
    case Record(fields) => 1 + SizeFields(fields)
    case Entries(entries) => 1 + SizeEntries(entries)
    case Embedded(_, inner) => 1 + Size(inner)
    case _ => 1
  }

  function SizeItems(items: seq<Value>): nat {
    if items == [] then 0 else Size(items[0]) + SizeItems(items[1..])
  }

  function SizeFields(fields: seq<Field>): nat {
    if fields == [] then 0 else Size(fields[0].value) + SizeFields(fields[1..])
  }

  function SizeEntry(e: Entry): (n: nat)
    ensures n == Size(e.key) + Size(e.value)
  {
    Size(e.key) + Size(e.value)
  }

  function SizeEntries(entries: seq<Entry>): nat {
    if entries == [] then 0 else SizeEntry(entries[0]) + SizeEntries(entries[1..])
  }

  /** The property of an object; `Missing` where there is none. */
  function Lookup(fields: seq<Field>, name: string): (v: Value)
    ensures Size(v) <= SizeFields(fields)
  {
    if fields == [] then Missing
    else if fields[0].name == name then fields[0].value
    else Lookup(fields[1..], name)
  }

  // ---------- the order of columns ----------

  /** Comparing strings character by character. */
  predicate Precedes(a: string, b: string) {
    if a == [] then true
    else if b == [] then false
    else if a[0] != b[0] then a[0] < b[0]
    else Precedes(a[1..], b[1..])
  }

  function InsertColumn(s: Schema, c: Column): Schema {
    if s == [] then [c]
    else if Precedes(s[|s| - 1].name, c.name) then s + [c]
    else InsertColumn(s[..|s| - 1], c) + [s[|s| - 1]]
  }

  function SortColumns(s: Schema): Schema {
    if s == [] then [] else InsertColumn(SortColumns(s[..|s| - 1]), s[|s| - 1])
  }

  lemma {:induction false} InsertColumnIs(s: Schema, c: Column)
    ensures multiset(InsertColumn(s, c)) == multiset(s) + multiset{c}
  {
    if s != [] && !Precedes(s[|s| - 1].name, c.name) {
      InsertColumnIs(s[..|s| - 1], c);
      assert s == s[..|s| - 1] + [s[|s| - 1]];
    }
  }

  lemma {:induction false} SortColumnsIs(s: Schema)
    ensures multiset(SortColumns(s)) == multiset(s)
  {
    hide InsertColumn;
    if s != [] {
      SortColumnsIs(s[..|s| - 1]);
      InsertColumnIs(SortColumns(s[..|s| - 1]), s[|s| - 1]);
      assert s == s[..|s| - 1] + [s[|s| - 1]];
    }
  }

  // ---------- what may be written ----------

  function IntMin(k: Kind): int {
    match k
    case Int8 => -0x80
    case Int16 => -0x8000
    case Int32 => -0x8000_0000
    case _ => 0
  }

  function IntMax(k: Kind): int {
    match k
    case Int8 => 0x7f
    case Uint8 => 0xff
    case Int16 => 0x7fff
    case Uint16 => 0xffff
    case Int32 => 0x7fff_ffff
    case _ => 0xffff_ffff
  }

  const MAX_SAFE := 0x20_0000_0000_0000

  predicate DistinctItems(items: seq<Value>) {
    forall i, j :: 0 <= i < j < |items| ==> items[i] != items[j]
  }

  predicate DistinctKeys(entries: seq<Entry>) {
    forall i, j :: 0 <= i < j < |entries| ==> entries[i].key != entries[j].key
  }

  /** The value can be written as this type. The text, number and boolean writers
      take a missing value for an empty one. */
  predicate Fits(schemas: seq<Schema>, k: Kind, v: Value)
    decreases Size(v), 0, 0
  {
    match k
    case Uint64 => v.Missing? || (v.Num? && 0 <= v.n < WORD * WORD)
    case Number64 => v.Missing? || (v.Num? && 0 <= v.n < MAX_SAFE)
    case Double => v.Bits? && |v.bits| == 8
    case Utf8 => v.Missing? || (v.Text? && |v.text| < 0x1_0000)
    case Bool => v.Missing? || v.Flag?
    case ArrayOf(e) =>
      v.Items? && !e.Dynamic? && AllFit(schemas, e, v.items) && ItemsLength(schemas, e, v.items) < WORD
    case SetOf(e) =>
      && v.Items? && IsSimple(e) && AllFit(schemas, e, v.items) && ItemsLength(schemas, e, v.items) < WORD
      && DistinctItems(v.items) && (forall i :: 0 <= i < |v.items| ==> !v.items[i].Missing?)
    case MapOf(key, value) =>
      && v.Entries? && IsSimple(key) && !value.Dynamic? && EntriesFit(schemas, key, value, v.entries)
      && EntriesLength(schemas, key, value, v.entries) < WORD
      && DistinctKeys(v.entries) && (forall i :: 0 <= i < |v.entries| ==> !v.entries[i].key.Missing?)
    case ObjectOf(id) => v.Record? && id < |schemas| && FieldsFit(schemas, schemas[id], v.fields)
    case Dynamic => v.Embedded? && !v.kind.Dynamic? && Fits(schemas, v.kind, v.inner)
    case _ => v.Num? && IntMin(k) <= v.n <= IntMax(k)
  }

  predicate AllFit(schemas: seq<Schema>, e: Kind, items: seq<Value>)
    decreases SizeItems(items), 1, |items|
  {
    items == [] || (Fits(schemas, e, items[0]) && AllFit(schemas, e, items[1..]))
  }

  predicate EntryFits(schemas: seq<Schema>, key: Kind, value: Kind, e: Entry)
    decreases SizeEntry(e), 1, 0
  {
    Fits(schemas, key, e.key) && Fits(schemas, value, e.value)
  }

  predicate EntriesFit(schemas: seq<Schema>, key: Kind, value: Kind, entries: seq<Entry>)
    decreases SizeEntries(entries), 2, |entries|
  {
    entries == [] || (EntryFits(schemas, key, value, entries[0]) && EntriesFit(schemas, key, value, entries[1..]))
  }

  predicate FieldsFit(schemas: seq<Schema>, columns: Schema, fields: seq<Field>)
    decreases SizeFields(fields), 1, |columns|
  {
    columns == [] ||
    (Fits(schemas, columns[0].kind, Lookup(fields, columns[0].name)) && FieldsFit(schemas, columns[1..], fields))
  }

  // ---------- the length pass ----------

  /** What the program allocates: it walks the schema as it was written down. */
  function Length(schemas: seq<Schema>, k: Kind, v: Value): nat
    decreases Size(v), 0, 0
  {
    match k
    case Utf8 => 3 + (if v.Text? then |v.text| else 0)
    case ArrayOf(e) => 6 + (if v.Items? then ItemsLength(schemas, e, v.items) else 0)
    case SetOf(e) => 7 + (if v.Items? then ItemsLength(schemas, e, v.items) else 0)
    case MapOf(key, value) => 7 + (if v.Entries? then EntriesLength(schemas, key, value, v.entries) else 0)
    case ObjectOf(id) => 2 + (if v.Record? && id < |schemas| then FieldsLength(schemas, schemas[id], v.fields) else 0)
    case Bool => 2
    case Dynamic => if v.Embedded? then Length(schemas, v.kind, v.inner) else 0
    case _ => 1 + (if IsInt(k) then IntWidth(Code(k)) else 8)
  }

  function ItemsLength(schemas: seq<Schema>, e: Kind, items: seq<Value>): nat
    decreases SizeItems(items), 1, |items|
  {
    if items == [] then 0 else Length(schemas, e, items[0]) + ItemsLength(schemas, e, items[1..])
  }

  function EntryLength(schemas: seq<Schema>, key: Kind, value: Kind, e: Entry): nat
    decreases SizeEntry(e), 1, 0
  {
    Length(schemas, key, e.key) + Length(schemas, value, e.value)
  }

  function EntriesLength(schemas: seq<Schema>, key: Kind, value: Kind, entries: seq<Entry>): nat
    decreases SizeEntries(entries), 2, |entries|
  {
    if entries == [] then 0
    else EntryLength(schemas, key, value, entries[0]) + EntriesLength(schemas, key, value, entries[1..])
  }

  function FieldsLength(schemas: seq<Schema>, columns: Schema, fields: seq<Field>): nat
    decreases SizeFields(fields), 1, |columns|
  {
    if columns == [] then 0
    else Length(schemas, columns[0].kind, Lookup(fields, columns[0].name)) + FieldsLength(schemas, columns[1..], fields)
  }

  // ---------- writing ----------

  /** Negative numbers are written in two's complement. */
  function IntBytes(k: Kind, n: int): Bytes
    requires IsInt(k)
  {
    var w := IntWidth(Code(k));
    BigEndian(n % Pow256(w), w)
  }

  function WordBytes(n: nat): Bytes {
    BigEndian(HighWord(n), 4) + BigEndian(LowWord(n), 4)
  }

  function NumberOf(v: Value): nat {
    if v.Num? && v.n >= 0 then v.n else 0
  }

  function TextOf(v: Value): Bytes {
    if v.Text? then v.text else []
  }

  function ArrayBytes(element: Byte, body: Bytes): Bytes {
    [ARRAY, element] + (BigEndian(|body|, 4) + body)
  }

  function Encode(schemas: seq<Schema>, k: Kind, v: Value): Bytes
    requires Fits(schemas, k, v)
    decreases Size(v), 0, 0
  {
    match k
    case Uint64 => [6] + WordBytes(NumberOf(v))
    case Number64 => [14] + WordBytes(NumberOf(v))
    case Double => [7] + v.bits
    case Utf8 => [8] + (BigEndian(|TextOf(v)|, 2) + TextOf(v))
    case ArrayOf(e) => ArrayBytes(Code(e), EncodeItems(schemas, e, v.items))
    case SetOf(e) => [11] + ArrayBytes(Code(e), EncodeItems(schemas, e, v.items))
    case MapOf(key, value) =>
      var body := EncodeEntries(schemas, key, value, v.entries);
      [12, Code(key), Code(value)] + (BigEndian(|body|, 4) + body)
    case ObjectOf(id) =>
      SortedFit(schemas, schemas[id], v.fields);
      [10, id] + EncodeFields(schemas, SortColumns(schemas[id]), v.fields)
    case Bool => [13, if v.Flag? && v.flag then 1 else 0]
    case Dynamic => Encode(schemas, v.kind, v.inner)
    case _ => [Code(k)] + IntBytes(k, v.n)
  }

  function EncodeItems(schemas: seq<Schema>, e: Kind, items: seq<Value>): Bytes
    requires AllFit(schemas, e, items)
    decreases SizeItems(items), 1, |items|
  {
    if items == [] then [] else Encode(schemas, e, items[0]) + EncodeItems(schemas, e, items[1..])
  }

  /** A pair of a map: its key, then its value. */
  function EncodeEntry(schemas: seq<Schema>, key: Kind, value: Kind, e: Entry): Bytes
    requires EntryFits(schemas, key, value, e)
    decreases SizeEntry(e), 1, 0
  {
    Encode(schemas, key, e.key) + Encode(schemas, value, e.value)
  }

  function EncodeEntries(schemas: seq<Schema>, key: Kind, value: Kind, entries: seq<Entry>): Bytes
    requires EntriesFit(schemas, key, value, entries)
    decreases SizeEntries(entries), 2, |entries|
  {
    if entries == [] then []
    else EncodeEntry(schemas, key, value, entries[0]) + EncodeEntries(schemas, key, value, entries[1..])
  }

  function EncodeFields(schemas: seq<Schema>, columns: Schema, fields: seq<Field>): Bytes
    requires FieldsFit(schemas, columns, fields)
    decreases SizeFields(fields), 1, |columns|
  {
    if columns == [] then []
    else
      Encode(schemas, columns[0].kind, Lookup(fields, columns[0].name)) + EncodeFields(schemas, columns[1..], fields)
  }

  // ---------- columns in another order ----------

  lemma {:induction false} FieldsFitAll(schemas: seq<Schema>, columns: Schema, fields: seq<Field>)
    ensures FieldsFit(schemas, columns, fields) <==>
              forall i :: 0 <= i < |columns| ==> Fits(schemas, columns[i].kind, Lookup(fields, columns[i].name))
  {
    hide Fits, Lookup;
    if columns != [] {
      FieldsFitAll(schemas, columns[1..], fields);
      assert forall i :: 0 < i < |columns| ==> columns[i] == columns[1..][i - 1];
    }
  }

  lemma SortedFit(schemas: seq<Schema>, columns: Schema, fields: seq<Field>)
    requires FieldsFit(schemas, columns, fields)
    ensures FieldsFit(schemas, SortColumns(columns), fields)
  {
    hide Fits, Lookup, FieldsFit, SortColumns;
    var sorted := SortColumns(columns);
    FieldsFitAll(schemas, columns, fields);
    FieldsFitAll(schemas, sorted, fields);
    SortColumnsIs(columns);
    forall i | 0 <= i < |sorted|
      ensures Fits(schemas, sorted[i].kind, Lookup(fields, sorted[i].name))
    {
      assert sorted[i] in multiset(columns);
      var j :| 0 <= j < |columns| && columns[j] == sorted[i];
    }
  }

  // ---------- lengths ----------

  lemma {:induction false} FieldsLengthConcat(schemas: seq<Schema>, a: Schema, b: Schema, fields: seq<Field>)
    ensures FieldsLength(schemas, a + b, fields) == FieldsLength(schemas, a, fields) + FieldsLength(schemas, b, fields)
    decreases |a|
  {
    hide Length, Lookup;
    if a == [] {
      assert a + b == b;
    } else {
      assert (a + b)[1..] == a[1..] + b;
      FieldsLengthConcat(schemas, a[1..], b, fields);
    }
  }

  lemma {:induction false} InsertLength(schemas: seq<Schema>, s: Schema, c: Column, fields: seq<Field>)
    ensures FieldsLength(schemas, InsertColumn(s, c), fields) ==
              FieldsLength(schemas, s, fields) + FieldsLength(schemas, [c], fields)
    decreases |s|
  {
    hide FieldsLength, Precedes;
    if s == [] {
      FieldsLengthConcat(schemas, s, [c], fields);
    } else if Precedes(s[|s| - 1].name, c.name) {
      FieldsLengthConcat(schemas, s, [c], fields);
    } else {
      var init, last := s[..|s| - 1], s[|s| - 1];
      InsertLength(schemas, init, c, fields);
      assert s == init + [last];
      FieldsLengthConcat(schemas, init, [last], fields);
      FieldsLengthConcat(schemas, InsertColumn(init, c), [last], fields);
    }
    NoColumns(schemas, fields);
  }

  lemma NoColumns(schemas: seq<Schema>, fields: seq<Field>)
    ensures FieldsLength(schemas, [], fields) == 0
  {
  }

  /** Walking the columns in sorted order gives the same length. */
  lemma {:induction false} SortedLength(schemas: seq<Schema>, s: Schema, fields: seq<Field>)
    ensures FieldsLength(schemas, SortColumns(s), fields) == FieldsLength(schemas, s, fields)
    decreases |s|
  {
    hide FieldsLength, InsertColumn;
    if s != [] {
      var init, last := s[..|s| - 1], s[|s| - 1];
      SortedLength(schemas, init, fields);
      InsertLength(schemas, SortColumns(init), last, fields);
      assert s == init + [last];
      FieldsLengthConcat(schemas, init, [last], fields);
    }
  }

  /** MAIN: the length pass, over the schema as written down, gives exactly the
      number of bytes that writing in sorted order produces. */
  lemma {:induction false} LengthIsWritten(schemas: seq<Schema>, k: Kind, v: Value)
    requires Fits(schemas, k, v)
    ensures |Encode(schemas, k, v)| == Length(schemas, k, v) > 0
    decreases Size(v), 0, 0
  {
    hide SortColumns, Lookup, HighWord, LowWord, BigEndian, IntBytes;
    match k {
      case ArrayOf(e) => ItemsWritten(schemas, e, v.items);
      case SetOf(e) => ItemsWritten(schemas, e, v.items);
      case MapOf(key, value) => EntriesWritten(schemas, key, value, v.entries);
      case ObjectOf(id) =>
        SortedFit(schemas, schemas[id], v.fields);
        FieldsWritten(schemas, SortColumns(schemas[id]), v.fields);
        SortedLength(schemas, schemas[id], v.fields);
      case Dynamic => LengthIsWritten(schemas, v.kind, v.inner);
      case _ => IntLength(k, v);
    }
  }

  lemma IntLength(k: Kind, v: Value)
    ensures IsInt(k) && v.Num? ==> |IntBytes(k, v.n)| == IntWidth(Code(k))
  {
  }

  lemma {:induction false} ItemsWritten(schemas: seq<Schema>, e: Kind, items: seq<Value>)
    requires AllFit(schemas, e, items)
    ensures |EncodeItems(schemas, e, items)| == ItemsLength(schemas, e, items)
    decreases SizeItems(items), 1, |items|
  {
    hide Encode, Fits, Length;
    if items != [] {
      LengthIsWritten(schemas, e, items[0]);
      ItemsWritten(schemas, e, items[1..]);
    }
  }

  lemma EntryWritten(schemas: seq<Schema>, key: Kind, value: Kind, e: Entry)
    requires EntryFits(schemas, key, value, e)
    ensures |EncodeEntry(schemas, key, value, e)| == EntryLength(schemas, key, value, e) > 0
    decreases SizeEntry(e), 1, 0
  {
    hide Encode, Fits, Length;
    LengthIsWritten(schemas, key, e.key);
    LengthIsWritten(schemas, value, e.value);
  }

  /** The first pair of a map, and the others. */
  lemma EntriesParts(schemas: seq<Schema>, key: Kind, value: Kind, entries: seq<Entry>)
    requires EntriesFit(schemas, key, value, entries) && entries != []
    ensures EntryFits(schemas, key, value, entries[0]) && EntriesFit(schemas, key, value, entries[1..])
    ensures SizeEntry(entries[0]) <= SizeEntries(entries) && SizeEntries(entries[1..]) <= SizeEntries(entries)
  {
    hide EntryFits, SizeEntry;
  }

  lemma EntriesBytes(schemas: seq<Schema>, key: Kind, value: Kind, entries: seq<Entry>)
    requires EntriesFit(schemas, key, value, entries) && entries != []
    requires EntryFits(schemas, key, value, entries[0]) && EntriesFit(schemas, key, value, entries[1..])
    ensures EntriesLength(schemas, key, value, entries) ==
              EntryLength(schemas, key, value, entries[0]) + EntriesLength(schemas, key, value, entries[1..])
    ensures EncodeEntries(schemas, key, value, entries) ==
              EncodeEntry(schemas, key, value, entries[0]) + EncodeEntries(schemas, key, value, entries[1..])
  {
    hide EntryFits, EntriesFit, EncodeEntry, EntryLength;
  }

  lemma EntriesPlain(schemas: seq<Schema>, key: Kind, value: Kind, entries: seq<Entry>)
    requires EntriesFit(schemas, key, value, entries) && entries != []
    requires EntryFits(schemas, key, value, entries[0]) && EntriesFit(schemas, key, value, entries[1..])
    ensures PlainEntries(schemas, key, value, entries) ==
              [PlainEntry(schemas, key, value, entries[0])] + PlainEntries(schemas, key, value, entries[1..])
  {
    hide EntryFits, EntriesFit, PlainEntry;
  }

  lemma EntriesNone(schemas: seq<Schema>, key: Kind, value: Kind)
    ensures EntriesFit(schemas, key, value, [])
    ensures EntriesLength(schemas, key, value, []) == 0 && EncodeEntries(schemas, key, value, []) == []
    ensures PlainEntries(schemas, key, value, []) == []
  {
  }

  lemma {:induction false} EntriesWritten(schemas: seq<Schema>, key: Kind, value: Kind, entries: seq<Entry>)
    requires EntriesFit(schemas, key, value, entries)
    ensures |EncodeEntries(schemas, key, value, entries)| == EntriesLength(schemas, key, value, entries)
    decreases SizeEntries(entries), 2, |entries|
  {
    hide *;
    if entries == [] {
      EntriesNone(schemas, key, value);
    } else {
      EntriesParts(schemas, key, value, entries);
      EntriesBytes(schemas, key, value, entries);
      EntryWritten(schemas, key, value, entries[0]);
      EntriesWritten(schemas, key, value, entries[1..]);
    }
  }

  lemma {:induction false} FieldsWritten(schemas: seq<Schema>, columns: Schema, fields: seq<Field>)
    requires FieldsFit(schemas, columns, fields)
    ensures |EncodeFields(schemas, columns, fields)| == FieldsLength(schemas, columns, fields)
    decreases SizeFields(fields), 1, |columns|
  {
    hide Encode, Fits, Length, Lookup;
    if columns != [] {
      LengthIsWritten(schemas, columns[0].kind, Lookup(fields, columns[0].name));
      FieldsWritten(schemas, columns[1..], fields);
    }
  }

  // ---------- reading ----------

  datatype Parsed<+T> = Failed | Parsed(value: T, end: nat)

  function Left(buf: Bytes, off: nat): nat {
    if off < |buf| then |buf| - off else 0
  }

  function WordAt(buf: Bytes, off: nat, w: nat): Option<nat> {
    if off + w <= |buf| then Some(FromBigEndian(buf[off..off + w])) else None
  }

  function FromUnsigned(code: int, m: nat): int {
    var full := Pow256(IntWidth(code));
    if IsSigned(code) && m >= full / 2 then m - full else m
  }

  /** A set keeps the first of equal items. */
  function Unique(s: seq<Value>): seq<Value> {
    if s == [] then []
    else
      var r := Unique(s[..|s| - 1]);
      if s[|s| - 1] in r then r else r + [s[|s| - 1]]
  }

  /** A map keeps the place of a key and its last value. */
  function SetEntry(r: seq<Entry>, e: Entry): seq<Entry> {
    if r == [] then [e]
    else if r[0].key == e.key then [e] + r[1..]
    else [r[0]] + SetEntry(r[1..], e)
  }

  function MapFrom(s: seq<Entry>): seq<Entry> {
    if s == [] then [] else SetEntry(MapFrom(s[..|s| - 1]), s[|s| - 1])
  }

  /** Reading a value without parts at an offset; it fails where the program would
      throw. Every value takes at least one byte. */
  function ReadSimple(code: Byte, buf: Bytes, off: nat): (r: Parsed<Value>)
    ensures r.Parsed? ==> off < |buf| && r.end > off
  {
    if off >= |buf| then Failed
    else if code <= 5 then
      match WordAt(buf, off + 1, IntWidth(code))
      case None => Failed
      case Some(m) => Parsed(Num(FromUnsigned(code, m)), off + 1 + IntWidth(code))
    else if code == 6 || code == 14 then
      if off + 9 > |buf| then Failed
      else Parsed(Num(Joined(FromBigEndian(buf[off + 1..off + 5]), FromBigEndian(buf[off + 5..off + 9]))), off + 9)
    else if code == 7 then
      if off + 9 > |buf| then Failed else Parsed(Bits(buf[off + 1..off + 9]), off + 9)
    else if code == 8 then
      match WordAt(buf, off + 1, 2)
      case None => Failed
      case Some(size) =>
        var start := off + 3;
        Parsed(Text(buf[start..if start + size <= |buf| then start + size else |buf|]), start + size)
    else
      if off + 1 >= |buf| then Failed else Parsed(Flag(buf[off + 1] != 0), off + 2)
  }

  // ---------- what reading returns ----------

  /** The value without what the type does not keep: other properties of an object,
      the type of an embedded buffer, a missing number, flag or text. */
  function Plain(schemas: seq<Schema>, k: Kind, v: Value): Value
    requires Fits(schemas, k, v)
    decreases Size(v), 0, 0
  {
    match k
    case Uint64 => Num(NumberOf(v))
    case Number64 => Num(NumberOf(v))
    case Utf8 => Text(TextOf(v))
    case Bool => Flag(v.Flag? && v.flag)
    case ArrayOf(e) => Items(PlainItems(schemas, e, v.items))
    case SetOf(e) => Items(PlainItems(schemas, e, v.items))
    case MapOf(key, value) => Entries(PlainEntries(schemas, key, value, v.entries))
    case ObjectOf(id) =>
      SortedFit(schemas, schemas[id], v.fields);
      Record(PlainFields(schemas, SortColumns(schemas[id]), v.fields))
    case Dynamic => Plain(schemas, v.kind, v.inner)
    case _ => v
  }

  function PlainItems(schemas: seq<Schema>, e: Kind, items: seq<Value>): seq<Value>
    requires AllFit(schemas, e, items)
    decreases SizeItems(items), 1, |items|
  {
    if items == [] then [] else [Plain(schemas, e, items[0])] + PlainItems(schemas, e, items[1..])
  }

  function PlainEntry(schemas: seq<Schema>, key: Kind, value: Kind, e: Entry): Entry
    requires EntryFits(schemas, key, value, e)
    decreases SizeEntry(e), 1, 0
  {
    Entry(Plain(schemas, key, e.key), Plain(schemas, value, e.value))
  }

  function PlainEntries(schemas: seq<Schema>, key: Kind, value: Kind, entries: seq<Entry>): seq<Entry>
    requires EntriesFit(schemas, key, value, entries)
    decreases SizeEntries(entries), 2, |entries|
  {
    if entries == [] then []
    else [PlainEntry(schemas, key, value, entries[0])] + PlainEntries(schemas, key, value, entries[1..])
  }

  function PlainFields(schemas: seq<Schema>, columns: Schema, fields: seq<Field>): seq<Field>
    requires FieldsFit(schemas, columns, fields)
    decreases SizeFields(fields), 1, |columns|
  {
    if columns == [] then []
    else
      [Field(columns[0].name, Plain(schemas, columns[0].kind, Lookup(fields, columns[0].name)))] +
      PlainFields(schemas, columns[1..], fields)
  }

  // ---------- the round trip ----------

  /** The buffer holds these bytes at this offset; anything may come before and after. */
  predicate Holds(buf: Bytes, off: nat, bytes: Bytes) {
    off + |bytes| <= |buf| && buf[off..off + |bytes|] == bytes
  }

  lemma HoldsParts(buf: Bytes, off: nat, a: Bytes, b: Bytes)
    requires Holds(buf, off, a + b)
    ensures Holds(buf, off, a) && Holds(buf, off + |a|, b)
  {
    var both := buf[off..off + |a + b|];
    assert buf[off..off + |a|] == both[..|a|];
    assert buf[off + |a|..off + |a| + |b|] == both[|a|..];
  }

  lemma HoldsByte(buf: Bytes, off: nat, bytes: Bytes, i: nat)
    requires Holds(buf, off, bytes) && i < |bytes|
    ensures off + i < |buf| && buf[off + i] == bytes[i]
  {
    assert buf[off..off + |bytes|][i] == bytes[i];
  }

  lemma WordBack(buf: Bytes, off: nat, n: nat, w: nat)
    requires n < Pow256(w) && Holds(buf, off, BigEndian(n, w))
    ensures WordAt(buf, off, w) == Some(n)
  {
    BigEndianBack(n, w);
  }

  lemma IntBack(k: Kind, n: int)
    requires IsInt(k) && IntMin(k) <= n <= IntMax(k)
    ensures var w := IntWidth(Code(k));
      0 <= n % Pow256(w) < Pow256(w) && FromUnsigned(Code(k), n % Pow256(w)) == n
  {
    WidthBounds();
  }

  lemma IntRoundTrip(k: Kind, n: int, buf: Bytes, off: nat)
    requires IsInt(k) && IntMin(k) <= n <= IntMax(k) && Holds(buf, off, [Code(k)] + IntBytes(k, n))
    ensures ReadSimple(Code(k), buf, off) == Parsed(Num(n), off + 1 + IntWidth(Code(k)))
  {
    hide BigEndian, FromBigEndian, Pow256, FromUnsigned;
    IntBack(k, n);
    HoldsParts(buf, off, [Code(k)], IntBytes(k, n));
    WordBack(buf, off + 1, n % Pow256(IntWidth(Code(k))), IntWidth(Code(k)));
  }

  lemma WordsRoundTrip(code: Byte, n: nat, buf: Bytes, off: nat)
    requires (code == 6 || code == 14) && n < WORD * WORD && Holds(buf, off, [code] + WordBytes(n))
    ensures ReadSimple(code, buf, off) == Parsed(Num(n), off + 9)
  {
    hide BigEndian, FromBigEndian, Pow256, HighWord, LowWord, Joined;
    SplitIsDivision(n);
    WidthBounds();
    JoinSplit(n);
    BigEndianBack(HighWord(n), 4);
    BigEndianBack(LowWord(n), 4);
    HoldsParts(buf, off, [code], WordBytes(n));
    HoldsParts(buf, off + 1, BigEndian(HighWord(n), 4), BigEndian(LowWord(n), 4));
  }

  lemma TextRoundTrip(text: Bytes, buf: Bytes, off: nat)
    requires |text| < 0x1_0000 && Holds(buf, off, [8] + (BigEndian(|text|, 2) + text))
    ensures ReadSimple(8, buf, off) == Parsed(Text(text), off + 3 + |text|)
  {
    hide BigEndian, FromBigEndian, Pow256, Holds, WordAt;
    WidthBounds();
    HoldsParts(buf, off, [8], BigEndian(|text|, 2) + text);
    HoldsParts(buf, off + 1, BigEndian(|text|, 2), text);
    HoldsIs(buf, off + 1, BigEndian(|text|, 2));
    HoldsIs(buf, off + 3, text);
    WordBack(buf, off + 1, |text|, 2);
  }

  lemma HoldsIs(buf: Bytes, off: nat, bytes: Bytes)
    requires Holds(buf, off, bytes)
    ensures off + |bytes| <= |buf| && buf[off..off + |bytes|] == bytes
  {
  }

  /** Values of the types without parts. */
  lemma SimpleRoundTrip(schemas: seq<Schema>, k: Kind, v: Value, buf: Bytes, off: nat)
    requires IsSimple(k) && Fits(schemas, k, v) && Holds(buf, off, Encode(schemas, k, v))
    ensures ReadSimple(Code(k), buf, off) == Parsed(Plain(schemas, k, v), off + |Encode(schemas, k, v)|)
  {
    hide BigEndian, FromBigEndian, Pow256, HighWord, LowWord, Joined;
    if IsInt(k) {
      IntRoundTrip(k, v.n, buf, off);
    } else if k.Uint64? || k.Number64? {
      WordsRoundTrip(Code(k), NumberOf(v), buf, off);
    } else if k.Double? {
      HoldsParts(buf, off, [7], v.bits);
    } else if k.Utf8? {
      TextRoundTrip(TextOf(v), buf, off);
    } else {
      HoldsByte(buf, off, Encode(schemas, k, v), 0);
      HoldsByte(buf, off, Encode(schemas, k, v), 1);
    }
  }

  // ---------- sets and maps ----------

  lemma {:induction false} UniqueDistinct(s: seq<Value>)
    requires DistinctItems(s)
    ensures Unique(s) == s
  {
    if s != [] {
      UniqueDistinct(s[..|s| - 1]);
    }
  }

  lemma {:induction false} SetEntryNew(r: seq<Entry>, e: Entry)
    requires forall i :: 0 <= i < |r| ==> r[i].key != e.key
    ensures SetEntry(r, e) == r + [e]
  {
    if r != [] {
      SetEntryNew(r[1..], e);
    }
  }

  lemma {:induction false} MapDistinct(s: seq<Entry>)
    requires DistinctKeys(s)
    ensures MapFrom(s) == s
  {
    if s != [] {
      MapDistinct(s[..|s| - 1]);
      SetEntryNew(s[..|s| - 1], s[|s| - 1]);
    }
  }

  lemma SimplePlain(schemas: seq<Schema>, k: Kind, v: Value)
    requires IsSimple(k) && Fits(schemas, k, v) && !v.Missing?
    ensures Plain(schemas, k, v) == v
  {
  }

  lemma {:induction false} SimpleItems(schemas: seq<Schema>, e: Kind, items: seq<Value>)
    requires IsSimple(e) && AllFit(schemas, e, items) && forall i :: 0 <= i < |items| ==> !items[i].Missing?
    ensures PlainItems(schemas, e, items) == items
    decreases |items|
  {
    hide Plain, Fits;
    if items != [] {
      SimplePlain(schemas, e, items[0]);
      SimpleItems(schemas, e, items[1..]);
    }
  }

  lemma {:induction false} SimpleKeys(schemas: seq<Schema>, key: Kind, value: Kind, entries: seq<Entry>)
    requires IsSimple(key) && EntriesFit(schemas, key, value, entries)
    requires forall i :: 0 <= i < |entries| ==> !entries[i].key.Missing?
    ensures var r := PlainEntries(schemas, key, value, entries);
      |r| == |entries| && forall i :: 0 <= i < |r| ==> r[i].key == entries[i].key
    decreases |entries|
  {
    hide Plain, Fits;
    if entries != [] {
      SimplePlain(schemas, key, entries[0].key);
      SimpleKeys(schemas, key, value, entries[1..]);
    }
  }

  lemma PlainMap(schemas: seq<Schema>, key: Kind, value: Kind, entries: seq<Entry>)
    requires IsSimple(key) && EntriesFit(schemas, key, value, entries) && DistinctKeys(entries)
    requires forall i :: 0 <= i < |entries| ==> !entries[i].key.Missing?
    ensures MapFrom(PlainEntries(schemas, key, value, entries)) == PlainEntries(schemas, key, value, entries)
  {
    hide EntriesFit, PlainEntries, MapFrom;
    SimpleKeys(schemas, key, value, entries);
    MapDistinct(PlainEntries(schemas, key, value, entries));
  }

  // ---------- values with parts ----------

  lemma FirstByte(schemas: seq<Schema>, k: Kind, v: Value)
    requires Fits(schemas, k, v) && !k.Dynamic?
    ensures |Encode(schemas, k, v)| > 0 && Encode(schemas, k, v)[0] == Code(k)
  {
    hide EncodeItems, EncodeEntries, EncodeFields, SortColumns, WordBytes, IntBytes, BigEndian;
  }

  lemma ArrayBody(code: Byte, body: Bytes, buf: Bytes, off: nat)
    requires Holds(buf, off, ArrayBytes(code, body))
    ensures Holds(buf, off + 6, body) && |ArrayBytes(code, body)| == 6 + |body|
  {
    hide BigEndian;
    HoldsParts(buf, off, [ARRAY, code], BigEndian(|body|, 4) + body);
    HoldsParts(buf, off + 2, BigEndian(|body|, 4), body);
  }

  lemma MapBody(key: Byte, value: Byte, body: Bytes, buf: Bytes, off: nat)
    requires |body| < WORD && Holds(buf, off, [12, key, value] + (BigEndian(|body|, 4) + body))
    ensures Holds(buf, off + 7, body) && WordAt(buf, off + 3, 4) == Some(|body|)
    ensures off + 2 < |buf| && buf[off + 1] == key && buf[off + 2] == value
  {
    hide BigEndian, FromBigEndian, Pow256;
    WidthBounds();
    HoldsParts(buf, off, [12, key, value], BigEndian(|body|, 4) + body);
    HoldsByte(buf, off, [12, key, value], 1);
    HoldsByte(buf, off, [12, key, value], 2);
    HoldsParts(buf, off + 3, BigEndian(|body|, 4), body);
    WordBack(buf, off + 3, |body|, 4);
  }

  // ---------- the parts of a value ----------

  lemma {:induction false} SizeItemAt(items: seq<Value>, i: nat)
    requires i < |items|
    ensures Size(items[i]) <= SizeItems(items)
  {
    hide Size;
    if i > 0 {
      SizeItemAt(items[1..], i - 1);
    }
  }

  lemma {:induction false} SizeEntryAt(entries: seq<Entry>, i: nat)
    requires i < |entries|
    ensures SizeEntry(entries[i]) <= SizeEntries(entries)
  {
    hide Size, SizeEntry;
    if i > 0 {
      SizeEntryAt(entries[1..], i - 1);
    }
  }

  lemma ItemsAt(schemas: seq<Schema>, e: Kind, items: seq<Value>, i: nat)
    requires i < |items| && AllFit(schemas, e, items[i..])
    ensures Fits(schemas, e, items[i]) && AllFit(schemas, e, items[i + 1..])
    ensures EncodeItems(schemas, e, items[i..]) == Encode(schemas, e, items[i]) + EncodeItems(schemas, e, items[i + 1..])
  {
    hide Fits, Encode;
    var s := items[i..];
    assert s[0] == items[i] && s[1..] == items[i + 1..];
  }

  lemma EntriesAt(schemas: seq<Schema>, key: Kind, value: Kind, entries: seq<Entry>, i: nat)
    requires i < |entries| && EntriesFit(schemas, key, value, entries[i..])
    ensures EntryFits(schemas, key, value, entries[i]) && EntriesFit(schemas, key, value, entries[i + 1..])
    ensures EncodeEntries(schemas, key, value, entries[i..]) ==
              EncodeEntry(schemas, key, value, entries[i]) + EncodeEntries(schemas, key, value, entries[i + 1..])
  {
    hide *;
    var s := entries[i..];
    assert s[0] == entries[i] && s[1..] == entries[i + 1..];
    EntriesParts(schemas, key, value, s);
    EntriesBytes(schemas, key, value, s);
  }

  lemma FieldsAt(schemas: seq<Schema>, columns: Schema, fields: seq<Field>, i: nat)
    requires i < |columns| && FieldsFit(schemas, columns[i..], fields)
    ensures var v := Lookup(fields, columns[i].name);
      && Fits(schemas, columns[i].kind, v) && FieldsFit(schemas, columns[i + 1..], fields)
      && EncodeFields(schemas, columns[i..], fields) ==
           Encode(schemas, columns[i].kind, v) + EncodeFields(schemas, columns[i + 1..], fields)
  {
    hide Fits, Encode, Lookup;
    var s := columns[i..];
    assert s[0] == columns[i] && s[1..] == columns[i + 1..];
  }

  lemma NoneLeft(schemas: seq<Schema>, e: Kind, key: Kind, fields: seq<Field>)
    ensures EncodeItems(schemas, e, []) == [] && EncodeFields(schemas, [], fields) == []
  {
  }

  /** An array or a set: its items and its bytes. */
  lemma ListParts(schemas: seq<Schema>, k: Kind, v: Value)
    requires (k.ArrayOf? || k.SetOf?) && Fits(schemas, k, v)
    ensures v.Items? && !k.element.Dynamic? && AllFit(schemas, k.element, v.items) && SizeItems(v.items) < Size(v)
    ensures ItemsLength(schemas, k.element, v.items) < WORD && |EncodeItems(schemas, k.element, v.items)| < WORD
    ensures var body := EncodeItems(schemas, k.element, v.items);
      && |ArrayBytes(Code(k.element), body)| == 6 + |body|
      && Encode(schemas, k, v) == (if k.SetOf? then [11] else []) + ArrayBytes(Code(k.element), body)
    ensures var items := PlainItems(schemas, k.element, v.items);
      Plain(schemas, k, v) == Items(items) && (k.SetOf? ==> Unique(items) == items)
  {
    hide ItemsLength, EncodeItems, PlainItems, AllFit, DistinctItems, Unique, BigEndian, SizeItems;
    ItemsWritten(schemas, k.element, v.items);
    var bytes := ArrayBytes(Code(k.element), EncodeItems(schemas, k.element, v.items));
    assert [] + bytes == bytes;
    if k.SetOf? {
      SimpleItems(schemas, k.element, v.items);
      UniqueDistinct(v.items);
    }
  }

  lemma MapParts(schemas: seq<Schema>, k: Kind, v: Value)
    requires k.MapOf? && Fits(schemas, k, v)
    ensures v.Entries? && !k.key.Dynamic? && !k.value.Dynamic? && EntriesFit(schemas, k.key, k.value, v.entries)
    ensures SizeEntries(v.entries) < Size(v)
    ensures var body := EncodeEntries(schemas, k.key, k.value, v.entries);
      |body| < WORD && Encode(schemas, k, v) == [12, Code(k.key), Code(k.value)] + (BigEndian(|body|, 4) + body)
    ensures var entries := PlainEntries(schemas, k.key, k.value, v.entries);
      Plain(schemas, k, v) == Entries(entries) && MapFrom(entries) == entries
  {
    hide EntriesLength, EncodeEntries, PlainEntries, EntriesFit, DistinctKeys, MapFrom, BigEndian, Code;
    EntriesWritten(schemas, k.key, k.value, v.entries);
    PlainMap(schemas, k.key, k.value, v.entries);
  }

  lemma ObjectParts(schemas: seq<Schema>, id: Byte, v: Value)
    requires Fits(schemas, ObjectOf(id), v)
    ensures v.Record? && id < |schemas| && FieldsFit(schemas, SortColumns(schemas[id]), v.fields) && SizeFields(v.fields) < Size(v)
    ensures Encode(schemas, ObjectOf(id), v) == [10, id] + EncodeFields(schemas, SortColumns(schemas[id]), v.fields)
    ensures Plain(schemas, ObjectOf(id), v) == Record(PlainFields(schemas, SortColumns(schemas[id]), v.fields))
  {
    hide EncodeFields, PlainFields, SortColumns, FieldsFit;
    SortedFit(schemas, schemas[id], v.fields);
  }
}
