/** shared/util/byteSerializer/models: writing into an allocated buffer at a moving
    offset, and the loops that read it back. */
module ByteSerializer {
  import opened Model
  import opened Words
  import opened Serializer
  import opened ReadModels
  import opened HonestReads
  import opened WriteModels
  import opened SharedSchemas

  // ---------- writing at an offset ----------

  /** Only the bytes at the offset have changed. */
  predicate Written(before: Bytes, after: Bytes, off: nat, bytes: Bytes) {
    off + |bytes| <= |before| && after == before[..off] + bytes + before[off + |bytes|..]
  }

  lemma WrittenNone(before: Bytes, off: nat)
    requires off <= |before|
    ensures Written(before, before, off, [])
  {
  }

  lemma WrittenThen(a: Bytes, b: Bytes, c: Bytes, off: nat, x: Bytes, y: Bytes)
    requires Written(a, b, off, x) && Written(b, c, off + |x|, y)
    ensures Written(a, c, off, x + y)
  {
    assert b[..off + |x|] == a[..off] + x;
    assert b[off + |x| + |y|..] == a[off + |x| + |y|..];
  }

  method WriteByte(buf: array<Byte>, b: Byte, off: nat) returns (next: nat)
    requires off < buf.Length
    modifies buf
    ensures next == off + 1 && Written(old(buf[..]), buf[..], off, [b])
  {
    buf[off] := b;
    next := off + 1;
  }

  /** Two bytes of a header, one after the other. */
  method WriteTypes(buf: array<Byte>, a: Byte, b: Byte, off: nat) returns (next: nat)
    requires off + 1 < buf.Length
    modifies buf
    ensures next == off + 2 && Written(old(buf[..]), buf[..], off, [a, b])
  {
    next := WriteByte(buf, a, off);
    next := WriteByte(buf, b, next);
  }

  method WriteBytes(buf: array<Byte>, bytes: Bytes, off: nat) returns (next: nat)
    requires off + |bytes| <= buf.Length
    modifies buf
    ensures next == off + |bytes| && Written(old(buf[..]), buf[..], off, bytes)
  {
    for i := 0 to |bytes|
      invariant forall j :: 0 <= j < i ==> buf[off + j] == bytes[j]
      invariant forall j :: 0 <= j < off || off + i <= j < buf.Length ==> buf[j] == old(buf[j])
    {
      buf[off + i] := bytes[i];
    }
    next := off + |bytes|;
    assert buf[off..next] == bytes;
    assert buf[..] == buf[..off] + buf[off..next] + buf[next..];
  }

  /** An unsigned number of `w` bytes, the highest byte first. */
  method WriteUInt(buf: array<Byte>, n: nat, w: nat, off: nat) returns (next: nat)
    requires off + w <= buf.Length
    modifies buf
    ensures next == off + w && Written(old(buf[..]), buf[..], off, BigEndian(n, w))
  {
    next := WriteBytes(buf, BigEndian(n, w), off);
  }

  // ---------- 64-bit numbers ----------

  method StringNullGenerator(count: int) returns (str: string)
    ensures str == Zeros(count)
  {
    str := "";
    for i := 0 to if count < 0 then 0 else count
      invariant str == Zeros(i)
    {
      str := "0" + str;
    }
  }

  method Pad(s: string, width: nat) returns (r: string)
    ensures r == Padded(s, width)
  {
    var zeros := StringNullGenerator(width - |s|);
    r := zeros + s;
  }

  /** The binary text, padded and cut in two halves that are written as words. */
  method WriteWords(buf: array<Byte>, n: nat, off: nat) returns (next: nat)
    requires n < WORD * WORD && off + 8 <= buf.Length
    modifies buf
    ensures next == off + 8 && Written(old(buf[..]), buf[..], off, WordBytes(n))
  {
    hide BigEndian, BinaryText, Padded, ParseBinary, Written;
    ghost var before := buf[..];
    var bin := Pad(BinaryText(n), BODY_BINARY_LENGTH);
    WordPow();
    PaddedIs(n, BODY_BINARY_LENGTH);
    next := WriteUInt(buf, ParseBinary(bin[..BODY_BINARY_ALLOCATION]), 4, off);
    ghost var middle := buf[..];
    next := WriteUInt(buf, ParseBinary(bin[BODY_BINARY_ALLOCATION..BODY_BINARY_LENGTH]), 4, next);
    WrittenThen(before, middle, buf[..], off, BigEndian(HighWord(n), 4), BigEndian(LowWord(n), 4));
  }

  method ReadWords(buf: Bytes, off: nat) returns (n: nat)
    requires off + 8 <= |buf|
    ensures n == Joined(FromBigEndian(buf[off..off + 4]), FromBigEndian(buf[off + 4..off + 8]))
  {
    var firstPart := Pad(BinaryText(FromBigEndian(buf[off..off + 4])), BODY_BINARY_ALLOCATION);
    var secondPart := Pad(BinaryText(FromBigEndian(buf[off + 4..off + 8])), BODY_BINARY_ALLOCATION);
    n := ParseBinary(firstPart + secondPart);
  }

  // ---------- values ----------

  /** What follows the type byte of a value without parts. */
  function SimpleBody(k: Kind, v: Value): Bytes {
    match k
    case Uint64 => WordBytes(NumberOf(v))
    case Number64 => WordBytes(NumberOf(v))
    case Double => if v.Bits? then v.bits else []
    case Utf8 => BigEndian(|TextOf(v)|, 2) + TextOf(v)
    case Bool => [if v.Flag? && v.flag then 1 else 0]
    case _ => if IsInt(k) && v.Num? then IntBytes(k, v.n) else []
  }

  lemma SimpleIs(schemas: seq<Schema>, k: Kind, v: Value)
    requires IsSimple(k) && Fits(schemas, k, v)
    ensures Encode(schemas, k, v) == [Code(k)] + SimpleBody(k, v)
    ensures IsInt(k) ==> v.Num?
    ensures k.Uint64? || k.Number64? ==> NumberOf(v) < WORD * WORD
    ensures k.Double? ==> v.Bits?
  {
    hide WordBytes, IntBytes, BigEndian;
  }

  method WriteBody(k: Kind, v: Value, buf: array<Byte>, off: nat) returns (next: nat)
    requires IsSimple(k) && off + |SimpleBody(k, v)| <= buf.Length
    requires (IsInt(k) ==> v.Num?) && (k.Uint64? || k.Number64? ==> NumberOf(v) < WORD * WORD) && (k.Double? ==> v.Bits?)
    modifies buf
    ensures next == off + |SimpleBody(k, v)| && Written(old(buf[..]), buf[..], off, SimpleBody(k, v))
  {
    hide Written, BigEndian, HighWord, LowWord;
    if IsInt(k) {
      next := WriteUInt(buf, v.n % Pow256(IntWidth(Code(k))), IntWidth(Code(k)), off);
    } else if k.Uint64? || k.Number64? {
      next := WriteWords(buf, NumberOf(v), off);
    } else if k.Double? {
      next := WriteBytes(buf, v.bits, off);
    } else if k.Utf8? {
      ghost var before := buf[..];
      var text := TextOf(v);
      next := WriteUInt(buf, |text|, 2, off);
      ghost var counted := buf[..];
      next := WriteBytes(buf, text, next);
      WrittenThen(before, counted, buf[..], off, BigEndian(|text|, 2), text);
    } else {
      next := WriteByte(buf, if v.Flag? && v.flag then 1 else 0, off);
    }
  }

  /** Write a value without parts: its type byte, then its body. */
  method WriteSimpleAt(ghost schemas: seq<Schema>, k: Kind, v: Value, buf: array<Byte>, off: nat) returns (next: nat)
    requires IsSimple(k) && Fits(schemas, k, v) && off + |Encode(schemas, k, v)| <= buf.Length
    modifies buf
    ensures next == off + |Encode(schemas, k, v)| && Written(old(buf[..]), buf[..], off, Encode(schemas, k, v))
  {
    hide Written, SimpleBody, Encode, Fits;
    SimpleIs(schemas, k, v);
    ghost var before := buf[..];
    next := WriteByte(buf, Code(k), off);
    ghost var headed := buf[..];
    next := WriteBody(k, v, buf, next);
    WrittenThen(before, headed, buf[..], off, [Code(k)], SimpleBody(k, v));
  }

  // ---------- values with parts ----------

  // ---------- the parts of a value, one at a time ----------

  /** The bytes of the first `i` pairs. */
  ghost predicate EntriesDone(schemas: seq<Schema>, key: Kind, value: Kind, entries: seq<Entry>, i: nat, done: Bytes)
    requires EntriesFit(schemas, key, value, entries)
  {
    && i <= |entries| && EntriesFit(schemas, key, value, entries[i..])
    && EncodeEntries(schemas, key, value, entries) == done + EncodeEntries(schemas, key, value, entries[i..])
  }

  lemma EntriesStart(schemas: seq<Schema>, key: Kind, value: Kind, entries: seq<Entry>)
    requires EntriesFit(schemas, key, value, entries)
    ensures EntriesDone(schemas, key, value, entries, 0, [])
  {
    hide EntriesFit, EncodeEntries;
    assert entries[0..] == entries;
  }

  lemma EntryFitsAt(schemas: seq<Schema>, key: Kind, value: Kind, entries: seq<Entry>, i: nat, done: Bytes)
    requires EntriesFit(schemas, key, value, entries) && i < |entries| && EntriesDone(schemas, key, value, entries, i, done)
    ensures EntryFits(schemas, key, value, entries[i]) && SizeEntry(entries[i]) <= SizeEntries(entries)
  {
    hide EntriesFit, EncodeEntries, EncodeEntry, EntryFits, SizeEntries, SizeEntry;
    EntriesAt(schemas, key, value, entries, i);
    SizeEntryAt(entries, i);
  }

  lemma EntriesNext(schemas: seq<Schema>, key: Kind, value: Kind, entries: seq<Entry>, i: nat, done: Bytes, first: Bytes)
    requires EntriesFit(schemas, key, value, entries) && i < |entries| && EntriesDone(schemas, key, value, entries, i, done)
    requires EntryFits(schemas, key, value, entries[i])
    requires first == EncodeEntry(schemas, key, value, entries[i])
    ensures EntriesDone(schemas, key, value, entries, i + 1, done + first)
    ensures |done| + |first| <= |EncodeEntries(schemas, key, value, entries)|
  {
    hide EntriesFit, EncodeEntries, EncodeEntry, EntryFits, SizeEntries, SizeEntry;
    EntriesAt(schemas, key, value, entries, i);
    var rest := EncodeEntries(schemas, key, value, entries[i + 1..]);
    assert (done + first) + rest == done + (first + rest);
  }

  lemma EntriesEnd(schemas: seq<Schema>, key: Kind, value: Kind, entries: seq<Entry>, done: Bytes)
    requires EntriesFit(schemas, key, value, entries) && EntriesDone(schemas, key, value, entries, |entries|, done)
    ensures done == EncodeEntries(schemas, key, value, entries)
  {
    hide EntriesFit, EncodeEntries;
    assert entries[|entries|..] == [];
    EntriesNone(schemas, key, value);
  }

  lemma ElementIs(cells: Cells, element: nat, e: Kind)
    requires ElementRight(cells, Some(element), e, 0) && !e.Dynamic?
    ensures CodeOf(cells[element]) == Some(Code(e))
  {
  }

  lemma ObjectAgrees(s: Store, cells: Cells, id: Byte, v: Value)
    requires Fits(s.schemas, ObjectOf(id), v) && (v.Record? ==> FieldsAgree(s, WithObject(cells, id), id, 0, v.fields))
    ensures Agrees(s, WithObject(cells, id), |cells|, ObjectOf(id), v)
  {
    hide FieldsAgree, FieldsFit;
  }

  lemma FieldAgrees(s: Store, cells: Cells, id: nat, i: nat, fields: seq<Field>)
    requires FieldsAgree(s, cells, id, i, fields) && IsPlace(s, id, i)
    ensures var c := ColumnAt(s, id, i);
      Agrees(s, cells, s.refs[id][i], c.kind, Lookup(fields, c.name)) && FieldsAgree(s, cells, id, i + 1, fields)
  {
    hide Agrees, Lookup, ColumnAt;
  }

  /** The bytes of the first `i` columns. */
  ghost predicate FieldsDone(schemas: seq<Schema>, columns: Schema, fields: seq<Field>, i: nat, done: Bytes)
    requires FieldsFit(schemas, columns, fields)
  {
    && i <= |columns| && FieldsFit(schemas, columns[i..], fields)
    && EncodeFields(schemas, columns, fields) == done + EncodeFields(schemas, columns[i..], fields)
  }

  lemma FieldsStart(schemas: seq<Schema>, columns: Schema, fields: seq<Field>)
    requires FieldsFit(schemas, columns, fields)
    ensures FieldsDone(schemas, columns, fields, 0, [])
  {
    hide FieldsFit, EncodeFields;
    assert columns[0..] == columns;
  }

  lemma FieldsNext(schemas: seq<Schema>, columns: Schema, fields: seq<Field>, i: nat, done: Bytes)
    requires FieldsFit(schemas, columns, fields) && i < |columns| && FieldsDone(schemas, columns, fields, i, done)
    ensures var v := Lookup(fields, columns[i].name);
      && Fits(schemas, columns[i].kind, v) && Size(v) <= SizeFields(fields)
      && FieldsDone(schemas, columns, fields, i + 1, done + Encode(schemas, columns[i].kind, v))
      && |done| + |Encode(schemas, columns[i].kind, v)| <= |EncodeFields(schemas, columns, fields)|
  {
    hide FieldsFit, EncodeFields, Encode, Fits, Lookup, SizeFields, Size;
    FieldsAt(schemas, columns, fields, i);
    FieldSize(fields, columns[i].name);
    var first := Encode(schemas, columns[i].kind, Lookup(fields, columns[i].name));
    var rest := EncodeFields(schemas, columns[i + 1..], fields);
    assert (done + first) + rest == done + (first + rest);
  }

  lemma FieldsEnd(schemas: seq<Schema>, columns: Schema, fields: seq<Field>, done: Bytes)
    requires FieldsFit(schemas, columns, fields) && FieldsDone(schemas, columns, fields, |columns|, done)
    ensures done == EncodeFields(schemas, columns, fields)
  {
    hide FieldsFit, EncodeFields;
    assert columns[|columns|..] == [];
    NoneLeft(schemas, Bool, Bool, fields);
  }

  /** What a model that agrees with a type is. */
  lemma ModelFor(s: Store, cells: Cells, ref: nat, k: Kind, v: Value)
    requires Agrees(s, cells, ref, k, v)
    ensures ref < |cells|
    ensures var c := cells[ref];
      && (c.ValueCell? ==> IsSimple(k) && c.kind == k)
      && (c.BufferCell? ==> k.Dynamic?)
      && (c.ListCell? ==>
            && (if c.unique then k.SetOf? else k.ArrayOf?)
            && v.Items? && c.element.Some? && ItemsAgree(s, cells, c.element, k.element, v.items))
      && (c.MapCell? ==>
            && k.MapOf? && v.Entries? && !k.key.Dynamic? && !k.value.Dynamic? && c.pair.Some?
            && c.head == Some(Codes(Code(k.key), Code(k.value))) && EntriesAgree(s, cells, c.pair.value, k.key, k.value, v.entries))
      && (c.ObjectCell? ==> v.Record? && k.ObjectOf? && c.schema == Some(k.schema) && FieldsAgree(s, cells, k.schema, 0, v.fields))
  {
    hide AllAgree, EntriesAgree, FieldsAgree;
  }

  lemma MapSize(key: Byte, value: Byte, body: Bytes)
    ensures |[12, key, value] + (BigEndian(|body|, 4) + body)| == 7 + |body|
  {
    hide BigEndian;
  }

  /** The bytes of the first `i` items. */
  ghost predicate ItemsDone(schemas: seq<Schema>, e: Kind, items: seq<Value>, i: nat, done: Bytes)
    requires AllFit(schemas, e, items)
  {
    && i <= |items| && AllFit(schemas, e, items[i..])
    && EncodeItems(schemas, e, items) == done + EncodeItems(schemas, e, items[i..])
  }

  lemma ItemsStart(schemas: seq<Schema>, e: Kind, items: seq<Value>)
    requires AllFit(schemas, e, items)
    ensures ItemsDone(schemas, e, items, 0, [])
  {
    hide AllFit, EncodeItems;
    assert items[0..] == items;
  }

  lemma ItemsNext(schemas: seq<Schema>, e: Kind, items: seq<Value>, i: nat, done: Bytes)
    requires AllFit(schemas, e, items) && i < |items| && ItemsDone(schemas, e, items, i, done)
    ensures Fits(schemas, e, items[i]) && Size(items[i]) <= SizeItems(items)
    ensures var first := Encode(schemas, e, items[i]);
      ItemsDone(schemas, e, items, i + 1, done + first) && |done| + |first| <= |EncodeItems(schemas, e, items)|
  {
    hide AllFit, EncodeItems, Encode, Fits, SizeItems, Size;
    ItemsAt(schemas, e, items, i);
    SizeItemAt(items, i);
    var first := Encode(schemas, e, items[i]);
    var rest := EncodeItems(schemas, e, items[i + 1..]);
    assert (done + first) + rest == done + (first + rest);
  }

  lemma ItemsEnd(schemas: seq<Schema>, e: Kind, items: seq<Value>, done: Bytes)
    requires AllFit(schemas, e, items) && ItemsDone(schemas, e, items, |items|, done)
    ensures done == EncodeItems(schemas, e, items)
  {
    hide AllFit, EncodeItems;
    assert items[|items|..] == [];
    NoneLeft(schemas, e, e, []);
  }

  lemma {:induction false} ItemAgrees(s: Store, cells: Cells, element: nat, e: Kind, items: seq<Value>, i: nat)
    requires AllAgree(s, cells, element, e, items) && i < |items|
    ensures Agrees(s, cells, element, e, items[i])
  {
    hide Agrees;
    if i > 0 {
      ItemAgrees(s, cells, element, e, items[1..], i - 1);
    }
  }

  lemma {:induction false} EntryAgreesAt(s: Store, cells: Cells, pair: Places, key: Kind, value: Kind, entries: seq<Entry>, i: nat)
    requires EntriesAgree(s, cells, pair, key, value, entries) && i < |entries|
    ensures EntryAgrees(s, cells, pair, key, value, entries[i])
  {
    hide EntryAgrees;
    if i > 0 {
      EntryAgreesAt(s, cells, pair, key, value, entries[1..], i - 1);
    }
  }

  // ---------- the parts of a buffer, one at a time ----------

  /** The result of a loop that has read `done` and goes on from here. */
  function After<T>(done: seq<T>, rest: Outcome<seq<T>>): Outcome<seq<T>> {
    Outcome(rest.cells, match rest.result case Failed => Failed case Parsed(items, end) => Parsed(done + items, end))
  }

  lemma AfterOne<T>(done: seq<T>, item: T, rest: Outcome<seq<T>>)
    ensures After(done + [item], rest) == After(done, After([item], rest))
  {
    if rest.result.Parsed? {
      assert done + [item] + rest.result.value == done + ([item] + rest.result.value);
    }
  }

  lemma NothingAfter<T>(done: seq<T>, cells: Cells, off: nat)
    ensures After(done, Outcome(cells, Parsed([], off))) == Outcome(cells, Parsed(done, off))
  {
    assert done + [] == done;
  }

  lemma AfterNothing<T>(rest: Outcome<seq<T>>)
    ensures After([], rest) == rest
  {
    if rest.result.Parsed? {
      assert [] + rest.result.value == rest.result.value;
    }
  }

  lemma ItemsStep(s: Store, cells: Cells, ref: nat, buf: Bytes, off: nat, end: nat)
    ensures off >= end ==> ReadItems(s, cells, ref, buf, off, end) == Outcome(cells, Parsed([], off))
    ensures off < end && ElementOf(cells, ref).None? ==> ReadItems(s, cells, ref, buf, off, end) == Outcome(cells, Failed)
    ensures off < end && ElementOf(cells, ref).Some? ==>
              var first := Read(s, cells, ElementOf(cells, ref).value, buf, off);
              ReadItems(s, cells, ref, buf, off, end) ==
              if first.result.Failed? then Outcome(first.cells, Failed)
              else After([first.result.value], ReadItems(s, first.cells, ref, buf, first.result.end, end))
  {
    hide Read, Kept;
  }

  lemma EntriesStep(s: Store, cells: Cells, key: nat, value: nat, buf: Bytes, off: nat, end: nat)
    ensures off >= end ==> ReadEntries(s, cells, key, value, buf, off, end) == Outcome(cells, Parsed([], off))
    ensures off < end ==>
              var first := ReadEntry(s, cells, key, value, buf, off);
              ReadEntries(s, cells, key, value, buf, off, end) ==
              if first.result.Failed? then Outcome(first.cells, Failed)
              else After([first.result.value], ReadEntries(s, first.cells, key, value, buf, first.result.end, end))
  {
    hide ReadEntry, Kept;
  }

  lemma FieldsStep(s: Store, cells: Cells, id: nat, i: nat, buf: Bytes, off: nat)
    ensures !IsPlace(s, id, i) ==> ReadFields(s, cells, id, i, buf, off) == Outcome(cells, Parsed([], off))
    ensures IsPlace(s, id, i) && off >= |buf| ==>
              ReadFields(s, cells, id, i, buf, off) == ReadFields(s, cells, id, i + 1, buf, off)
    ensures IsPlace(s, id, i) && off < |buf| ==>
              var first := Read(s, cells, s.refs[id][i], buf, off);
              ReadFields(s, cells, id, i, buf, off) ==
              if first.result.Failed? then Outcome(first.cells, Failed)
              else After([Field(ColumnAt(s, id, i).name, first.result.value)], ReadFields(s, first.cells, id, i + 1, buf, first.result.end))
  {
    hide Read, Kept, ColumnAt;
  }

  lemma AfterFailed<T>(done: seq<T>, cells: Cells)
    ensures After(done, Outcome(cells, Failed)) == Outcome(cells, Failed)
  {
  }

  lemma Leftover(buf: Bytes, a: nat, b: nat)
    ensures a <= b ==> Left(buf, b) <= Left(buf, a)
    ensures a < |buf| && a < b ==> Left(buf, b) < Left(buf, a)
  {
  }

  lemma FreshCode(code: Byte)
    requires code <= 14
    ensures !Fresh(code).BufferCell?
  {
  }

  method ReadSimpleAt(code: Byte, buf: Bytes, off: nat) returns (r: Parsed<Value>)
    ensures r == ReadSimple(code, buf, off)
  {
    hide Joined, FromBigEndian, WordAt;
    if off < |buf| && (code == 6 || code == 14) {
      if off + 9 > |buf| {
        return Failed;
      }
      var n := ReadWords(buf, off + 1);
      r := Parsed(Num(n), off + 9);
    } else {
      r := ReadSimple(code, buf, off);
    }
  }

  // ---------- the shared models ----------

  /** The schema store of the process and the models of its columns. */
  class SchemaStore {
    var table: Store
    var cells: Cells

    ghost predicate Valid()
      reads this
    {
      Typed(table, cells)
    }

    constructor ()
      ensures Valid() && table.schemas == [] && AllIntact(table, cells)
    {
      table := Table([], []);
      cells := [];
    }

    /** Schemas are added in the order of their ids, each once. */
    method Add(id: nat, columns: Schema) returns (added: bool)
      requires Valid() && id <= |table.schemas|
      modifies this
      ensures Valid() && added == (id == |old(table.schemas)|)
      ensures table.schemas == old(table.schemas) + if added then [columns] else []
      ensures old(AllIntact(table, cells)) ==> AllIntact(table, cells)
    {
      if id < |table.schemas| {
        return false;
      }
      hide Typed, Intact, Extends, Aligned, AllIntact;
      var sorted := SortColumns(columns);
      var row: seq<nat> := [];
      ghost var before := cells;
      SameCells(cells);
      for i := 0 to |sorted|
        invariant table == old(table) && |row| == i && Extends(before, cells)
        invariant Increasing(row, |before|, |cells|)
        invariant forall j :: 0 <= j < i ==> Intact(cells, row[j], sorted[j].kind)
      {
        ghost var now := cells;
        DeclareIs(now, sorted[i].kind);
        cells := Declare(cells, sorted[i].kind);
        MakesParts(now, cells, sorted[i].kind);
        ExtendsThen(before, now, cells);
        ExtendsSize(before, now);
        forall j | 0 <= j < i
          ensures Intact(cells, row[j], sorted[j].kind)
        {
          IntactLater(now, cells, row[j], sorted[j].kind);
        }
        row := row + [|cells| - 1];
      }
      RowAdded(table, before, cells, columns, row);
      table := Table(table.schemas + [columns], table.refs + [row]);
      added := true;
    }

    // ---------- reading ----------

    /** The loop over the elements of an array: each turn reads by the element type the
        array has then. */
    method ReadElements(ref: nat, buf: Bytes, off: nat, end: nat) returns (r: Parsed<seq<Value>>)
      modifies this`cells
      ensures Outcome(cells, r) == ReadItems(table, old(cells), ref, buf, off, end)
      decreases Left(buf, off), 1, 0
    {
      hide *;
      var res: seq<Value> := [];
      var offset := off;
      AfterNothing(ReadItems(table, cells, ref, buf, off, end));
      while offset < end
        invariant offset >= off && table == old(table)
        invariant After(res, ReadItems(table, cells, ref, buf, offset, end)) == ReadItems(table, old(cells), ref, buf, off, end)
        decreases Left(buf, offset)
      {
        ItemsStep(table, cells, ref, buf, offset, end);
        var element := ElementOf(cells, ref);
        if element.None? {
          AfterFailed(res, cells);
          return Failed;
        }
        Leftover(buf, off, offset);
        var result := ReadAt(element.value, buf, offset);
        if result.Failed? {
          AfterFailed(res, cells);
          return Failed;
        }
        Leftover(buf, offset, result.end);
        AfterOne(res, result.value, ReadItems(table, cells, ref, buf, result.end, end));
        res := res + [result.value];
        offset := result.end;
      }
      ItemsStep(table, cells, ref, buf, offset, end);
      NothingAfter(res, cells, offset);
      r := Parsed(res, offset);
    }

    method ReadPair(key: nat, value: nat, buf: Bytes, off: nat) returns (r: Parsed<Entry>)
      modifies this`cells
      ensures Outcome(cells, r) == ReadEntry(table, old(cells), key, value, buf, off)
      ensures r.Parsed? ==> off < |buf| && r.end > off
      decreases Left(buf, off), 1, 0
    {
      hide Read, Kept;
      var first := ReadAt(key, buf, off);
      if first.Failed? {
        return Failed;
      }
      var second := ReadAt(value, buf, first.end);
      if second.Failed? {
        return Failed;
      }
      r := Parsed(Entry(first.value, second.value), second.end);
    }

    /** The loop over the pairs of a map. */
    method ReadPairs(key: nat, value: nat, buf: Bytes, off: nat, end: nat) returns (r: Parsed<seq<Entry>>)
      modifies this`cells
      ensures Outcome(cells, r) == ReadEntries(table, old(cells), key, value, buf, off, end)
      decreases Left(buf, off), 2, 0
    {
      hide *;
      var res: seq<Entry> := [];
      var offset := off;
      AfterNothing(ReadEntries(table, cells, key, value, buf, off, end));
      while offset < end
        invariant offset >= off && table == old(table)
        invariant After(res, ReadEntries(table, cells, key, value, buf, offset, end)) ==
                  ReadEntries(table, old(cells), key, value, buf, off, end)
        decreases Left(buf, offset)
      {
        EntriesStep(table, cells, key, value, buf, offset, end);
        Leftover(buf, off, offset);
        var result := ReadPair(key, value, buf, offset);
        if result.Failed? {
          AfterFailed(res, cells);
          return Failed;
        }
        Leftover(buf, offset, result.end);
        AfterOne(res, result.value, ReadEntries(table, cells, key, value, buf, result.end, end));
        res := res + [result.value];
        offset := result.end;
      }
      EntriesStep(table, cells, key, value, buf, offset, end);
      NothingAfter(res, cells, offset);
      r := Parsed(res, offset);
    }

    /** The loop over the columns of a schema. */
    method ReadColumns(id: nat, buf: Bytes, off: nat) returns (r: Parsed<seq<Field>>)
      requires id < |table.schemas|
      modifies this`cells
      ensures Outcome(cells, r) == ReadFields(table, old(cells), id, 0, buf, off)
      decreases Left(buf, off), 1, 0
    {
      hide *;
      var res: seq<Field> := [];
      var offset := off;
      AfterNothing(ReadFields(table, cells, id, 0, buf, off));
      PlaceIs(table, id, 0);
      var sorted := SortColumns(table.schemas[id]);
      for i := 0 to |sorted|
        invariant offset >= off && table == old(table)
        invariant After(res, ReadFields(table, cells, id, i, buf, offset)) == ReadFields(table, old(cells), id, 0, buf, off)
      {
        PlaceIs(table, id, i);
        FieldsStep(table, cells, id, i, buf, offset);
        if offset < |buf| {
          Leftover(buf, off, offset);
          var data := ReadAt(table.refs[id][i], buf, offset);
          if data.Failed? {
            AfterFailed(res, cells);
            return Failed;
          }
          var field := Field(sorted[i].name, data.value);
          AfterOne(res, field, ReadFields(table, cells, id, i + 1, buf, data.end));
          res := res + [field];
          offset := data.end;
        }
      }
      PlaceIs(table, id, |sorted|);
      FieldsStep(table, cells, id, |sorted|, buf, offset);
      NothingAfter(res, cells, offset);
      r := Parsed(res, offset);
    }

    method ReadListAt(ref: nat, buf: Bytes, off: nat) returns (r: Parsed<seq<Value>>)
      requires ref < |cells| && cells[ref].ListCell?
      modifies this`cells
      ensures Outcome(cells, r) == ReadList(table, old(cells), ref, buf, off)
      decreases Left(buf, off), 0, 0
    {
      hide ReadItems, WordAt, Kept, Fresh;
      if off + 1 >= |buf| {
        return Failed;
      }
      var elementPrimitiveTypeId := buf[off + 1];
      var sizeBody := WordAt(buf, off + 2, 4);
      if sizeBody.None? || elementPrimitiveTypeId > 14 {
        return Failed;
      }
      cells := TakeElement(cells, ref, elementPrimitiveTypeId);
      r := ReadElements(ref, buf, off + 6, off + 6 + sizeBody.value);
    }

    method ReadMapAt(ref: nat, buf: Bytes, off: nat) returns (r: Parsed<Value>)
      requires ref < |cells| && cells[ref].MapCell?
      modifies this`cells
      ensures Outcome(cells, r) == ReadMap(table, old(cells), ref, buf, off)
      decreases Left(buf, off), 0, 0
    {
      hide ReadEntries, WordAt, Kept, Fresh, MapFrom;
      if off + 2 >= |buf| || buf[off + 1] > 14 || buf[off + 2] > 14 {
        return Failed;
      }
      var place := |cells|;
      cells := TakePair(cells, ref, buf[off + 1], buf[off + 2]);
      var sizeBody := WordAt(buf, off + 3, 4);
      if sizeBody.None? {
        return Failed;
      }
      var pairs := ReadPairs(place, place + 1, buf, off + 7, off + 7 + sizeBody.value);
      if pairs.Failed? {
        return Failed;
      }
      r := Parsed(Entries(MapFrom(pairs.value)), pairs.end);
    }

    /** MAIN: the reader with its loops ends on every buffer, whatever was read before. */
    method ReadAt(ref: nat, buf: Bytes, off: nat) returns (r: Parsed<Value>)
      modifies this`cells
      ensures Outcome(cells, r) == Read(table, old(cells), ref, buf, off)
      ensures r.Parsed? ==> off < |buf| && r.end > off
      decreases Left(buf, off), 0, if ref < |cells| && cells[ref].BufferCell? then 2 else 1
    {
      hide ReadList, ReadMap, ReadFields, ReadSimple, Unique, Kept, Fresh, SortColumns, Aligned;
      if ref >= |cells| || off >= |buf| {
        return Failed;
      }
      match cells[ref] {
        case ValueCell(k) => r := ReadSimpleAt(Code(k), buf, off);
        case BufferCell =>
          if buf[off] > 14 {
            return Failed;
          }
          FreshCode(buf[off]);
          cells := cells + [Fresh(buf[off])];
          r := ReadAt(|cells| - 1, buf, off);
        case ObjectCell(_) =>
          if off + 1 >= |buf| || buf[off + 1] >= |table.schemas| {
            return Failed;
          }
          var fields := ReadColumns(buf[off + 1], buf, off + 2);
          if fields.Failed? {
            return Failed;
          }
          r := Parsed(Record(fields.value), fields.end);
        case ListCell(unique, _) =>
          var items := ReadListAt(ref, buf, if unique then off + 1 else off);
          if items.Failed? {
            return Failed;
          }
          r := Parsed(Items(if unique then Unique(items.value) else items.value), items.end);
        case MapCell(_, _) => r := ReadMapAt(ref, buf, off);
      }
    }

    /** Decode a buffer by the type byte it starts with; any schema may change its
        element types. */
    method Deserialize(buf: Bytes) returns (r: Parsed<Value>)
      requires Valid()
      modifies this`cells
      ensures Valid() && Outcome(cells, r) == Receive(table, old(cells), buf)
    {
      hide Typed, Read, Kept;
      TypedKept(table, cells, Receive(table, cells, buf).cells);
      cells := cells + [BufferCell];
      r := ReadAt(|cells| - 1, buf, 0);
    }

    // ---------- writing ----------

    method WriteItemsAt(element: nat, ghost e: Kind, items: seq<Value>, buf: array<Byte>, off: nat) returns (next: nat)
      requires Valid() && AllAgree(table, cells, element, e, items) && !e.Dynamic?
      requires AllFit(table.schemas, e, items) && off + |EncodeItems(table.schemas, e, items)| <= buf.Length
      modifies buf
      ensures next == off + |EncodeItems(table.schemas, e, items)|
      ensures Written(old(buf[..]), buf[..], off, EncodeItems(table.schemas, e, items))
      decreases SizeItems(items), 1, 0
    {
      hide *;
      ghost var before := buf[..];
      ghost var done: Bytes := [];
      WrittenNone(before, off);
      ItemsStart(table.schemas, e, items);
      next := off;
      for i := 0 to |items|
        invariant ItemsDone(table.schemas, e, items, i, done)
        invariant next == off + |done| && Written(before, buf[..], off, done)
      {
        ItemsNext(table.schemas, e, items, i, done);
        ItemAgrees(table, cells, element, e, items, i);
        ghost var middle := buf[..];
        ghost var first := Encode(table.schemas, e, items[i]);
        next := WriteValue(element, e, items[i], buf, next);
        WrittenThen(before, middle, buf[..], off, done, first);
        done := done + first;
      }
      ItemsEnd(table.schemas, e, items, done);
    }

    /** A pair of a map: its key, then its value. */
    method WriteEntryAt(pair: Places, ghost key: Kind, ghost value: Kind, e: Entry, buf: array<Byte>, off: nat) returns (next: nat)
      requires Valid() && EntryAgrees(table, cells, pair, key, value, e) && !key.Dynamic? && !value.Dynamic?
      requires EntryFits(table.schemas, key, value, e) && off + |EncodeEntry(table.schemas, key, value, e)| <= buf.Length
      modifies buf
      ensures next == off + |EncodeEntry(table.schemas, key, value, e)|
      ensures Written(old(buf[..]), buf[..], off, EncodeEntry(table.schemas, key, value, e))
      decreases SizeEntry(e), 0, 3
    {
      hide Written, Fits, Encode, Agrees, Typed, Size;
      ghost var before := buf[..];
      next := WriteValue(pair.key, key, e.key, buf, off);
      ghost var between := buf[..];
      next := WriteValue(pair.value, value, e.value, buf, next);
      WrittenThen(before, between, buf[..], off, Encode(table.schemas, key, e.key), Encode(table.schemas, value, e.value));
    }

    method WriteEntriesAt(pair: Places, ghost key: Kind, ghost value: Kind, entries: seq<Entry>, buf: array<Byte>, off: nat)
      returns (next: nat)
      requires Valid() && EntriesAgree(table, cells, pair, key, value, entries) && !key.Dynamic? && !value.Dynamic?
      requires EntriesFit(table.schemas, key, value, entries)
      requires off + |EncodeEntries(table.schemas, key, value, entries)| <= buf.Length
      modifies buf
      ensures next == off + |EncodeEntries(table.schemas, key, value, entries)|
      ensures Written(old(buf[..]), buf[..], off, EncodeEntries(table.schemas, key, value, entries))
      decreases SizeEntries(entries), 1, 0
    {
      hide *;
      ghost var before := buf[..];
      ghost var done: Bytes := [];
      WrittenNone(before, off);
      EntriesStart(table.schemas, key, value, entries);
      next := off;
      for i := 0 to |entries|
        invariant EntriesDone(table.schemas, key, value, entries, i, done)
        invariant next == off + |done| && Written(before, buf[..], off, done)
      {
        EntryFitsAt(table.schemas, key, value, entries, i, done);
        EntryAgreesAt(table, cells, pair, key, value, entries, i);
        ghost var middle := buf[..];
        ghost var first := EncodeEntry(table.schemas, key, value, entries[i]);
        EntriesNext(table.schemas, key, value, entries, i, done, first);
        next := WriteEntryAt(pair, key, value, entries[i], buf, next);
        WrittenThen(before, middle, buf[..], off, done, first);
        done := done + first;
      }
      EntriesEnd(table.schemas, key, value, entries, done);
    }

    method WriteFieldsAt(id: nat, fields: seq<Field>, buf: array<Byte>, off: nat) returns (next: nat)
      requires Valid() && id < |table.schemas| && FieldsAgree(table, cells, id, 0, fields)
      requires FieldsFit(table.schemas, SortColumns(table.schemas[id]), fields)
      requires off + |EncodeFields(table.schemas, SortColumns(table.schemas[id]), fields)| <= buf.Length
      modifies buf
      ensures next == off + |EncodeFields(table.schemas, SortColumns(table.schemas[id]), fields)|
      ensures Written(old(buf[..]), buf[..], off, EncodeFields(table.schemas, SortColumns(table.schemas[id]), fields))
      decreases SizeFields(fields), 1, 0
    {
      hide *;
      var sorted := SortColumns(table.schemas[id]);
      ghost var before := buf[..];
      ghost var done: Bytes := [];
      WrittenNone(before, off);
      FieldsStart(table.schemas, sorted, fields);
      next := off;
      for i := 0 to |sorted|
        invariant FieldsDone(table.schemas, sorted, fields, i, done) && FieldsAgree(table, cells, id, i, fields)
        invariant next == off + |done| && Written(before, buf[..], off, done)
      {
        FieldsNext(table.schemas, sorted, fields, i, done);
        PlaceIs(table, id, i);
        FieldAgrees(table, cells, id, i, fields);
        var v := Lookup(fields, sorted[i].name);
        ghost var middle := buf[..];
        ghost var first := Encode(table.schemas, sorted[i].kind, v);
        next := WriteValue(table.refs[id][i], sorted[i].kind, v, buf, next);
        WrittenThen(before, middle, buf[..], off, done, first);
        done := done + first;
      }
      FieldsEnd(table.schemas, sorted, fields, done);
    }

    /** An array: its type byte, the type byte its elements have now, its size and its
        items. */
    method WriteArrayAt(element: nat, ghost e: Kind, items: seq<Value>, buf: array<Byte>, off: nat) returns (next: nat)
      requires Valid() && ItemsAgree(table, cells, Some(element), e, items)
      requires AllFit(table.schemas, e, items) && |EncodeItems(table.schemas, e, items)| < WORD
      requires off + 6 + |EncodeItems(table.schemas, e, items)| <= buf.Length
      modifies buf
      ensures next == off + 6 + |EncodeItems(table.schemas, e, items)|
      ensures Written(old(buf[..]), buf[..], off, ArrayBytes(Code(e), EncodeItems(table.schemas, e, items)))
      decreases SizeItems(items), 2, 0
    {
      hide Written, AllAgree, AllFit, EncodeItems, BigEndian, Code, Typed, SizeItems;
      ghost var before := buf[..];
      ghost var body := EncodeItems(table.schemas, e, items);
      ItemsLengthAgrees(table, cells, element, e, items);
      ElementIs(cells, element, e);
      next := WriteTypes(buf, ARRAY, CodeOf(cells[element]).value, off);
      ghost var two := buf[..];
      next := WriteUInt(buf, GetItemsLength(table, cells, element, items), 4, next);
      ghost var three := buf[..];
      next := WriteItemsAt(element, e, items, buf, next);
      WrittenThen(two, three, buf[..], off + 2, BigEndian(|body|, 4), body);
      WrittenThen(before, two, buf[..], off, [ARRAY, Code(e)], BigEndian(|body|, 4) + body);
    }

    /** A map names the types it was declared with, and writes its pairs by those it has
        now. */
    method WriteMapAt(head: Codes, pair: Places, ghost key: Kind, ghost value: Kind, entries: seq<Entry>, buf: array<Byte>, off: nat)
      returns (next: nat)
      requires Valid() && EntriesAgree(table, cells, pair, key, value, entries)
      requires !key.Dynamic? && !value.Dynamic? && head == Codes(Code(key), Code(value))
      requires EntriesFit(table.schemas, key, value, entries) && |EncodeEntries(table.schemas, key, value, entries)| < WORD
      requires off + 7 + |EncodeEntries(table.schemas, key, value, entries)| <= buf.Length
      modifies buf
      ensures next == off + 7 + |EncodeEntries(table.schemas, key, value, entries)|
      ensures var body := EncodeEntries(table.schemas, key, value, entries);
        Written(old(buf[..]), buf[..], off, [12, Code(key), Code(value)] + (BigEndian(|body|, 4) + body))
      decreases SizeEntries(entries), 2, 0
    {
      hide Written, EntriesAgree, EntriesFit, EncodeEntries, BigEndian, Code, Typed, SizeEntries;
      ghost var before := buf[..];
      ghost var body := EncodeEntries(table.schemas, key, value, entries);
      EntriesLengthAgrees(table, cells, pair, key, value, entries);
      next := WriteByte(buf, 12, off);
      ghost var one := buf[..];
      next := WriteTypes(buf, head.key, head.value, next);
      ghost var three := buf[..];
      WrittenThen(before, one, three, off, [12], [head.key, head.value]);
      next := WriteUInt(buf, GetEntriesLength(table, cells, pair, entries), 4, next);
      ghost var four := buf[..];
      next := WriteEntriesAt(pair, key, value, entries, buf, next);
      WrittenThen(three, four, buf[..], off + 3, BigEndian(|body|, 4), body);
      assert [12] + [head.key, head.value] == [12, Code(key), Code(value)];
      WrittenThen(before, three, buf[..], off, [12, Code(key), Code(value)], BigEndian(|body|, 4) + body);
    }

    method WriteObjectAt(id: Byte, fields: seq<Field>, buf: array<Byte>, off: nat) returns (next: nat)
      requires Valid() && id < |table.schemas| && FieldsAgree(table, cells, id, 0, fields)
      requires FieldsFit(table.schemas, SortColumns(table.schemas[id]), fields)
      requires off + 2 + |EncodeFields(table.schemas, SortColumns(table.schemas[id]), fields)| <= buf.Length
      modifies buf
      ensures next == off + 2 + |EncodeFields(table.schemas, SortColumns(table.schemas[id]), fields)|
      ensures Written(old(buf[..]), buf[..], off, [10, id] + EncodeFields(table.schemas, SortColumns(table.schemas[id]), fields))
      decreases SizeFields(fields), 2, 0
    {
      hide Written, FieldsAgree, FieldsFit, EncodeFields, SortColumns, Typed, SizeFields;
      ghost var before := buf[..];
      next := WriteTypes(buf, 10, id, off);
      ghost var two := buf[..];
      next := WriteFieldsAt(id, fields, buf, next);
      WrittenThen(before, two, buf[..], off, [10, id], EncodeFields(table.schemas, SortColumns(table.schemas[id]), fields));
    }

    /** MAIN: by models that agree with its type, a value changes exactly the bytes of its
        encoding. */
    method WriteValue(ref: nat, ghost k: Kind, v: Value, buf: array<Byte>, off: nat) returns (next: nat)
      requires Valid() && Agrees(table, cells, ref, k, v)
      requires Fits(table.schemas, k, v) && off + |Encode(table.schemas, k, v)| <= buf.Length
      modifies buf
      ensures next == off + |Encode(table.schemas, k, v)|
      ensures Written(old(buf[..]), buf[..], off, Encode(table.schemas, k, v))
      decreases Size(v), 0, 2
    {
      hide *;
      ModelFor(table, cells, ref, k, v);
      var model := cells[ref];
      if model.ValueCell? {
        next := WriteSimpleAt(table.schemas, model.kind, v, buf, off);
      } else if model.BufferCell? {
        BufferParts(table.schemas, v);
        next := WriteBytes(buf, Encode(table.schemas, v.kind, v.inner), off);
      } else if model.ListCell? {
        ListParts(table.schemas, k, v);
        ghost var before := buf[..];
        ghost var bytes := ArrayBytes(Code(k.element), EncodeItems(table.schemas, k.element, v.items));
        WrittenNone(before, off);
        next := off;
        if model.unique {
          next := WriteByte(buf, 11, off);
        }
        ghost var one := buf[..];
        next := WriteArrayAt(model.element.value, k.element, v.items, buf, next);
        WrittenThen(before, one, buf[..], off, if model.unique then [11] else [], bytes);
      } else if model.MapCell? {
        MapParts(table.schemas, k, v);
        MapSize(Code(k.key), Code(k.value), EncodeEntries(table.schemas, k.key, k.value, v.entries));
        next := WriteMapAt(model.head.value, model.pair.value, k.key, k.value, v.entries, buf, off);
      } else {
        ObjectParts(table.schemas, k.schema, v);
        next := WriteObjectAt(model.schema.value, v.fields, buf, off);
      }
    }

    /** MAIN: allocating by the length pass and writing fills the buffer exactly. */
    method Create(ref: nat, ghost k: Kind, v: Value) returns (buf: array<Byte>)
      requires Valid() && Agrees(table, cells, ref, k, v) && Fits(table.schemas, k, v)
      ensures fresh(buf) && buf[..] == Encode(table.schemas, k, v)
    {
      hide Fits, Encode, GetLength, Agrees, Typed;
      LengthAgrees(table, cells, ref, k, v);
      buf := new Byte[GetLength(table, cells, ref, v)](_ => 0);
      ghost var empty := buf[..];
      var _ := WriteValue(ref, k, v, buf, 0);
      assert buf[..] == empty[..0] + Encode(table.schemas, k, v) + empty[|Encode(table.schemas, k, v)|..];
    }

    /** Encode an object of a schema by a new model. */
    method CreateBufferObject(v: Value, id: Byte) returns (buf: array<Byte>)
      requires Valid() && Fits(table.schemas, ObjectOf(id), v)
      requires v.Record? ==> FieldsAgree(table, WithObject(cells, id), id, 0, v.fields)
      modifies this`cells
      ensures Valid() && cells == WithObject(old(cells), id)
      ensures fresh(buf) && buf[..] == Encode(table.schemas, ObjectOf(id), v)
    {
      hide Typed, Fits, FieldsAgree, Encode, Agrees;
      MoreTyped(table, cells, ObjectCell(Some(id)));
      ObjectAgrees(table, cells, id, v);
      cells := cells + [ObjectCell(Some(id))];
      buf := Create(|cells| - 1, ObjectOf(id), v);
    }
  }

  /** MAIN: what one node creates another deserializes, whatever follows it and whatever
      either of them has read before, as long as the sender's models agree. */
  method SendAndReceive(sender: SchemaStore, receiver: SchemaStore, id: Byte, v: Value, tail: Bytes) returns (r: Parsed<Value>)
    requires sender.Valid() && receiver.Valid() && sender != receiver && receiver.table.schemas == sender.table.schemas
    requires Fits(sender.table.schemas, ObjectOf(id), v)
    requires v.Record? ==> FieldsAgree(sender.table, WithObject(sender.cells, id), id, 0, v.fields)
    modifies sender`cells, receiver`cells
    ensures sender.Valid() && receiver.Valid()
    ensures r == Parsed(Plain(receiver.table.schemas, ObjectOf(id), v), Length(receiver.table.schemas, ObjectOf(id), v))
    ensures Steady(receiver.table, |old(receiver.cells)|, old(receiver.cells), receiver.cells, |old(receiver.cells)|)
  {
    hide Fits, Encode, Length, Plain, Read, Typed, FieldsAgree, Steady, Receive;
    var buf := sender.CreateBufferObject(v, id);
    var sent := buf[..] + tail;
    HoldsStart(buf[..], tail);
    LengthIsWritten(receiver.table.schemas, ObjectOf(id), v);
    ReceiveTrip(receiver.table, receiver.cells, ObjectOf(id), v, sent);
    r := receiver.Deserialize(sent);
  }

  lemma HoldsStart(bytes: Bytes, tail: Bytes)
    ensures Holds(bytes + tail, 0, bytes)
  {
    assert (bytes + tail)[0..0 + |bytes|] == bytes;
  }

  ghost predicate Increasing(row: seq<nat>, lo: nat, hi: nat) {
    && (forall j :: 0 <= j < |row| ==> lo <= row[j] < hi)
    && (forall j, k :: 0 <= j < k < |row| ==> row[j] < row[k])
  }

  lemma SameCells(cells: Cells)
    ensures Extends(cells, cells)
  {
  }

  lemma OldPlace(t: Store, columns: Schema, row: seq<nat>, id: int, i: int)
    requires |row| == |SortColumns(columns)|
    ensures var added := Table(t.schemas + [columns], t.refs + [row]);
      0 <= id < |t.refs| && 0 <= i < |added.refs[id]| ==>
        IsPlace(t, id, i) && added.refs[id][i] == t.refs[id][i] && added.schemas[id] == t.schemas[id]
  {
  }

  lemma RowAligned(t: Store, before: Cells, columns: Schema, row: seq<nat>, hi: nat)
    requires Typed(t, before) && |row| == |SortColumns(columns)| && Increasing(row, |before|, hi)
    ensures Aligned(Table(t.schemas + [columns], t.refs + [row]))
  {
    hide Declared, SortColumns;
    var added := Table(t.schemas + [columns], t.refs + [row]);
    forall a, i, b, j | 0 <= a < |added.refs| && 0 <= i < |added.refs[a]| && 0 <= b < |added.refs| && 0 <= j < |added.refs[b]|
      ensures added.refs[a][i] == added.refs[b][j] ==> a == b && i == j
    {
      OldPlace(t, columns, row, a, i);
      OldPlace(t, columns, row, b, j);
    }
  }

  lemma RowAdded(t: Store, before: Cells, after: Cells, columns: Schema, row: seq<nat>)
    requires Typed(t, before) && Extends(before, after) && |row| == |SortColumns(columns)| && Increasing(row, |before|, |after|)
    requires forall j :: 0 <= j < |row| ==> Intact(after, row[j], SortColumns(columns)[j].kind)
    ensures var added := Table(t.schemas + [columns], t.refs + [row]);
      && Aligned(added) && Typed(added, after)
      && (AllIntact(t, before) ==> AllIntact(added, after))
  {
    hide Typed, AllIntact, Aligned, Intact, SortColumns, Extends, Increasing;
    RowAligned(t, before, columns, row, |after|);
    var added: Store := Table(t.schemas + [columns], t.refs + [row]);
    RowTyped(t, before, after, columns, row, added);
    if AllIntact(t, before) {
      RowIntact(t, before, after, columns, row, added);
    }
  }

  lemma RowTyped(t: Store, before: Cells, after: Cells, columns: Schema, row: seq<nat>, added: Store)
    requires Typed(t, before) && Extends(before, after) && |row| == |SortColumns(columns)|
    requires forall j :: 0 <= j < |row| ==> Intact(after, row[j], SortColumns(columns)[j].kind)
    requires added == Table(t.schemas + [columns], t.refs + [row])
    ensures Typed(added, after)
  {
    hide Declared, Intact, SortColumns;
    forall id, i | IsPlace(added, id, i)
      ensures added.refs[id][i] < |after| && Declared(after[added.refs[id][i]], ColumnAt(added, id, i).kind)
    {
      OldPlace(t, columns, row, id, i);
      var ref, k := added.refs[id][i], ColumnAt(added, id, i).kind;
      if id == |t.refs| {
        IntactFor(after, ref, k);
      } else {
        assert ColumnAt(added, id, i) == ColumnAt(t, id, i);
        assert after[ref] == before[ref];
      }
    }
  }

  lemma RowIntact(t: Store, before: Cells, after: Cells, columns: Schema, row: seq<nat>, added: Store)
    requires AllIntact(t, before) && Extends(before, after) && |row| == |SortColumns(columns)|
    requires forall j :: 0 <= j < |row| ==> Intact(after, row[j], SortColumns(columns)[j].kind)
    requires added == Table(t.schemas + [columns], t.refs + [row])
    ensures AllIntact(added, after)
  {
    hide Intact, SortColumns, Extends;
    forall id, i | IsPlace(added, id, i)
      ensures Intact(after, added.refs[id][i], ColumnAt(added, id, i).kind)
    {
      OldPlace(t, columns, row, id, i);
      if id < |t.refs| {
        assert ColumnAt(added, id, i) == ColumnAt(t, id, i);
        IntactLater(before, after, t.refs[id][i], ColumnAt(t, id, i).kind);
      }
    }
  }
}
