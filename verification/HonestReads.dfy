/** Reading what another node encoded: whatever element types earlier reads left
    behind, the value comes back, and the models then hold the right types. */
module HonestReads {
  import opened Model
  import opened Words
  import opened Serializer
  import opened ReadModels

  // ---------- what an honest read changes ----------

  /** The model of a column has just learned the element types of its column, from
      models made after `lo`. */
  ghost predicate Learned(s: Store, cells: Cells, x: nat, lo: nat) {
    KindAt(s, x).Some? && Right(cells, x, KindAt(s, x).value, lo)
  }

  /** Of the first `lo` models, other than `skip`, only columns have changed, and these
      to the types of their columns. */
  ghost predicate Steady(s: Store, lo: nat, before: Cells, after: Cells, skip: nat) {
    && lo <= |before| && Kept(before, after)
    && forall x :: 0 <= x < lo && x != skip ==> after[x] == before[x] || Learned(s, after, x, lo)
  }

  lemma KeptThen(a: Cells, b: Cells, c: Cells)
    requires Kept(a, b) && Kept(b, c)
    ensures |a| <= |b| <= |c| && Kept(a, c)
  {
    hide Shape, Nameless;
    forall x | |a| <= x < |b|
      ensures Nameless(c[x])
    {
      ShapeNameless(b[x], c[x]);
    }
  }

  lemma ShapeNameless(a: Cell, b: Cell)
    requires Shape(a) == Shape(b) && Nameless(a)
    ensures Nameless(b)
  {
  }

  lemma SteadyThen(s: Store, lo: nat, a: Cells, b: Cells, c: Cells, skip: nat)
    requires Steady(s, lo, a, b, skip) && Steady(s, lo, b, c, skip)
    ensures Steady(s, lo, a, c, skip)
  {
    hide Right, KindAt, Kept;
    KeptThen(a, b, c);
    forall x | 0 <= x < lo && x != skip && c[x] == b[x] && b[x] != a[x]
      ensures Learned(s, c, x, lo)
    {
      RightKept(b, c, x, KindAt(s, x).value, lo);
    }
  }

  /** A read by one model, seen from the models that were there before. */
  lemma SteadyFrom(s: Store, hi: nat, lo: nat, a: Cells, b: Cells, ref: nat, skip: nat)
    requires lo <= hi && Steady(s, hi, a, b, ref) && (ref < lo && ref != skip ==> Learned(s, b, ref, hi))
    ensures Steady(s, lo, a, b, skip)
  {
    hide Right, KindAt;
    forall x | 0 <= x < lo && x != skip && b[x] != a[x]
      ensures Learned(s, b, x, lo)
    {
      RightLower(b, x, KindAt(s, x).value, hi, lo);
    }
  }

  /** What stays of a model that has the right types while another one reads. */
  lemma RightStays(s: Store, lo: nat, a: Cells, b: Cells, skip: nat, ref: nat, k: Kind)
    requires Steady(s, lo, a, b, skip) && ref < lo && ref != skip && Right(a, ref, k, lo)
    requires KindAt(s, ref).Some? ==> KindAt(s, ref).value == k
    ensures Right(b, ref, k, lo)
  {
    hide Right, KindAt;
    assert |a| <= |b|;
    hide Kept;
    if b[ref] == a[ref] {
      RightKept(a, b, ref, k, lo);
    }
  }

  /** All columns have their models among the first `lo`. */
  ghost predicate Base(s: Store, lo: nat) {
    forall x: nat :: x >= lo ==> KindAt(s, x).None?
  }

  lemma TypedBase(s: Store, cells: Cells)
    requires Typed(s, cells)
    ensures Base(s, |cells|)
  {
    hide Declared;
  }

  lemma ColumnKind(s: Store, id: nat, i: nat)
    requires IsPlace(s, id, i)
    ensures KindAt(s, s.refs[id][i]) == Some(ColumnAt(s, id, i).kind)
  {
  }

  /** The model is one for this type, and for no column of another type. */
  ghost predicate ModelOf(s: Store, cells: Cells, ref: nat, k: Kind) {
    && ref < |cells| && IsFor(cells[ref], k)
    && (KindAt(s, ref).Some? ==> KindAt(s, ref).value == k)
  }

  lemma MadeModel(s: Store, lo: nat, cells: Cells, ref: nat, e: Kind)
    requires Base(s, lo) && ElementRight(cells, Some(ref), e, lo)
    ensures ModelOf(s, cells, ref, e)
  {
    hide KindAt, IsFor;
  }

  lemma ElementKept(before: Cells, after: Cells, ref: nat, e: Kind, lo: nat)
    requires ElementRight(before, Some(ref), e, lo) && Kept(before, after)
    ensures ElementRight(after, Some(ref), e, lo)
  {
    hide IsFor, Shape;
    ShapeDeclared(before[ref], after[ref], e);
  }

  lemma MadeBy(s: Store, cells: Cells, ref: nat, made: Cells)
    requires Typed(s, cells) && Kept(cells, made) && forall x :: 0 <= x < |cells| && x != ref ==> made[x] == cells[x]
    ensures Typed(s, made) && Base(s, |cells|) && Steady(s, |cells|, cells, made, ref)
  {
    hide Declared, Shape, KindAt, Right;
    TypedKept(s, cells, made);
    TypedBase(s, cells);
  }

  // ---------- the round trip ----------

  /** The read returned this value and ended here; its model has the element types of
      the type, and every other model is as it was or a column with its own types. */
  ghost predicate Returns(s: Store, cells: Cells, ref: nat, k: Kind, r: Outcome<Value>, value: Value, end: nat) {
    && r.result == Parsed(value, end)
    && Steady(s, |cells|, cells, r.cells, ref) && Right(r.cells, ref, k, |cells|)
  }

  /** MAIN: reading an encoding, whatever comes before and after it and whatever was
      read before, returns the value's schema fields and exactly the offset where the
      encoding ends. */
  lemma {:induction false} RoundTrip(s: Store, cells: Cells, ref: nat, k: Kind, v: Value, buf: Bytes, off: nat)
    requires Typed(s, cells) && ModelOf(s, cells, ref, k)
    requires Fits(s.schemas, k, v) && Holds(buf, off, Encode(s.schemas, k, v))
    ensures off < |buf|
    ensures Returns(s, cells, ref, k, Read(s, cells, ref, buf, off), Plain(s.schemas, k, v), off + |Encode(s.schemas, k, v)|)
    decreases Size(v), 0, 2
  {
    hide *;
    EncodedSome(s.schemas, k, v, buf, off);
    if IsSimple(k) {
      SimpleTrip(s, cells, ref, k, v, buf, off);
    } else if k.Dynamic? {
      BufferTrip(s, cells, ref, v, buf, off);
    } else if k.ArrayOf? || k.SetOf? {
      ListTrip(s, cells, ref, k, v, buf, off);
    } else if k.ObjectOf? {
      ObjectTrip(s, cells, ref, k.schema, v, buf, off);
    } else {
      assert k.MapOf?;
      MapTrip(s, cells, ref, k, v, buf, off);
    }
  }

  lemma EncodedSome(schemas: seq<Schema>, k: Kind, v: Value, buf: Bytes, off: nat)
    requires Fits(schemas, k, v) && Holds(buf, off, Encode(schemas, k, v))
    ensures off < |buf| && (IsSimple(k) || k.Dynamic? || k.ArrayOf? || k.SetOf? || k.ObjectOf? || k.MapOf?)
  {
    hide Encode, Fits;
    LengthIsWritten(schemas, k, v);
  }

  lemma SimpleTrip(s: Store, cells: Cells, ref: nat, k: Kind, v: Value, buf: Bytes, off: nat)
    requires IsSimple(k) && Typed(s, cells) && ModelOf(s, cells, ref, k)
    requires Fits(s.schemas, k, v) && Holds(buf, off, Encode(s.schemas, k, v))
    ensures Returns(s, cells, ref, k, Read(s, cells, ref, buf, off), Plain(s.schemas, k, v), off + |Encode(s.schemas, k, v)|)
  {
    hide Encode, Fits, Plain, Typed, KindAt, Holds, ReadSimple;
    SimpleRoundTrip(s.schemas, k, v, buf, off);
    SimpleFor(cells[ref], k);
    assert ReadSimple(Code(k), buf, off).Parsed?;
  }

  lemma SimpleFor(c: Cell, k: Kind)
    requires IsSimple(k) && IsFor(c, k)
    ensures c == ValueCell(k)
  {
  }

  // ---------- a buffer that holds an encoded value ----------

  lemma BufferParts(schemas: seq<Schema>, v: Value)
    requires Fits(schemas, Dynamic, v)
    ensures v.Embedded? && !v.kind.Dynamic? && Fits(schemas, v.kind, v.inner) && Size(v.inner) < Size(v)
    ensures Encode(schemas, Dynamic, v) == Encode(schemas, v.kind, v.inner)
    ensures Plain(schemas, Dynamic, v) == Plain(schemas, v.kind, v.inner)
  {
  }

  lemma ReadBuffer(s: Store, cells: Cells, ref: nat, buf: Bytes, off: nat)
    requires ref < |cells| && IsFor(cells[ref], Dynamic) && off < |buf| && buf[off] <= 14
    ensures Read(s, cells, ref, buf, off) == Read(s, cells + [Fresh(buf[off])], |cells|, buf, off)
  {
    hide Kept, ReadList, ReadMap, ReadFields, ReadSimple;
  }

  lemma BufferTrip(s: Store, cells: Cells, ref: nat, v: Value, buf: Bytes, off: nat)
    requires Typed(s, cells) && ModelOf(s, cells, ref, Dynamic)
    requires Fits(s.schemas, Dynamic, v) && Holds(buf, off, Encode(s.schemas, Dynamic, v))
    ensures Returns(s, cells, ref, Dynamic, Read(s, cells, ref, buf, off), Plain(s.schemas, Dynamic, v),
                    off + |Encode(s.schemas, Dynamic, v)|)
    decreases Size(v), 0, 1
  {
    hide Encode, Fits, Plain, Typed, KindAt, Holds, Steady, Base, Read, Kept, Declared, Code, Size, Fresh;
    BufferParts(s.schemas, v);
    FirstByte(s.schemas, v.kind, v.inner);
    HoldsByte(buf, off, Encode(s.schemas, v.kind, v.inner), 0);
    var made := cells + [Fresh(buf[off])];
    FreshNameless(buf[off]);
    AddedKept(cells, Fresh(buf[off]));
    MadeBy(s, cells, ref, made);
    MadeModel(s, |cells|, made, |cells|, v.kind);
    RoundTrip(s, made, |cells|, v.kind, v.inner, buf, off);
    ReadBuffer(s, cells, ref, buf, off);
    var r := Read(s, made, |cells|, buf, off);
    SteadyFrom(s, |made|, |cells|, made, r.cells, |cells|, ref);
    SteadyThen(s, |cells|, cells, made, r.cells, ref);
    SteadySize(s, |cells|, cells, r.cells, ref);
  }

  lemma AddedKept(cells: Cells, c: Cell)
    requires Nameless(c)
    ensures Kept(cells, cells + [c])
  {
  }

  lemma FreshNameless(code: Byte)
    requires code <= 14
    ensures Nameless(Fresh(code))
  {
  }

  lemma SteadySize(s: Store, lo: nat, a: Cells, b: Cells, skip: nat)
    requires Steady(s, lo, a, b, skip)
    ensures |a| <= |b| && Kept(a, b)
  {
  }

  // ---------- arrays and sets ----------

  lemma ReadListIs(s: Store, cells: Cells, ref: nat, k: Kind, buf: Bytes, off: nat)
    requires ref < |cells| && (k.ArrayOf? || k.SetOf?) && IsFor(cells[ref], k) && off < |buf|
    ensures cells[ref].ListCell?
    ensures var list := ReadList(s, cells, ref, buf, if k.SetOf? then off + 1 else off);
      list.result.Parsed? ==>
        Read(s, cells, ref, buf, off) ==
        Outcome(list.cells, Parsed(Items(if k.SetOf? then Unique(list.result.value) else list.result.value), list.result.end))
  {
    hide Kept, ReadList, ReadMap, ReadFields, ReadSimple, Unique;
  }

  lemma ListTrip(s: Store, cells: Cells, ref: nat, k: Kind, v: Value, buf: Bytes, off: nat)
    requires (k.ArrayOf? || k.SetOf?) && off < |buf| && Typed(s, cells) && ModelOf(s, cells, ref, k)
    requires Fits(s.schemas, k, v) && Holds(buf, off, Encode(s.schemas, k, v))
    ensures Returns(s, cells, ref, k, Read(s, cells, ref, buf, off), Plain(s.schemas, k, v), off + |Encode(s.schemas, k, v)|)
    decreases Size(v), 0, 1
  {
    hide Encode, Fits, Plain, Typed, KindAt, Holds, Steady, Right, Read, ReadList, Unique, Size, ArrayBytes, EncodeItems, Code,
      PlainItems, IsFor, ItemsLength, AllFit, SizeItems;
    ListParts(s.schemas, k, v);
    ReadListIs(s, cells, ref, k, buf, off);
    var bytes := ArrayBytes(Code(k.element), EncodeItems(s.schemas, k.element, v.items));
    HoldsParts(buf, off, if k.SetOf? then [11] else [], bytes);
    HeadTrip(s, cells, ref, k, k.element, v.items, buf, if k.SetOf? then off + 1 else off);
  }

  /** The header of an array, and its items. */
  lemma HeadTrip(s: Store, cells: Cells, ref: nat, k: Kind, e: Kind, items: seq<Value>, buf: Bytes, off: nat)
    requires k == ArrayOf(e) || k == SetOf(e)
    requires Typed(s, cells) && ModelOf(s, cells, ref, k) && cells[ref].ListCell?
    requires !e.Dynamic? && AllFit(s.schemas, e, items) && ItemsLength(s.schemas, e, items) < WORD
    requires Holds(buf, off, ArrayBytes(Code(e), EncodeItems(s.schemas, e, items)))
    ensures var r := ReadList(s, cells, ref, buf, off);
      && r.result == Parsed(PlainItems(s.schemas, e, items), off + |ArrayBytes(Code(e), EncodeItems(s.schemas, e, items))|)
      && Steady(s, |cells|, cells, r.cells, ref) && Right(r.cells, ref, k, |cells|)
    decreases SizeItems(items), 2, |items|
  {
    hide Encode, Fits, Plain, Typed, KindAt, Holds, Steady, Read, ReadList, ArrayBytes, EncodeItems, Code, PlainItems, IsFor,
      ItemsLength, AllFit, SizeItems, ReadItems, TakeElement, Base, Kept, Fresh;
    var body := EncodeItems(s.schemas, e, items);
    ItemsWritten(s.schemas, e, items);
    ArrayBody(Code(e), body, buf, off);
    ReadHead(s, cells, ref, Code(e), body, buf, off);
    var made := TakeElement(cells, ref, Code(e));
    MadeBy(s, cells, ref, made);
    FreshFor(e);
    TypedBase(s, cells);
    ItemsTrip(s, |cells|, made, ref, k, e, items, buf, off + 6);
    SteadyThen(s, |cells|, cells, made, ReadItems(s, made, ref, buf, off + 6, off + 6 + |body|).cells, ref);
  }

  lemma FreshFor(e: Kind)
    requires !e.Dynamic?
    ensures IsFor(Fresh(Code(e)), e)
  {
  }

  lemma ReadHead(s: Store, cells: Cells, ref: nat, code: Byte, body: Bytes, buf: Bytes, off: nat)
    requires ref < |cells| && cells[ref].ListCell? && code <= 14 && |body| < WORD && Holds(buf, off, ArrayBytes(code, body))
    ensures ReadList(s, cells, ref, buf, off) == ReadItems(s, TakeElement(cells, ref, code), ref, buf, off + 6, off + 6 + |body|)
  {
    hide BigEndian, FromBigEndian, Pow256, ReadItems, TakeElement, Kept, Holds, WordAt;
    ArrayHead(code, body, buf, off);
  }

  lemma ArrayHead(code: Byte, body: Bytes, buf: Bytes, off: nat)
    requires |body| < WORD && Holds(buf, off, ArrayBytes(code, body))
    ensures off + 1 < |buf| && buf[off + 1] == code && WordAt(buf, off + 2, 4) == Some(|body|)
  {
    hide BigEndian, FromBigEndian, Pow256, Holds, WordAt;
    WidthBounds();
    HoldsParts(buf, off, [ARRAY, code], BigEndian(|body|, 4) + body);
    HoldsByte(buf, off, [ARRAY, code], 1);
    HoldsParts(buf, off + 2, BigEndian(|body|, 4), body);
    WordBack(buf, off + 2, |body|, 4);
  }

  /** The loop over the items: its element type is right at every turn, even where an
      item holds an object with the very column that is being read. */
  lemma {:induction false} ItemsTrip(s: Store, lo: nat, cells: Cells, ref: nat, k: Kind, e: Kind, items: seq<Value>, buf: Bytes, off: nat)
    requires k == ArrayOf(e) || k == SetOf(e)
    requires Typed(s, cells) && Base(s, lo) && ref < lo <= |cells| && (KindAt(s, ref).Some? ==> KindAt(s, ref).value == k)
    requires Right(cells, ref, k, lo)
    requires !e.Dynamic? && AllFit(s.schemas, e, items) && Holds(buf, off, EncodeItems(s.schemas, e, items))
    ensures var end := off + |EncodeItems(s.schemas, e, items)|;
      var r := ReadItems(s, cells, ref, buf, off, end);
      && r.result == Parsed(PlainItems(s.schemas, e, items), end)
      && Steady(s, lo, cells, r.cells, ref) && Right(r.cells, ref, k, lo)
    decreases SizeItems(items), 1, |items|
  {
    hide Encode, Fits, Plain, Typed, KindAt, Holds, Steady, Read, EncodeItems, PlainItems, IsFor, AllFit, SizeItems, ReadItems, Base, Kept;
    if items == [] {
      NoItems(s, cells, ref, e, buf, off);
      SteadySame(s, lo, cells, ref);
    } else {
      ItemsParts(s.schemas, e, items);
      var first, rest := Encode(s.schemas, e, items[0]), EncodeItems(s.schemas, e, items[1..]);
      HoldsParts(buf, off, first, rest);
      var element := ElementOf(cells, ref).value;
      MadeModel(s, lo, cells, element, e);
      RoundTrip(s, cells, element, e, items[0], buf, off);
      var one := Read(s, cells, element, buf, off).cells;
      SteadySize(s, |cells|, cells, one, element);
      TypedKept(s, cells, one);
      SteadyFrom(s, |cells|, lo, cells, one, element, |cells|);
      RightStays(s, lo, cells, one, |cells|, ref, k);
      ItemsTrip(s, lo, one, ref, k, e, items[1..], buf, off + |first|);
      ItemThen(s, cells, ref, buf, off, off + |first| + |rest|);
      var two := ReadItems(s, one, ref, buf, off + |first|, off + |first| + |rest|).cells;
      SteadyFrom(s, |cells|, lo, cells, one, element, ref);
      SteadyThen(s, lo, cells, one, two, ref);
    }
  }

  lemma NoItems(s: Store, cells: Cells, ref: nat, e: Kind, buf: Bytes, off: nat)
    ensures EncodeItems(s.schemas, e, []) == [] && PlainItems(s.schemas, e, []) == []
    ensures ReadItems(s, cells, ref, buf, off, off) == Outcome(cells, Parsed([], off))
  {
  }

  lemma SteadySame(s: Store, lo: nat, cells: Cells, skip: nat)
    requires lo <= |cells|
    ensures Steady(s, lo, cells, cells, skip)
  {
  }

  lemma ItemsParts(schemas: seq<Schema>, e: Kind, items: seq<Value>)
    requires items != [] && AllFit(schemas, e, items)
    ensures Fits(schemas, e, items[0]) && AllFit(schemas, e, items[1..])
    ensures EncodeItems(schemas, e, items) == Encode(schemas, e, items[0]) + EncodeItems(schemas, e, items[1..])
    ensures PlainItems(schemas, e, items) == [Plain(schemas, e, items[0])] + PlainItems(schemas, e, items[1..])
    ensures SizeItems(items) == Size(items[0]) + SizeItems(items[1..])
  {
    hide Encode, Fits, Plain, Size;
  }

  lemma ItemThen(s: Store, cells: Cells, ref: nat, buf: Bytes, off: nat, end: nat)
    requires off < end && ElementOf(cells, ref).Some?
    ensures var first := Read(s, cells, ElementOf(cells, ref).value, buf, off);
      first.result.Parsed? ==>
        var rest := ReadItems(s, first.cells, ref, buf, first.result.end, end);
        rest.result.Parsed? ==>
          ReadItems(s, cells, ref, buf, off, end) ==
          Outcome(rest.cells, Parsed([first.result.value] + rest.result.value, rest.result.end))
  {
    hide Read, Kept;
  }

  // ---------- maps ----------

  lemma ReadMapIs(s: Store, cells: Cells, ref: nat, key: Byte, value: Byte, body: Bytes, buf: Bytes, off: nat)
    requires ref < |cells| && CodeOf(cells[ref]) == Some(12) && key <= 14 && value <= 14 && |body| < WORD
    requires Holds(buf, off, [12, key, value] + (BigEndian(|body|, 4) + body))
    ensures cells[ref].MapCell?
    ensures var pairs := ReadEntries(s, TakePair(cells, ref, key, value), |cells|, |cells| + 1, buf, off + 7, off + 7 + |body|);
      pairs.result.Parsed? ==>
        Read(s, cells, ref, buf, off) == Outcome(pairs.cells, Parsed(Entries(MapFrom(pairs.result.value)), pairs.result.end))
  {
    hide BigEndian, FromBigEndian, Pow256, ReadEntries, TakePair, Kept, MapFrom, ReadList, ReadFields, ReadSimple, WordAt, Holds;
    MapBody(key, value, body, buf, off);
  }

  lemma MapTrip(s: Store, cells: Cells, ref: nat, k: Kind, v: Value, buf: Bytes, off: nat)
    requires k.MapOf? && Typed(s, cells) && ModelOf(s, cells, ref, k)
    requires Fits(s.schemas, k, v) && Holds(buf, off, Encode(s.schemas, k, v))
    ensures Returns(s, cells, ref, k, Read(s, cells, ref, buf, off), Plain(s.schemas, k, v), off + |Encode(s.schemas, k, v)|)
    decreases Size(v), 0, 1
  {
    hide Encode, Fits, Plain, Typed, KindAt, Holds, Steady, Read, Size, EncodeEntries, BigEndian, Code, Fresh,
      PlainEntries, EntriesLength, EntriesFit, SizeEntries, MapFrom, ReadEntries, TakePair, Base, Kept;
    var key, value := k.key, k.value;
    MapParts(s.schemas, k, v);
    var body := EncodeEntries(s.schemas, key, value, v.entries);
    EntriesWritten(s.schemas, key, value, v.entries);
    MapBody(Code(key), Code(value), body, buf, off);
    MapFor(cells[ref], k);
    ReadMapIs(s, cells, ref, Code(key), Code(value), body, buf, off);
    var lo := |cells|;
    var made := TakePair(cells, ref, Code(key), Code(value));
    MadeBy(s, cells, ref, made);
    FreshFor(key);
    FreshFor(value);
    EntriesTrip(s, lo, made, lo, lo + 1, key, value, v.entries, buf, off + 7);
    var after := ReadEntries(s, made, lo, lo + 1, buf, off + 7, off + 7 + |body|).cells;
    RightStays(s, lo, made, after, lo, ref, k);
    SteadySkip(s, lo, made, after, ref);
    SteadyThen(s, lo, cells, made, after, ref);
  }

  lemma MapFor(c: Cell, k: Kind)
    requires k.MapOf? && IsFor(c, k)
    ensures CodeOf(c) == Some(12)
  {
  }

  lemma SteadySkip(s: Store, lo: nat, a: Cells, b: Cells, skip: nat)
    requires Steady(s, lo, a, b, lo)
    ensures Steady(s, lo, a, b, skip)
  {
    hide Learned;
  }

  lemma EntryTrip(s: Store, lo: nat, cells: Cells, x: nat, y: nat, key: Kind, value: Kind, e: Entry, buf: Bytes, off: nat)
    requires Typed(s, cells) && Base(s, lo) && lo <= |cells| && !key.Dynamic? && !value.Dynamic?
    requires ElementRight(cells, Some(x), key, lo) && ElementRight(cells, Some(y), value, lo)
    requires EntryFits(s.schemas, key, value, e) && Holds(buf, off, EncodeEntry(s.schemas, key, value, e))
    ensures var r := ReadEntry(s, cells, x, y, buf, off);
      && r.result == Parsed(PlainEntry(s.schemas, key, value, e), off + |EncodeEntry(s.schemas, key, value, e)|)
      && Steady(s, lo, cells, r.cells, lo)
    decreases SizeEntry(e), 1, 0
  {
    hide Encode, Fits, Plain, Typed, KindAt, Holds, Steady, Read, Base, Kept, Size, ElementRight, ModelOf, Right;
    var first, second := Encode(s.schemas, key, e.key), Encode(s.schemas, value, e.value);
    HoldsParts(buf, off, first, second);
    MadeModel(s, lo, cells, x, key);
    RoundTrip(s, cells, x, key, e.key, buf, off);
    var one := Read(s, cells, x, buf, off).cells;
    SteadySize(s, |cells|, cells, one, x);
    TypedKept(s, cells, one);
    ElementKept(cells, one, y, value, lo);
    MadeModel(s, lo, one, y, value);
    RoundTrip(s, one, y, value, e.value, buf, off + |first|);
    var two := Read(s, one, y, buf, off + |first|).cells;
    ElementAbove(cells, x, key, lo);
    ElementAbove(one, y, value, lo);
    SteadyFrom(s, |cells|, lo, cells, one, x, lo);
    SteadyFrom(s, |one|, lo, one, two, y, lo);
    SteadyThen(s, lo, cells, one, two, lo);
  }

  lemma ElementAbove(cells: Cells, x: nat, e: Kind, lo: nat)
    requires ElementRight(cells, Some(x), e, lo)
    ensures lo <= x < |cells|
  {
  }

  lemma {:induction false} EntriesTrip(s: Store, lo: nat, cells: Cells, x: nat, y: nat, key: Kind, value: Kind, entries: seq<Entry>, buf: Bytes, off: nat)
    requires Typed(s, cells) && Base(s, lo) && lo <= |cells| && !key.Dynamic? && !value.Dynamic?
    requires ElementRight(cells, Some(x), key, lo) && ElementRight(cells, Some(y), value, lo)
    requires EntriesFit(s.schemas, key, value, entries) && Holds(buf, off, EncodeEntries(s.schemas, key, value, entries))
    ensures var end := off + |EncodeEntries(s.schemas, key, value, entries)|;
      var r := ReadEntries(s, cells, x, y, buf, off, end);
      && r.result == Parsed(PlainEntries(s.schemas, key, value, entries), end)
      && Steady(s, lo, cells, r.cells, lo)
    decreases SizeEntries(entries), 2, |entries|
  {
    hide *;
    if entries == [] {
      EntriesNone(s.schemas, key, value);
      NoEntries(s, cells, x, y, buf, off);
      SteadySame(s, lo, cells, lo);
    } else {
      EntriesParts(s.schemas, key, value, entries);
      EntriesBytes(s.schemas, key, value, entries);
      EntriesPlain(s.schemas, key, value, entries);
      var first, rest := EncodeEntry(s.schemas, key, value, entries[0]), EncodeEntries(s.schemas, key, value, entries[1..]);
      HoldsParts(buf, off, first, rest);
      EntryTrip(s, lo, cells, x, y, key, value, entries[0], buf, off);
      EntryWritten(s.schemas, key, value, entries[0]);
      var one := ReadEntry(s, cells, x, y, buf, off).cells;
      SteadySize(s, lo, cells, one, lo);
      TypedKept(s, cells, one);
      ElementKept(cells, one, x, key, lo);
      ElementKept(cells, one, y, value, lo);
      EntriesTrip(s, lo, one, x, y, key, value, entries[1..], buf, off + |first|);
      EntryThen(s, cells, x, y, buf, off, off + |first| + |rest|);
      var two := ReadEntries(s, one, x, y, buf, off + |first|, off + |first| + |rest|).cells;
      SteadyThen(s, lo, cells, one, two, lo);
    }
  }

  lemma NoEntries(s: Store, cells: Cells, x: nat, y: nat, buf: Bytes, off: nat)
    ensures ReadEntries(s, cells, x, y, buf, off, off) == Outcome(cells, Parsed([], off))
  {
  }

  lemma EntryThen(s: Store, cells: Cells, x: nat, y: nat, buf: Bytes, off: nat, end: nat)
    requires off < end
    ensures var first := ReadEntry(s, cells, x, y, buf, off);
      first.result.Parsed? ==>
        var rest := ReadEntries(s, first.cells, x, y, buf, first.result.end, end);
        rest.result.Parsed? ==>
          ReadEntries(s, cells, x, y, buf, off, end) ==
          Outcome(rest.cells, Parsed([first.result.value] + rest.result.value, rest.result.end))
  {
    hide ReadEntry, Kept;
  }

  // ---------- objects ----------

  lemma ReadObject(s: Store, cells: Cells, ref: nat, id: Byte, bytes: Bytes, buf: Bytes, off: nat)
    requires ref < |cells| && CodeOf(cells[ref]) == Some(10) && id < |s.schemas| && Holds(buf, off, [10, id] + bytes)
    ensures Holds(buf, off + 2, bytes)
    ensures var fields := ReadFields(s, cells, id, 0, buf, off + 2);
      fields.result.Parsed? ==>
        Read(s, cells, ref, buf, off) == Outcome(fields.cells, Parsed(Record(fields.result.value), fields.result.end))
  {
    hide Kept, ReadList, ReadMap, ReadFields, ReadSimple;
    HoldsParts(buf, off, [10, id], bytes);
    HoldsByte(buf, off, [10, id], 1);
  }

  lemma ObjectTrip(s: Store, cells: Cells, ref: nat, id: Byte, v: Value, buf: Bytes, off: nat)
    requires Typed(s, cells) && ModelOf(s, cells, ref, ObjectOf(id))
    requires Fits(s.schemas, ObjectOf(id), v) && Holds(buf, off, Encode(s.schemas, ObjectOf(id), v))
    ensures Returns(s, cells, ref, ObjectOf(id), Read(s, cells, ref, buf, off), Plain(s.schemas, ObjectOf(id), v),
                    off + |Encode(s.schemas, ObjectOf(id), v)|)
    decreases Size(v), 0, 1
  {
    hide Encode, Fits, Plain, Typed, KindAt, Holds, Steady, Read, Size, EncodeFields, FieldsFit, SortColumns, ReadFields, PlainFields,
      SizeFields, Base, Kept, Aligned;
    ObjectParts(s.schemas, id, v);
    var columns := SortColumns(s.schemas[id]);
    ReadObject(s, cells, ref, id, EncodeFields(s.schemas, columns, v.fields), buf, off);
    TypedBase(s, cells);
    assert columns[0..] == columns;
    FieldsTrip(s, |cells|, cells, id, 0, v.fields, buf, off + 2);
    var after := ReadFields(s, cells, id, 0, buf, off + 2).cells;
    SteadySkip(s, |cells|, cells, after, ref);
    SteadySize(s, |cells|, cells, after, ref);
  }

  /** The columns from one on have the element types of their types. */
  ghost predicate ColumnsRight(s: Store, cells: Cells, id: nat, i: nat, lo: nat) {
    forall j :: i <= j && IsPlace(s, id, j) ==> Right(cells, s.refs[id][j], ColumnAt(s, id, j).kind, lo)
  }

  lemma NoColumnsRight(s: Store, cells: Cells, id: nat, i: nat, lo: nat)
    requires !IsPlace(s, id, i)
    ensures ColumnsRight(s, cells, id, i, lo)
  {
  }

  lemma FirstRight(s: Store, lo: nat, hi: nat, a: Cells, b: Cells, id: nat, i: nat)
    requires IsPlace(s, id, i) && Base(s, lo) && lo <= hi && Steady(s, lo, a, b, lo) && ColumnsRight(s, b, id, i + 1, lo)
    requires Right(a, s.refs[id][i], ColumnAt(s, id, i).kind, hi)
    ensures ColumnsRight(s, b, id, i, lo)
  {
    hide Right, KindAt, Steady, ColumnAt;
    var ref := s.refs[id][i];
    ColumnKind(s, id, i);
    RightLower(a, ref, ColumnAt(s, id, i).kind, hi, lo);
    RightStays(s, lo, a, b, lo, ref, ColumnAt(s, id, i).kind);
  }

  /** The columns from one on, each read by its shared model; afterwards they all have
      the element types of their types, whatever was read before. */
  lemma {:induction false} FieldsTrip(s: Store, lo: nat, cells: Cells, id: nat, i: nat, fields: seq<Field>, buf: Bytes, off: nat)
    requires Typed(s, cells) && Base(s, lo) && lo <= |cells|
    requires id < |s.schemas| && i <= |SortColumns(s.schemas[id])|
    requires var columns := SortColumns(s.schemas[id])[i..];
      FieldsFit(s.schemas, columns, fields) && Holds(buf, off, EncodeFields(s.schemas, columns, fields))
    ensures var columns := SortColumns(s.schemas[id])[i..];
      var r := ReadFields(s, cells, id, i, buf, off);
      && r.result == Parsed(PlainFields(s.schemas, columns, fields), off + |EncodeFields(s.schemas, columns, fields)|)
      && Steady(s, lo, cells, r.cells, lo)
      && ColumnsRight(s, r.cells, id, i, lo)
    decreases SizeFields(fields), 1, |SortColumns(s.schemas[id])| - i
  {
    hide *;
    var all := SortColumns(s.schemas[id]);
    PlaceIs(s, id, i);
    if i == |all| {
      assert all[i..] == [];
      NoFields(s, cells, id, i, fields, buf, off);
      SteadySame(s, lo, cells, lo);
      assert ColumnsRight(s, cells, id, i, lo) by {
        NoColumnsRight(s, cells, id, i, lo);
      }
    } else {
      var k, v := all[i].kind, Lookup(fields, all[i].name);
      var ref := s.refs[id][i];
      FieldsAt(s.schemas, all, fields, i);
      FieldsPlain(s.schemas, all, fields, i);
      var first, rest := Encode(s.schemas, k, v), EncodeFields(s.schemas, all[i + 1..], fields);
      HoldsParts(buf, off, first, rest);
      ColumnModel(s, cells, id, i);
      RoundTrip(s, cells, ref, k, v, buf, off);
      var r := Read(s, cells, ref, buf, off);
      var one := r.cells;
      ReturnsParts(s, cells, ref, k, r, Plain(s.schemas, k, v), off + |first|);
      SteadySize(s, |cells|, cells, one, ref);
      TypedKept(s, cells, one);
      ColumnLearned(s, one, id, i, |cells|);
      SteadyFrom(s, |cells|, lo, cells, one, ref, lo);
      FieldsTrip(s, lo, one, id, i + 1, fields, buf, off + |first|);
      FieldThen(s, cells, id, i, buf, off);
      var two := ReadFields(s, one, id, i + 1, buf, off + |first|).cells;
      FirstRight(s, lo, |cells|, one, two, id, i);
      SteadyThen(s, lo, cells, one, two, lo);
    }
  }

  lemma ReturnsParts(s: Store, cells: Cells, ref: nat, k: Kind, r: Outcome<Value>, value: Value, end: nat)
    requires Returns(s, cells, ref, k, r, value, end)
    ensures r.result == Parsed(value, end)
    ensures Steady(s, |cells|, cells, r.cells, ref) && Right(r.cells, ref, k, |cells|)
  {
  }

  lemma NoFields(s: Store, cells: Cells, id: nat, i: nat, fields: seq<Field>, buf: Bytes, off: nat)
    requires !IsPlace(s, id, i)
    ensures EncodeFields(s.schemas, [], fields) == [] && PlainFields(s.schemas, [], fields) == []
    ensures ReadFields(s, cells, id, i, buf, off) == Outcome(cells, Parsed([], off))
  {
  }

  lemma FieldsPlain(schemas: seq<Schema>, columns: Schema, fields: seq<Field>, i: nat)
    requires i < |columns| && FieldsFit(schemas, columns[i..], fields)
    requires Fits(schemas, columns[i].kind, Lookup(fields, columns[i].name)) && FieldsFit(schemas, columns[i + 1..], fields)
    ensures PlainFields(schemas, columns[i..], fields) ==
              [Field(columns[i].name, Plain(schemas, columns[i].kind, Lookup(fields, columns[i].name)))] +
              PlainFields(schemas, columns[i + 1..], fields)
    ensures Size(Lookup(fields, columns[i].name)) <= SizeFields(fields)
  {
    hide Fits, Plain, Size, SizeFields;
    var s := columns[i..];
    assert s[0] == columns[i] && s[1..] == columns[i + 1..];
  }

  lemma ColumnModel(s: Store, cells: Cells, id: nat, i: nat)
    requires Typed(s, cells) && IsPlace(s, id, i)
    ensures ModelOf(s, cells, s.refs[id][i], ColumnAt(s, id, i).kind)
  {
    ColumnKind(s, id, i);
  }

  lemma ColumnLearned(s: Store, cells: Cells, id: nat, i: nat, lo: nat)
    requires IsPlace(s, id, i) && Right(cells, s.refs[id][i], ColumnAt(s, id, i).kind, lo)
    ensures Learned(s, cells, s.refs[id][i], lo)
  {
    ColumnKind(s, id, i);
  }

  lemma FieldThen(s: Store, cells: Cells, id: nat, i: nat, buf: Bytes, off: nat)
    requires IsPlace(s, id, i) && off < |buf|
    ensures var first := Read(s, cells, s.refs[id][i], buf, off);
      first.result.Parsed? ==>
        var rest := ReadFields(s, first.cells, id, i + 1, buf, first.result.end);
        rest.result.Parsed? ==>
          ReadFields(s, cells, id, i, buf, off) ==
          Outcome(rest.cells, Parsed([Field(ColumnAt(s, id, i).name, first.result.value)] + rest.result.value, rest.result.end))
  {
    hide Read, Kept, ColumnAt;
  }
}
