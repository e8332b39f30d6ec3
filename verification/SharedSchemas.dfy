/** shared/util/byteSerializer/config.ts: what reading does to the schemas the whole
    process shares. Honest buffers keep flat schemas as declared; one hostile buffer
    changes every later write, until an honest one is read. */
module SharedSchemas {
  import opened Model
  import opened Words
  import opened Serializer
  import opened ReadModels
  import opened HonestReads
  import opened WriteModels

  // ---------- models as declared ----------

  /** The model and its element types are those of the type, all the way down. */
  predicate Intact(cells: Cells, ref: nat, k: Kind)
    decreases k
  {
    && ref < |cells|
    && match k
       case ArrayOf(e) => cells[ref].ListCell? && !cells[ref].unique && cells[ref].element.Some? && Intact(cells, cells[ref].element.value, e)
       case SetOf(e) => cells[ref].ListCell? && cells[ref].unique && cells[ref].element.Some? && Intact(cells, cells[ref].element.value, e)
       case MapOf(key, value) =>
         && Declared(cells[ref], k) && cells[ref].pair.Some?
         && Intact(cells, cells[ref].pair.value.key, key) && Intact(cells, cells[ref].pair.value.value, value)
       case ObjectOf(id) => cells[ref] == ObjectCell(Some(id))
       case Dynamic => cells[ref].BufferCell?
       case _ => cells[ref] == ValueCell(k)
  }

  ghost predicate AllIntact(s: Store, cells: Cells) {
    forall id, i :: IsPlace(s, id, i) ==> Intact(cells, s.refs[id][i], ColumnAt(s, id, i).kind)
  }

  lemma {:induction false} IntactMore(cells: Cells, more: Cells, ref: nat, k: Kind)
    requires Intact(cells, ref, k)
    ensures Intact(cells + more, ref, k)
    decreases k
  {
    match k {
      case ArrayOf(e) => IntactMore(cells, more, cells[ref].element.value, e);
      case SetOf(e) => IntactMore(cells, more, cells[ref].element.value, e);
      case MapOf(key, value) =>
        IntactMore(cells, more, cells[ref].pair.value.key, key);
        IntactMore(cells, more, cells[ref].pair.value.value, value);
      case _ =>
    }
  }

  /** More models were made after these. */
  predicate Extends(a: Cells, b: Cells) {
    |a| <= |b| && b[..|a|] == a
  }

  lemma ExtendsThen(a: Cells, b: Cells, c: Cells)
    requires Extends(a, b) && Extends(b, c)
    ensures Extends(a, c)
  {
    assert c[..|a|] == b[..|a|];
  }

  lemma IntactLater(a: Cells, b: Cells, ref: nat, k: Kind)
    requires Extends(a, b) && Intact(a, ref, k)
    ensures Intact(b, ref, k)
  {
    hide Intact;
    assert b == a + b[|a|..];
    IntactMore(a, b[|a|..], ref, k);
  }

  lemma OneMore(cells: Cells, c: Cell)
    ensures Extends(cells, cells + [c])
  {
  }

  /** The models so far were extended, and the last one is as the type was declared. */
  ghost predicate Makes(before: Cells, after: Cells, k: Kind) {
    Extends(before, after) && |before| < |after| && Intact(after, |after| - 1, k)
  }

  lemma MakesParts(before: Cells, after: Cells, k: Kind)
    requires Makes(before, after, k)
    ensures Extends(before, after) && |before| < |after| && Intact(after, |after| - 1, k)
  {
  }

  function WithList(m: Cells, unique: bool): Cells {
    m + [ListCell(unique, if m == [] then None else Some(|m| - 1))]
  }

  function WithMap(m: Cells, n: Cells, key: Kind, value: Kind): Cells {
    var head := if key.Dynamic? || value.Dynamic? then None else Some(Codes(Code(key), Code(value)));
    n + [MapCell(head, if m == [] || n == [] then None else Some(Places(|m| - 1, |n| - 1)))]
  }

  lemma ListMade(cells: Cells, m: Cells, unique: bool, e: Kind)
    requires Makes(cells, m, e)
    ensures Makes(cells, WithList(m, unique), if unique then SetOf(e) else ArrayOf(e))
  {
    var c := ListCell(unique, Some(|m| - 1));
    assert WithList(m, unique) == m + [c];
    OneMore(m, c);
    ExtendsThen(cells, m, m + [c]);
    IntactMore(m, [c], |m| - 1, e);
  }

  lemma MapMade(cells: Cells, m: Cells, n: Cells, key: Kind, value: Kind)
    requires Makes(cells, m, key) && Makes(m, n, value)
    ensures Makes(cells, WithMap(m, n, key, value), MapOf(key, value))
  {
    hide Code, Extends, Intact;
    var head := if key.Dynamic? || value.Dynamic? then None else Some(Codes(Code(key), Code(value)));
    var c := MapCell(head, Some(Places(|m| - 1, |n| - 1)));
    assert WithMap(m, n, key, value) == n + [c];
    OneMore(n, c);
    IntactLater(m, n, |m| - 1, key);
    IntactLater(n, n + [c], |m| - 1, key);
    IntactLater(n, n + [c], |n| - 1, value);
    MapIntact(n + [c], |n|, head, Places(|m| - 1, |n| - 1), key, value);
    ExtendsThen(cells, m, n);
    ExtendsThen(cells, n, n + [c]);
  }

  lemma MapIntact(cells: Cells, ref: nat, head: Option<Codes>, pair: Places, key: Kind, value: Kind)
    requires ref < |cells| && cells[ref] == MapCell(head, Some(pair))
    requires !key.Dynamic? && !value.Dynamic? ==> head == Some(Codes(Code(key), Code(value)))
    requires Intact(cells, pair.key, key) && Intact(cells, pair.value, value)
    ensures Intact(cells, ref, MapOf(key, value))
  {
    MapCode(head, Some(pair), MapOf(key, value));
    hide Code;
  }

  lemma MapCode(head: Option<Codes>, pair: Option<Places>, k: Kind)
    requires k.MapOf?
    ensures CodeOf(MapCell(head, pair)) == Some(Code(k))
  {
  }

  /** The models of a type, made with all its element types; its own comes last. */
  function Declare(cells: Cells, k: Kind): Cells
    decreases k
  {
    match k
    case ArrayOf(e) => WithList(Declare(cells, e), false)
    case SetOf(e) => WithList(Declare(cells, e), true)
    case MapOf(key, value) =>
      var m := Declare(cells, key);
      WithMap(m, Declare(m, value), key, value)
    case ObjectOf(id) => cells + [ObjectCell(Some(id))]
    case Dynamic => cells + [BufferCell]
    case _ => cells + [ValueCell(k)]
  }

  lemma LeafMade(cells: Cells, k: Kind)
    requires IsSimple(k) || k.ObjectOf? || k.Dynamic?
    ensures Makes(cells, Declare(cells, k), k)
  {
  }

  lemma {:induction false} DeclareIs(cells: Cells, k: Kind)
    ensures Makes(cells, Declare(cells, k), k)
    decreases k
  {
    hide WithList, WithMap, Makes;
    match k {
      case ArrayOf(e) =>
        DeclareIs(cells, e);
        ListMade(cells, Declare(cells, e), false, e);
      case SetOf(e) =>
        DeclareIs(cells, e);
        ListMade(cells, Declare(cells, e), true, e);
      case MapOf(key, value) =>
        var m := Declare(cells, key);
        DeclareIs(cells, key);
        DeclareIs(m, value);
        MapMade(cells, m, Declare(m, value), key, value);
      case _ => LeafMade(cells, k);
    }
  }

  lemma ExtendsSize(a: Cells, b: Cells)
    requires Extends(a, b)
    ensures |a| <= |b|
  {
  }

  lemma IntactFor(cells: Cells, ref: nat, k: Kind)
    requires Intact(cells, ref, k)
    ensures ref < |cells| && IsFor(cells[ref], k) && Declared(cells[ref], k)
  {
  }

  lemma IntactTyped(s: Store, cells: Cells)
    requires AllIntact(s, cells)
    ensures Typed(s, cells)
  {
    hide Intact, Declared;
    forall id, i | IsPlace(s, id, i)
      ensures s.refs[id][i] < |cells| && Declared(cells[s.refs[id][i]], ColumnAt(s, id, i).kind)
    {
      IntactFor(cells, s.refs[id][i], ColumnAt(s, id, i).kind);
    }
  }

  /** While every column is as declared, every value is written as its encoding. */
  lemma {:induction false} IntactAgrees(s: Store, cells: Cells, ref: nat, k: Kind, v: Value)
    requires AllIntact(s, cells) && Intact(cells, ref, k) && Fits(s.schemas, k, v)
    ensures Agrees(s, cells, ref, k, v)
    decreases Size(v), 0, 2
  {
    hide AllIntact, AllFit, EntriesFit, FieldsFit, AllAgree, EntriesAgree, FieldsAgree, SortColumns, ItemsLength, EntriesLength,
      DistinctItems, DistinctKeys, Lookup, SizeItems, SizeEntries, SizeFields, Aligned, Size;
    match k {
      case ArrayOf(e) => ListAgrees(s, cells, ref, k, v);
      case SetOf(e) => ListAgrees(s, cells, ref, k, v);
      case MapOf(key, value) =>
        MapParts(s.schemas, k, v);
        EntriesAllAgree(s, cells, cells[ref].pair.value, key, value, v.entries);
      case ObjectOf(id) =>
        ObjectParts(s.schemas, id, v);
        assert SortColumns(s.schemas[id])[0..] == SortColumns(s.schemas[id]);
        FieldsAllAgree(s, cells, id, 0, v.fields);
      case _ =>
    }
  }

  lemma ListAgrees(s: Store, cells: Cells, ref: nat, k: Kind, v: Value)
    requires AllIntact(s, cells) && (k.ArrayOf? || k.SetOf?) && Intact(cells, ref, k) && Fits(s.schemas, k, v)
    ensures Agrees(s, cells, ref, k, v)
    decreases Size(v), 0, 1
  {
    hide AllIntact, AllFit, AllAgree, ItemsLength, DistinctItems, SizeItems, Size;
    ListParts(s.schemas, k, v);
    IntactFor(cells, cells[ref].element.value, k.element);
    AllItemsAgree(s, cells, cells[ref].element.value, k.element, v.items);
  }

  lemma {:induction false} AllItemsAgree(s: Store, cells: Cells, element: nat, e: Kind, items: seq<Value>)
    requires AllIntact(s, cells) && Intact(cells, element, e) && AllFit(s.schemas, e, items)
    ensures AllAgree(s, cells, element, e, items)
    decreases SizeItems(items), 1, |items|
  {
    hide AllIntact, Intact, Fits, Agrees, Size;
    if items != [] {
      IntactAgrees(s, cells, element, e, items[0]);
      AllItemsAgree(s, cells, element, e, items[1..]);
    }
  }

  lemma {:induction false} EntriesAllAgree(s: Store, cells: Cells, pair: Places, key: Kind, value: Kind, entries: seq<Entry>)
    requires AllIntact(s, cells) && Intact(cells, pair.key, key) && Intact(cells, pair.value, value)
    requires EntriesFit(s.schemas, key, value, entries)
    ensures EntriesAgree(s, cells, pair, key, value, entries)
    decreases SizeEntries(entries), 2, |entries|
  {
    hide AllIntact, Intact, EntryFits, EntryAgrees, SizeEntry;
    if entries != [] {
      EntryAlsoAgrees(s, cells, pair, key, value, entries[0]);
      EntriesAllAgree(s, cells, pair, key, value, entries[1..]);
    }
  }

  lemma EntryAlsoAgrees(s: Store, cells: Cells, pair: Places, key: Kind, value: Kind, e: Entry)
    requires AllIntact(s, cells) && Intact(cells, pair.key, key) && Intact(cells, pair.value, value) && EntryFits(s.schemas, key, value, e)
    ensures EntryAgrees(s, cells, pair, key, value, e)
    decreases SizeEntry(e), 1, 0
  {
    hide AllIntact, Intact, Fits, Agrees, Size;
    IntactAgrees(s, cells, pair.key, key, e.key);
    IntactAgrees(s, cells, pair.value, value, e.value);
  }

  lemma {:induction false} FieldsAllAgree(s: Store, cells: Cells, id: nat, i: nat, fields: seq<Field>)
    requires AllIntact(s, cells) && id < |s.schemas| && i <= |SortColumns(s.schemas[id])|
    requires FieldsFit(s.schemas, SortColumns(s.schemas[id])[i..], fields)
    ensures FieldsAgree(s, cells, id, i, fields)
    decreases SizeFields(fields), 1, |SortColumns(s.schemas[id])| - i
  {
    hide Intact, Fits, Agrees, Lookup, SizeFields, Size, Aligned, SortColumns, EncodeFields;
    var all := SortColumns(s.schemas[id]);
    PlaceIs(s, id, i);
    if i < |all| {
      FieldsAt(s.schemas, all, fields, i);
      FieldSize(fields, all[i].name);
      IntactAgrees(s, cells, s.refs[id][i], all[i].kind, Lookup(fields, all[i].name));
      FieldsAllAgree(s, cells, id, i + 1, fields);
    }
  }

  // ---------- flat schemas ----------

  /** The element types of arrays, sets and maps have no parts, as in every schema of
      the program. */
  predicate IsFlat(k: Kind) {
    match k
    case ArrayOf(e) => IsSimple(e)
    case SetOf(e) => IsSimple(e)
    case MapOf(key, value) => IsSimple(key) && IsSimple(value)
    case _ => true
  }

  ghost predicate Flat(s: Store) {
    forall id, i :: IsPlace(s, id, i) ==> IsFlat(ColumnAt(s, id, i).kind)
  }

  ghost predicate AllRight(s: Store, cells: Cells) {
    forall id, i :: IsPlace(s, id, i) ==> Right(cells, s.refs[id][i], ColumnAt(s, id, i).kind, 0)
  }

  lemma SimpleIntact(cells: Cells, ref: nat, e: Kind)
    requires IsSimple(e)
    ensures ElementRight(cells, Some(ref), e, 0) <==> Intact(cells, ref, e)
  {
  }

  lemma FlatIntact(cells: Cells, ref: nat, k: Kind)
    requires IsFlat(k) && ref < |cells| && Declared(cells[ref], k)
    ensures Right(cells, ref, k, 0) <==> Intact(cells, ref, k)
  {
    hide ElementRight;
    match k {
      case ArrayOf(e) => ListIntact(cells, ref, k);
      case SetOf(e) => ListIntact(cells, ref, k);
      case MapOf(key, value) =>
        if cells[ref].pair.Some? {
          SimpleIntact(cells, cells[ref].pair.value.key, key);
          SimpleIntact(cells, cells[ref].pair.value.value, value);
        }
      case _ =>
    }
  }

  lemma ListIntact(cells: Cells, ref: nat, k: Kind)
    requires (k.ArrayOf? || k.SetOf?) && IsSimple(k.element) && ref < |cells| && IsFor(cells[ref], k)
    ensures Right(cells, ref, k, 0) <==> Intact(cells, ref, k)
  {
    hide IsSimple;
    var element := ElementOf(cells, ref);
    if element.Some? {
      SimpleIntact(cells, element.value, k.element);
    }
  }

  /** On flat schemas the type bytes of the element types decide. */
  lemma AllRightIff(s: Store, cells: Cells)
    requires Flat(s) && Typed(s, cells)
    ensures AllRight(s, cells) <==> AllIntact(s, cells)
  {
    hide Right, Intact, Declared, IsFlat;
    forall id, i | IsPlace(s, id, i)
      ensures Right(cells, s.refs[id][i], ColumnAt(s, id, i).kind, 0) <==> Intact(cells, s.refs[id][i], ColumnAt(s, id, i).kind)
    {
      FlatIntact(cells, s.refs[id][i], ColumnAt(s, id, i).kind);
    }
  }

  // ---------- honest buffers ----------

  /** The buffer starts with what some node encoded. */
  ghost predicate Honest(schemas: seq<Schema>, buf: Bytes) {
    exists k: Kind, v :: !k.Dynamic? && Fits(schemas, k, v) && Holds(buf, 0, Encode(schemas, k, v))
  }

  lemma Embed(schemas: seq<Schema>, k: Kind, v: Value)
    requires !k.Dynamic? && Fits(schemas, k, v)
    ensures var e := Embedded(k, v);
      && Fits(schemas, Dynamic, e) && Encode(schemas, Dynamic, e) == Encode(schemas, k, v)
      && Plain(schemas, Dynamic, e) == Plain(schemas, k, v)
  {
    BufferParts(schemas, Embedded(k, v));
  }

  /** What comes out of an honest buffer, whatever was received before. */
  lemma ReceiveTrip(s: Store, cells: Cells, k: Kind, v: Value, buf: Bytes)
    requires Typed(s, cells) && !k.Dynamic? && Fits(s.schemas, k, v) && Holds(buf, 0, Encode(s.schemas, k, v))
    ensures var r := Receive(s, cells, buf);
      && r.result == Parsed(Plain(s.schemas, k, v), |Encode(s.schemas, k, v)|)
      && Steady(s, |cells|, cells, r.cells, |cells|)
  {
    hide Fits, Encode, Plain, Typed, Steady, KindAt, Declared, Read, Holds, Base, Right, Kept, Receive;
    Embed(s.schemas, k, v);
    var made := cells + [BufferCell];
    AddedKept(cells, BufferCell);
    MadeBy(s, cells, |cells|, made);
    BaseNone(s, |cells|);
    ReceiveIs(s, cells, buf);
    RoundTrip(s, made, |cells|, Dynamic, Embedded(k, v), buf, 0);
    var after := Read(s, made, |cells|, buf, 0).cells;
    SteadyFrom(s, |made|, |cells|, made, after, |cells|, |cells|);
    SteadyThen(s, |cells|, cells, made, after, |cells|);
  }

  lemma ReceiveIs(s: Store, cells: Cells, buf: Bytes)
    ensures Receive(s, cells, buf) == Read(s, cells + [BufferCell], |cells|, buf, 0)
  {
    hide Read;
  }

  lemma BaseNone(s: Store, lo: nat)
    requires Base(s, lo)
    ensures KindAt(s, lo).None?
  {
    hide KindAt;
  }

  lemma SteadyRight(s: Store, before: Cells, after: Cells)
    requires Typed(s, before) && Steady(s, |before|, before, after, |before|) && AllRight(s, before)
    ensures AllRight(s, after)
  {
    hide Right, Kept, KindAt, Declared, ColumnAt;
    SteadySize(s, |before|, before, after, |before|);
    forall id, i | IsPlace(s, id, i)
      ensures Right(after, s.refs[id][i], ColumnAt(s, id, i).kind, 0)
    {
      var ref, k := s.refs[id][i], ColumnAt(s, id, i).kind;
      ColumnKind(s, id, i);
      if after[ref] == before[ref] {
        RightKept(before, after, ref, k, 0);
      } else {
        RightLower(after, ref, k, |before|, 0);
      }
    }
  }

  /** No honest buffer gives a column an element type that is not its own. */
  lemma {:induction false} HonestRight(s: Store, cells: Cells, bufs: seq<Bytes>)
    requires Typed(s, cells) && AllRight(s, cells) && forall i :: 0 <= i < |bufs| ==> Honest(s.schemas, bufs[i])
    ensures Typed(s, ReceiveAll(s, cells, bufs)) && AllRight(s, ReceiveAll(s, cells, bufs))
    decreases |bufs|
  {
    hide Receive, Typed, AllRight, Steady, Fits, Encode, Holds, Kept;
    if bufs != [] {
      assert Honest(s.schemas, bufs[0]);
      var k: Kind, v :| !k.Dynamic? && Fits(s.schemas, k, v) && Holds(bufs[0], 0, Encode(s.schemas, k, v));
      ReceiveTrip(s, cells, k, v, bufs[0]);
      var one := Receive(s, cells, bufs[0]).cells;
      SteadySize(s, |cells|, cells, one, |cells|);
      TypedKept(s, cells, one);
      SteadyRight(s, cells, one);
      HonestRight(s, one, bufs[1..]);
    }
  }

  /** A model of an object, made for writing it. */
  function WithObject(cells: Cells, id: Byte): Cells {
    cells + [ObjectCell(Some(id))]
  }

  lemma AllIntactMore(s: Store, cells: Cells, more: Cells)
    requires AllIntact(s, cells)
    ensures AllIntact(s, cells + more)
  {
    hide Intact;
    forall id, i | IsPlace(s, id, i)
      ensures Intact(cells + more, s.refs[id][i], ColumnAt(s, id, i).kind)
    {
      IntactMore(cells, more, s.refs[id][i], ColumnAt(s, id, i).kind);
    }
  }

  /** MAIN: on flat schemas, after any honest buffers every object is still written as
      its encoding. */
  lemma HonestWrites(s: Store, cells: Cells, bufs: seq<Bytes>, id: Byte, v: Value, other: Other)
    requires Flat(s) && AllIntact(s, cells) && forall i :: 0 <= i < |bufs| ==> Honest(s.schemas, bufs[i])
    requires Fits(s.schemas, ObjectOf(id), v)
    ensures var after := ReceiveAll(s, cells, bufs);
      Write(s, WithObject(after, id), |after|, v, other) == Some(Encode(s.schemas, ObjectOf(id), v))
  {
    hide Flat, AllIntact, Typed, AllRight, Honest, Fits, Encode, Write, ReceiveAll, Agrees, Kept;
    IntactTyped(s, cells);
    AllRightIff(s, cells);
    HonestRight(s, cells, bufs);
    var after := ReceiveAll(s, cells, bufs);
    AllRightIff(s, after);
    AllIntactMore(s, after, [ObjectCell(Some(id))]);
    IntactTyped(s, WithObject(after, id));
    assert Intact(WithObject(after, id), |after|, ObjectOf(id));
    IntactAgrees(s, WithObject(after, id), |after|, ObjectOf(id), v);
    WriteIff(s, WithObject(after, id), |after|, ObjectOf(id), v, other);
  }

  lemma ExactIff(ok: bool, w: Option<Bytes>, b: Bytes)
    requires Exact(ok, w, b)
    ensures w == Some(b) <==> ok
  {
  }

  /** MAIN: after any buffers, honest or not, an object is written as its encoding
      exactly when the element types its columns have now are those of its schema. */
  lemma AfterReads(s: Store, cells: Cells, bufs: seq<Bytes>, id: Byte, v: Value, other: Other)
    requires Typed(s, cells) && Fits(s.schemas, ObjectOf(id), v)
    ensures v.Record?
    ensures var after := ReceiveAll(s, cells, bufs);
      Write(s, WithObject(after, id), |after|, v, other) == Some(Encode(s.schemas, ObjectOf(id), v)) <==>
      FieldsAgree(s, WithObject(after, id), id, 0, v.fields)
  {
    hide Typed, Fits, Encode, Write, ReceiveAll, Agrees, FieldsAgree, Exact;
    ObjectParts(s.schemas, id, v);
    var after := ReceiveAll(s, cells, bufs);
    TypedKept(s, cells, after);
    MoreTyped(s, after, ObjectCell(Some(id)));
    WriteIff(s, WithObject(after, id), |after|, ObjectOf(id), v, other);
    ObjectCases(s, WithObject(after, id), |after|, id, v, other);
    ExactIff(Agrees(s, WithObject(after, id), |after|, ObjectOf(id), v), Write(s, WithObject(after, id), |after|, v, other),
             Encode(s.schemas, ObjectOf(id), v));
  }

  lemma MoreTyped(s: Store, cells: Cells, c: Cell)
    requires Typed(s, cells)
    ensures Typed(s, cells + [c])
  {
    hide Declared;
  }

  // ---------- a hostile buffer ----------

  /** An object with honest columns up to one with a list, and there an empty list of
      another element type. */
  function Hostile(id: Byte, before: Bytes, unique: bool, code: Byte): Bytes {
    [10, id] + (before + (ListHead(unique, code) + [0, 0, 0, 0]))
  }

  /** The element type the model of a column reads and writes by. */
  function ElementCode(cells: Cells, ref: nat): Option<Byte> {
    match ElementOf(cells, ref)
    case None => None
    case Some(element) => if element < |cells| then CodeOf(cells[element]) else None
  }

  lemma EmptySize(buf: Bytes, off: nat)
    requires Holds(buf, off, [0, 0, 0, 0])
    ensures WordAt(buf, off, 4) == Some(0)
  {
    assert BigEndian(0, 4) == [0, 0, 0, 0];
    WidthBounds();
    WordBack(buf, off, 0, 4);
  }

  lemma EmptyList(s: Store, cells: Cells, ref: nat, unique: bool, code: Byte, buf: Bytes, off: nat)
    requires ref < |cells| && CodeOf(cells[ref]) == Some(if unique then 11 else ARRAY) && code <= 14
    requires Holds(buf, off, ListHead(unique, code) + [0, 0, 0, 0])
    ensures var r := Read(s, cells, ref, buf, off);
      r.result.Parsed? && r.result.end == off + |ListHead(unique, code)| + 4 && ElementCode(r.cells, ref) == Some(code)
  {
    hide WordAt, Kept, ReadMap, ReadFields, ReadSimple, Unique, Fresh, Holds;
    var head := ListHead(unique, code);
    HoldsParts(buf, off, head, [0, 0, 0, 0]);
    EmptySize(buf, off + |head|);
    HoldsByte(buf, off, head, 0);
    HoldsByte(buf, off, head, |head| - 1);
    var at := if unique then off + 1 else off;
    assert ReadList(s, cells, ref, buf, at) == Outcome(TakeElement(cells, ref, code), Parsed([], at + 6)) by {
      HoldsByte(buf, off + |head|, [0, 0, 0, 0], 0);
    }
  }

  lemma {:induction false} Skipped(s: Store, cells: Cells, id: nat, i: nat, buf: Bytes, off: nat)
    requires off >= |buf|
    ensures ReadFields(s, cells, id, i, buf, off) == Outcome(cells, Parsed([], off))
    decreases if IsPlace(s, id, i) then |s.refs[id]| - i else 0
  {
    hide Read, Kept;
    if IsPlace(s, id, i) {
      Skipped(s, cells, id, i + 1, buf, off);
    }
  }

  lemma {:induction false} HostileFields(s: Store, lo: nat, cells: Cells, id: Byte, i: nat, target: nat, fields: seq<Field>, code: Byte, buf: Bytes, off: nat)
    requires Typed(s, cells) && Base(s, lo) && lo <= |cells|
    requires id < |s.schemas| && i <= target < |SortColumns(s.schemas[id])| && IsPlace(s, id, target)
    requires var k := SortColumns(s.schemas[id])[target].kind; k.ArrayOf? || k.SetOf?
    requires code <= 14 && FieldsFit(s.schemas, SortColumns(s.schemas[id])[..target][i..], fields)
    requires var honest := EncodeFields(s.schemas, SortColumns(s.schemas[id])[..target][i..], fields);
      var list := ListHead(SortColumns(s.schemas[id])[target].kind.SetOf?, code) + [0, 0, 0, 0];
      Holds(buf, off, honest + list) && |buf| == off + |honest + list|
    ensures var r := ReadFields(s, cells, id, i, buf, off);
      r.result.Parsed? && ElementCode(r.cells, s.refs[id][target]) == Some(code)
    decreases target - i
  {
    hide *;
    var all := SortColumns(s.schemas[id]);
    var front := all[..target];
    var list := ListHead(all[target].kind.SetOf?, code) + [0, 0, 0, 0];
    PlaceIs(s, id, i);
    PlaceIs(s, id, target);
    ColumnFor(s, cells, id, i);
    var ref := s.refs[id][i];
    if i == target {
      assert front[i..] == [];
      NoneLeft(s.schemas, Bool, Bool, fields);
      assert [] + list == list;
      ListFor(cells[ref], all[i].kind);
      EmptyList(s, cells, ref, all[i].kind.SetOf?, code, buf, off);
      HeadSize(all[i].kind.SetOf?, code);
      var one := Read(s, cells, ref, buf, off);
      Skipped(s, one.cells, id, i + 1, buf, one.result.end);
      FieldThen(s, cells, id, i, buf, off);
    } else {
      assert front[i] == all[i];
      var k, v := all[i].kind, Lookup(fields, all[i].name);
      FieldsAt(s.schemas, front, fields, i);
      var first, rest := Encode(s.schemas, k, v), EncodeFields(s.schemas, front[i + 1..], fields);
      assert first + rest + list == first + (rest + list);
      HoldsParts(buf, off, first, rest + list);
      ColumnModel(s, cells, id, i);
      RoundTrip(s, cells, ref, k, v, buf, off);
      var r := Read(s, cells, ref, buf, off);
      ReturnsParts(s, cells, ref, k, r, Plain(s.schemas, k, v), off + |first|);
      SteadySize(s, |cells|, cells, r.cells, ref);
      TypedKept(s, cells, r.cells);
      HostileFields(s, lo, r.cells, id, i + 1, target, fields, code, buf, off + |first|);
      FieldThen(s, cells, id, i, buf, off);
    }
  }

  lemma ListFor(c: Cell, k: Kind)
    requires (k.ArrayOf? || k.SetOf?) && IsFor(c, k)
    ensures CodeOf(c) == Some(if k.SetOf? then 11 else ARRAY)
  {
  }

  lemma HeadSize(unique: bool, code: Byte)
    ensures |ListHead(unique, code) + [0, 0, 0, 0]| == |ListHead(unique, code)| + 4 > 0
  {
  }

  /** A column whose model has another element type is never written as declared. */
  lemma {:induction false} NotAgreedFrom(s: Store, cells: Cells, id: nat, i: nat, target: nat, fields: seq<Field>)
    requires i <= target && IsPlace(s, id, target)
    requires var k := ColumnAt(s, id, target).kind;
      (k.ArrayOf? || k.SetOf?) && !k.element.Dynamic? && ElementCode(cells, s.refs[id][target]) != Some(Code(k.element))
    ensures !FieldsAgree(s, cells, id, i, fields)
    decreases target - i
  {
    hide Lookup, ColumnAt, Agrees, ElementCode;
    var c := ColumnAt(s, id, target);
    if i < target {
      NotAgreedFrom(s, cells, id, i + 1, target, fields);
    } else {
      ListNotAgreed(s, cells, s.refs[id][i], c.kind, Lookup(fields, c.name));
    }
  }

  lemma ListNotAgreed(s: Store, cells: Cells, ref: nat, k: Kind, v: Value)
    requires (k.ArrayOf? || k.SetOf?) && !k.element.Dynamic? && ElementCode(cells, ref) != Some(Code(k.element))
    ensures !Agrees(s, cells, ref, k, v)
  {
    hide AllAgree;
  }

  /** MAIN: the hostile buffer is decoded without complaint, and afterwards no object of
      that schema is written as its encoding. */
  lemma HostileWrites(s: Store, cells: Cells, id: Byte, target: nat, fields: seq<Field>, code: Byte, v: Value, other: Other)
    requires Typed(s, cells) && id < |s.schemas| && IsPlace(s, id, target) && Fits(s.schemas, ObjectOf(id), v)
    requires var k := ColumnAt(s, id, target).kind; (k.ArrayOf? || k.SetOf?) && !k.element.Dynamic? && code != Code(k.element)
    requires code <= 14 && FieldsFit(s.schemas, SortColumns(s.schemas[id])[..target], fields)
    ensures var buf := Hostile(id, EncodeFields(s.schemas, SortColumns(s.schemas[id])[..target], fields),
                               ColumnAt(s, id, target).kind.SetOf?, code);
      var r := Receive(s, cells, buf);
      && r.result.Parsed?
      && Write(s, WithObject(r.cells, id), |r.cells|, v, other) != Some(Encode(s.schemas, ObjectOf(id), v))
  {
    hide *;
    PlaceIs(s, id, target);
    var front := SortColumns(s.schemas[id])[..target];
    var k := ColumnAt(s, id, target).kind;
    var honest := EncodeFields(s.schemas, front, fields);
    HostileReceived(s, cells, id, target, fields, code);
    var buf := Hostile(id, honest, k.SetOf?, code);
    var after := Receive(s, cells, buf).cells;
    TypedKept(s, cells, after);
    MoreTyped(s, after, ObjectCell(Some(id)));
    var made := WithObject(after, id);
    ColumnFor(s, after, id, target);
    CodeStays(after, id, s.refs[id][target], code);
    ObjectParts(s.schemas, id, v);
    NotAgreedFrom(s, made, id, 0, target, v.fields);
    WithObjectAt(after, id);
    ObjectCases(s, made, |after|, id, v, other);
    WriteIff(s, made, |after|, ObjectOf(id), v, other);
    ExactIff(Agrees(s, made, |after|, ObjectOf(id), v), Write(s, made, |after|, v, other), Encode(s.schemas, ObjectOf(id), v));
  }

  lemma WithObjectAt(cells: Cells, id: Byte)
    ensures var made := WithObject(cells, id);
      |made| == |cells| + 1 && made[|cells|] == ObjectCell(Some(id)) && CodeOf(made[|cells|]) == Some(10)
    ensures WithObject(cells, id) == cells + [ObjectCell(Some(id))]
  {
  }

  lemma CodeStays(cells: Cells, id: Byte, ref: nat, code: Byte)
    requires ElementCode(cells, ref) == Some(code)
    ensures ElementCode(WithObject(cells, id), ref) == Some(code)
  {
  }

  lemma HostileReceived(s: Store, cells: Cells, id: Byte, target: nat, fields: seq<Field>, code: Byte)
    requires Typed(s, cells) && id < |s.schemas| && IsPlace(s, id, target)
    requires var k := ColumnAt(s, id, target).kind; k.ArrayOf? || k.SetOf?
    requires code <= 14 && FieldsFit(s.schemas, SortColumns(s.schemas[id])[..target], fields)
    ensures var buf := Hostile(id, EncodeFields(s.schemas, SortColumns(s.schemas[id])[..target], fields),
                               ColumnAt(s, id, target).kind.SetOf?, code);
      var r := Receive(s, cells, buf);
      && Kept(cells, r.cells) && r.result.Parsed? && ElementCode(r.cells, s.refs[id][target]) == Some(code)
  {
    hide *;
    PlaceIs(s, id, target);
    var front := SortColumns(s.schemas[id])[..target];
    assert front[0..] == front;
    var bytes := EncodeFields(s.schemas, front, fields) + (ListHead(ColumnAt(s, id, target).kind.SetOf?, code) + [0, 0, 0, 0]);
    var buf := [10, id] + bytes;
    var asked := cells + [BufferCell];
    var made := asked + [Fresh(10)];
    HostileIs(id, EncodeFields(s.schemas, front, fields), ColumnAt(s, id, target).kind.SetOf?, code);
    MoreTyped(s, cells, BufferCell);
    MoreTyped(s, asked, Fresh(10));
    TypedBase(s, made);
    assert buf[0] == 10 && buf[0..0 + |buf|] == buf;
    HoldsAll(buf);
    FreshObject();
    ReadObject(s, made, |asked|, id, bytes, buf, 0);
    HostileFields(s, |made|, made, id, 0, target, fields, code, buf, 2);
    ReadBuffer(s, asked, |cells|, buf, 0);
    ReceiveIs(s, cells, buf);
  }

  lemma HostileIs(id: Byte, before: Bytes, unique: bool, code: Byte)
    ensures Hostile(id, before, unique, code) == [10, id] + (before + (ListHead(unique, code) + [0, 0, 0, 0]))
  {
  }

  lemma FreshObject()
    ensures CodeOf(Fresh(10)) == Some(10) && IsFor(BufferCell, Dynamic)
  {
  }

  lemma HoldsAll(buf: Bytes)
    ensures Holds(buf, 0, buf)
  {
  }

  // ---------- after an honest read ----------

  /** MAIN: an honest object gives the columns of its schema their own element types
      again, whatever was read before. */
  lemma Heals(s: Store, cells: Cells, id: Byte, v: Value, buf: Bytes)
    requires Typed(s, cells) && Fits(s.schemas, ObjectOf(id), v) && Holds(buf, 0, Encode(s.schemas, ObjectOf(id), v))
    ensures ColumnsRight(s, Receive(s, cells, buf).cells, id, 0, 0)
  {
    hide *;
    ObjectParts(s.schemas, id, v);
    var columns := SortColumns(s.schemas[id]);
    assert columns[0..] == columns;
    var bytes := EncodeFields(s.schemas, columns, v.fields);
    var asked := cells + [BufferCell];
    var made := asked + [Fresh(10)];
    MoreTyped(s, cells, BufferCell);
    MoreTyped(s, asked, Fresh(10));
    TypedBase(s, made);
    FreshObject();
    HoldsByte(buf, 0, [10, id] + bytes, 0);
    ReadObject(s, made, |asked|, id, bytes, buf, 0);
    FieldsTrip(s, |made|, made, id, 0, v.fields, buf, 2);
    ReadBuffer(s, asked, |cells|, buf, 0);
    ReceiveIs(s, cells, buf);
    ColumnsLower(s, ReadFields(s, made, id, 0, buf, 2).cells, id, |made|);
  }

  lemma ColumnsLower(s: Store, cells: Cells, id: nat, lo: nat)
    requires ColumnsRight(s, cells, id, 0, lo)
    ensures ColumnsRight(s, cells, id, 0, 0)
  {
    hide Right, ColumnAt;
    forall j | 0 <= j && IsPlace(s, id, j)
      ensures Right(cells, s.refs[id][j], ColumnAt(s, id, j).kind, 0)
    {
      RightLower(cells, s.refs[id][j], ColumnAt(s, id, j).kind, lo, 0);
    }
  }

  /** MAIN: an array of objects cannot be written again once any array was read by its
      model, be it the same array: the model of its elements then knows no schema. */
  lemma ObjectsNotWritten(s: Store, cells: Cells, ref: nat, id: Byte, v: Value, buf: Bytes, off: nat, items: seq<Value>, other: Other)
    requires Typed(s, cells) && ModelOf(s, cells, ref, ArrayOf(ObjectOf(id))) && Fits(s.schemas, ArrayOf(ObjectOf(id)), v)
    requires Holds(buf, off, Encode(s.schemas, ArrayOf(ObjectOf(id)), v))
    ensures items != [] ==> Write(s, Read(s, cells, ref, buf, off).cells, ref, Items(items), other) == None
  {
    hide Read, Fits, Encode, Holds, Typed, Plain, KindAt, Steady;
    RoundTrip(s, cells, ref, ArrayOf(ObjectOf(id)), v, buf, off);
    var after := Read(s, cells, ref, buf, off).cells;
    var element := ElementOf(after, ref).value;
    SteadySize(s, |cells|, cells, after, ref);
    assert Nameless(after[element]);
    if items != [] {
      assert Write(s, after, element, items[0], other) == None;
      assert WriteItems(s, after, element, items, other) == None;
    }
  }
}
