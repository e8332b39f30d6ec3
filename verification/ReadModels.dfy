/** shared/util/byteSerializer: the models that read and write values. An array, a
    set and a map keep the element types they read last, and the models of the
    columns are shared by every read and write of the process. */
module ReadModels {
  import opened Model
  import opened Words
  import opened Serializer

  type SimpleKind = k: Kind | IsSimple(k) witness Bool

  /** One model. The numbers are places of other models; a model made while reading
      has no element types and no schema until it reads. */
  datatype Cell =
    | ValueCell(kind: SimpleKind)
    | ListCell(unique: bool, element: Option<nat>)
    | ObjectCell(schema: Option<Byte>)
    | MapCell(head: Option<Codes>, pair: Option<Places>)
    | BufferCell

  /** The types a map was declared with: its header is written from these. */
  datatype Codes = Codes(key: Byte, value: Byte)

  /** The models of the keys and values of a map. */
  datatype Places = Places(key: nat, value: nat)

  type Cells = seq<Cell>

  datatype Table = Table(schemas: seq<Schema>, refs: seq<seq<nat>>)

  /** Every column, in the order columns are written, has a model of its own. */
  ghost predicate Aligned(t: Table) {
    && |t.refs| == |t.schemas|
    && (forall id :: 0 <= id < |t.refs| ==> |t.refs[id]| == |SortColumns(t.schemas[id])|)
    && (forall a, i, b, j :: 0 <= a < |t.refs| && 0 <= i < |t.refs[a]| && 0 <= b < |t.refs| && 0 <= j < |t.refs[b]| ==>
          t.refs[a][i] == t.refs[b][j] ==> a == b && i == j)
  }

  type Store = t: Table | Aligned(t) ghost witness Table([], [])

  predicate IsPlace(s: Store, id: int, i: int) {
    0 <= id < |s.refs| && 0 <= i < |s.refs[id]|
  }

  function ColumnAt(s: Store, id: nat, i: nat): Column
    requires IsPlace(s, id, i)
  {
    SortColumns(s.schemas[id])[i]
  }

  lemma PlaceIs(s: Store, id: nat, i: nat)
    requires id < |s.schemas|
    ensures |s.refs| == |s.schemas| && |s.refs[id]| == |SortColumns(s.schemas[id])|
    ensures IsPlace(s, id, i) <==> i < |SortColumns(s.schemas[id])|
    ensures IsPlace(s, id, i) ==> ColumnAt(s, id, i) == SortColumns(s.schemas[id])[i]
  {
  }

  function Kinded(code: Byte): (k: SimpleKind)
    requires code <= 8 || code == 13 || code == 14
    ensures Code(k) == code
  {
    match code
    case 0 => Int8
    case 1 => Uint8
    case 2 => Int16
    case 3 => Uint16
    case 4 => Int32
    case 5 => Uint32
    case 6 => Uint64
    case 7 => Double
    case 8 => Utf8
    case 13 => Bool
    case _ => Number64
  }

  /** The type byte a model writes. */
  function CodeOf(c: Cell): Option<Byte> {
    match c
    case ValueCell(k) => Some(Code(k))
    case ListCell(unique, _) => Some(if unique then 11 else ARRAY)
    case ObjectCell(_) => Some(10)
    case MapCell(_, _) => Some(12)
    case BufferCell => None
  }

  /** A model made from a type byte in a buffer. */
  function Fresh(code: Byte): (c: Cell)
    requires code <= 14
    ensures CodeOf(c) == Some(code)
  {
    if code == ARRAY then ListCell(false, None)
    else if code == 10 then ObjectCell(None)
    else if code == 11 then ListCell(true, None)
    else if code == 12 then MapCell(None, None)
    else ValueCell(Kinded(code))
  }

  /** A model without the element types it learned. */
  function Shape(c: Cell): Cell {
    match c
    case ListCell(unique, _) => ListCell(unique, None)
    case MapCell(head, _) => MapCell(head, None)
    case _ => c
  }

  /** No read removes a model or changes what it is; only element types change, and the
      models it makes know no schema. */
  ghost predicate Kept(before: Cells, after: Cells) {
    && |before| <= |after|
    && (forall x :: 0 <= x < |before| ==> Shape(after[x]) == Shape(before[x]))
    && (forall x :: |before| <= x < |after| ==> Nameless(after[x]))
  }

  predicate Nameless(c: Cell) {
    c.ObjectCell? ==> c.schema.None?
  }

  datatype Outcome<T> = Outcome(cells: Cells, result: Parsed<T>)

  function ElementOf(cells: Cells, ref: nat): Option<nat> {
    if ref < |cells| && cells[ref].ListCell? then cells[ref].element else None
  }

  // ---------- reading ----------

  /** Reading at an offset by a model; it fails where the program would throw, and
      keeps the element types set before that. Every value takes at least one byte,
      so every loop over values ends. */
  function Read(s: Store, cells: Cells, ref: nat, buf: Bytes, off: nat): (r: Outcome<Value>)
    ensures Kept(cells, r.cells)
    ensures r.result.Parsed? ==> off < |buf| && r.result.end > off
    decreases Left(buf, off), 0, if ref < |cells| && cells[ref].BufferCell? then 2 else 1
  {
    if ref >= |cells| || off >= |buf| then Outcome(cells, Failed)
    else
      match cells[ref]
      case ValueCell(k) => Outcome(cells, ReadSimple(Code(k), buf, off))
      case BufferCell =>
        if buf[off] > 14 then Outcome(cells, Failed)
        else
          var made := cells + [Fresh(buf[off])];
          Read(s, made, |cells|, buf, off)
      case ObjectCell(_) =>
        if off + 1 >= |buf| || buf[off + 1] >= |s.schemas| then Outcome(cells, Failed)
        else
          var r := ReadFields(s, cells, buf[off + 1], 0, buf, off + 2);
          Outcome(r.cells, match r.result case Failed => Failed case Parsed(fields, end) => Parsed(Record(fields), end))
      case ListCell(unique, _) =>
        var r := ReadList(s, cells, ref, buf, if unique then off + 1 else off);
        Outcome(r.cells,
                match r.result
                case Failed => Failed
                case Parsed(items, end) => Parsed(Items(if unique then Unique(items) else items), end))
      case MapCell(_, _) => ReadMap(s, cells, ref, buf, off)
  }

  /** An array takes the element type of the buffer, and its loop reads by the
      element type it has at each turn. */
  function ReadList(s: Store, cells: Cells, ref: nat, buf: Bytes, off: nat): (r: Outcome<seq<Value>>)
    requires ref < |cells| && cells[ref].ListCell?
    ensures Kept(cells, r.cells)
    ensures r.result.Parsed? ==> off < |buf| && r.result.end > off
    decreases Left(buf, off), 0, 0
  {
    if off + 1 >= |buf| then Outcome(cells, Failed)
    else
      match WordAt(buf, off + 2, 4)
      case None => Outcome(cells, Failed)
      case Some(size) =>
        if buf[off + 1] > 14 then Outcome(cells, Failed)
        else ReadItems(s, TakeElement(cells, ref, buf[off + 1]), ref, buf, off + 6, off + 6 + size)
  }

  function TakeElement(cells: Cells, ref: nat, code: Byte): (after: Cells)
    requires ref < |cells| && cells[ref].ListCell? && code <= 14
    ensures |after| == |cells| + 1 && Kept(cells, after)
    ensures ElementOf(after, ref) == Some(|cells|) && after[|cells|] == Fresh(code)
    ensures forall x :: 0 <= x < |cells| && x != ref ==> after[x] == cells[x]
  {
    cells[ref := cells[ref].(element := Some(|cells|))] + [Fresh(code)]
  }

  function ReadItems(s: Store, cells: Cells, ref: nat, buf: Bytes, off: nat, end: nat): (r: Outcome<seq<Value>>)
    ensures Kept(cells, r.cells)
    ensures r.result.Parsed? ==> r.result.end >= off
    decreases Left(buf, off), 1, 0
  {
    if off >= end then Outcome(cells, Parsed([], off))
    else
      match ElementOf(cells, ref)
      case None => Outcome(cells, Failed)
      case Some(element) =>
        var first := Read(s, cells, element, buf, off);
        match first.result
        case Failed => Outcome(first.cells, Failed)
        case Parsed(item, next) =>
          var rest := ReadItems(s, first.cells, ref, buf, next, end);
          Outcome(rest.cells, match rest.result case Failed => Failed case Parsed(items, last) => Parsed([item] + items, last))
  }

  /** A map takes both element types of the buffer before it reads its size. */
  function ReadMap(s: Store, cells: Cells, ref: nat, buf: Bytes, off: nat): (r: Outcome<Value>)
    requires ref < |cells| && cells[ref].MapCell?
    ensures Kept(cells, r.cells)
    ensures r.result.Parsed? ==> off < |buf| && r.result.end > off
    decreases Left(buf, off), 0, 0
  {
    if off + 2 >= |buf| || buf[off + 1] > 14 || buf[off + 2] > 14 then Outcome(cells, Failed)
    else
      var made := TakePair(cells, ref, buf[off + 1], buf[off + 2]);
      match WordAt(buf, off + 3, 4)
      case None => Outcome(made, Failed)
      case Some(size) =>
        var r := ReadEntries(s, made, |cells|, |cells| + 1, buf, off + 7, off + 7 + size);
        Outcome(r.cells, match r.result case Failed => Failed case Parsed(entries, end) => Parsed(Entries(MapFrom(entries)), end))
  }

  function TakePair(cells: Cells, ref: nat, key: Byte, value: Byte): (after: Cells)
    requires ref < |cells| && cells[ref].MapCell? && key <= 14 && value <= 14
    ensures Kept(cells, after) && after[ref] == cells[ref].(pair := Some(Places(|cells|, |cells| + 1)))
    ensures forall x :: 0 <= x < |cells| && x != ref ==> after[x] == cells[x]
    ensures |after| == |cells| + 2 && after[|cells|] == Fresh(key) && after[|cells| + 1] == Fresh(value)
  {
    cells[ref := cells[ref].(pair := Some(Places(|cells|, |cells| + 1)))] + [Fresh(key), Fresh(value)]
  }

  function ReadEntry(s: Store, cells: Cells, key: nat, value: nat, buf: Bytes, off: nat): (r: Outcome<Entry>)
    ensures Kept(cells, r.cells)
    ensures r.result.Parsed? ==> off < |buf| && r.result.end > off
    decreases Left(buf, off), 1, 0
  {
    var first := Read(s, cells, key, buf, off);
    match first.result
    case Failed => Outcome(first.cells, Failed)
    case Parsed(k, middle) =>
      var second := Read(s, first.cells, value, buf, middle);
      Outcome(second.cells, match second.result case Failed => Failed case Parsed(v, next) => Parsed(Entry(k, v), next))
  }

  function ReadEntries(s: Store, cells: Cells, key: nat, value: nat, buf: Bytes, off: nat, end: nat): (r: Outcome<seq<Entry>>)
    ensures Kept(cells, r.cells)
    ensures r.result.Parsed? ==> r.result.end >= off
    decreases Left(buf, off), 2, 0
  {
    if off >= end then Outcome(cells, Parsed([], off))
    else
      var first := ReadEntry(s, cells, key, value, buf, off);
      match first.result
      case Failed => Outcome(first.cells, Failed)
      case Parsed(entry, next) =>
        var rest := ReadEntries(s, first.cells, key, value, buf, next, end);
        Outcome(rest.cells, match rest.result case Failed => Failed case Parsed(entries, last) => Parsed([entry] + entries, last))
  }

  /** The columns of a schema from one on; those past the end of the buffer are left
      out of the object. */
  function ReadFields(s: Store, cells: Cells, id: nat, i: nat, buf: Bytes, off: nat): (r: Outcome<seq<Field>>)
    ensures Kept(cells, r.cells)
    ensures r.result.Parsed? ==> r.result.end >= off
    decreases Left(buf, off), 1, if IsPlace(s, id, i) then |s.refs[id]| - i else 0
  {
    if !IsPlace(s, id, i) then Outcome(cells, Parsed([], off))
    else if off >= |buf| then ReadFields(s, cells, id, i + 1, buf, off)
    else
      var first := Read(s, cells, s.refs[id][i], buf, off);
      match first.result
      case Failed => Outcome(first.cells, Failed)
      case Parsed(v, next) =>
        var rest := ReadFields(s, first.cells, id, i + 1, buf, next);
        Outcome(rest.cells,
                match rest.result
                case Failed => Failed
                case Parsed(fields, last) => Parsed([Field(ColumnAt(s, id, i).name, v)] + fields, last))
  }

  /** Decoding a received buffer: a new model reads by the type byte it starts with. */
  function Receive(s: Store, cells: Cells, buf: Bytes): (r: Outcome<Value>)
    ensures Kept(cells, r.cells)
  {
    Read(s, cells + [BufferCell], |cells|, buf, 0)
  }

  /** The models after any buffers were received, whether reading them succeeded or
      threw. */
  function ReceiveAll(s: Store, cells: Cells, bufs: seq<Bytes>): (after: Cells)
    ensures Kept(cells, after)
    decreases |bufs|
  {
    if bufs == [] then cells else ReceiveAll(s, Receive(s, cells, bufs[0]).cells, bufs[1..])
  }

  // ---------- models of the declared types ----------

  /** The model is one for this type, whatever element types it has learned. */
  predicate IsFor(c: Cell, k: Kind) {
    match k
    case Dynamic => c.BufferCell?
    case _ => CodeOf(c) == Some(Code(k))
  }

  /** Every column has a model of its type. */
  ghost predicate Typed(s: Store, cells: Cells) {
    forall id, i :: IsPlace(s, id, i) ==>
      s.refs[id][i] < |cells| && Declared(cells[s.refs[id][i]], ColumnAt(s, id, i).kind)
  }

  /** What a model was made with: its type, the schema of an object, the header of a map. */
  predicate Declared(c: Cell, k: Kind) {
    && IsFor(c, k)
    && (k.ObjectOf? ==> c == ObjectCell(Some(k.schema)))
    && (k.MapOf? && !k.key.Dynamic? && !k.value.Dynamic? ==> c.MapCell? && c.head == Some(Codes(Code(k.key), Code(k.value))))
  }

  lemma ShapeDeclared(a: Cell, b: Cell, k: Kind)
    requires Shape(a) == Shape(b)
    ensures CodeOf(a) == CodeOf(b) && IsFor(a, k) == IsFor(b, k) && Declared(a, k) == Declared(b, k)
  {
  }

  /** Whatever is read, well formed or not, every column keeps a model of its type. */
  lemma TypedKept(s: Store, before: Cells, after: Cells)
    requires Typed(s, before) && Kept(before, after)
    ensures Typed(s, after)
  {
    hide Declared, Shape;
    forall id, i | IsPlace(s, id, i)
      ensures s.refs[id][i] < |after| && Declared(after[s.refs[id][i]], ColumnAt(s, id, i).kind)
    {
      ShapeDeclared(before[s.refs[id][i]], after[s.refs[id][i]], ColumnAt(s, id, i).kind);
    }
  }

  // ---------- element types ----------

  /** The model's element types, all from this place on, have the codes of the type. */
  predicate Right(cells: Cells, ref: nat, k: Kind, from: nat) {
    && ref < |cells|
    && match k
       case ArrayOf(e) => ElementRight(cells, ElementOf(cells, ref), e, from)
       case SetOf(e) => ElementRight(cells, ElementOf(cells, ref), e, from)
       case MapOf(key, value) =>
         && cells[ref].MapCell? && cells[ref].pair.Some?
         && ElementRight(cells, Some(cells[ref].pair.value.key), key, from)
         && ElementRight(cells, Some(cells[ref].pair.value.value), value, from)
       case _ => true
  }

  predicate ElementRight(cells: Cells, element: Option<nat>, e: Kind, from: nat) {
    element.Some? && from <= element.value < |cells| && IsFor(cells[element.value], e)
  }

  lemma RightKept(before: Cells, after: Cells, ref: nat, k: Kind, from: nat)
    requires Right(before, ref, k, from) && Kept(before, after) && after[ref] == before[ref]
    ensures Right(after, ref, k, from)
  {
    hide IsFor, Shape;
    forall e, x | 0 <= x < |before|
      ensures IsFor(after[x], e) == IsFor(before[x], e)
    {
      ShapeDeclared(before[x], after[x], e);
    }
  }

  lemma RightLower(cells: Cells, ref: nat, k: Kind, from: nat, lower: nat)
    requires Right(cells, ref, k, from) && lower <= from
    ensures Right(cells, ref, k, lower)
  {
  }

  /** The type of the column whose model stands here. */
  ghost function KindAt(s: Store, ref: nat): Option<Kind> {
    if id, i :| IsPlace(s, id, i) && s.refs[id][i] == ref then Some(ColumnAt(s, id, i).kind) else None
  }
}
