/** shared/util/byteSerializer: writing by the shared models, whatever they have read.
    A buffer is the encoding of its value exactly while the models it is written by
    have the element types of their columns. */
module WriteModels {
  import opened Model
  import opened Words
  import opened Serializer
  import opened ReadModels

  // ---------- writing by a model ----------

  /** What a writer puts after its type byte for a value of another type, if it does
      not throw. */
  type Other = (Byte, Value) -> Option<Bytes>

  function Wrong(code: Byte, v: Value, other: Other): Option<Bytes> {
    match other(code, v)
    case None => None
    case Some(rest) => Some([code] + rest)
  }

  function Join(a: Option<Bytes>, b: Option<Bytes>): Option<Bytes> {
    if a.Some? && b.Some? then Some(a.value + b.value) else None
  }

  /** A header, the size of the body in four bytes, and the body. */
  function Sized(head: Bytes, body: Option<Bytes>): Option<Bytes> {
    if body.None? || |body.value| >= WORD then None
    else Some(head + (BigEndian(|body.value|, 4) + body.value))
  }

  function ListHead(unique: bool, code: Byte): Bytes {
    if unique then [11, ARRAY, code] else [ARRAY, code]
  }

  /** What a model writes; None where the program throws. An array writes by the
      element type it has now; a map names in its header the types it was declared
      with and writes its pairs by those it has now. */
  function Write(s: Store, cells: Cells, ref: nat, v: Value, other: Other): Option<Bytes>
    decreases Size(v), 0, 0
  {
    if ref >= |cells| then None
    else
      match cells[ref]
      case ValueCell(k) => if Fits(s.schemas, k, v) then Some(Encode(s.schemas, k, v)) else Wrong(Code(k), v, other)
      case ListCell(unique, element) =>
        if !v.Items? then Wrong(if unique then 11 else ARRAY, v, other)
        else if element.None? || element.value >= |cells| || CodeOf(cells[element.value]).None? then None
        else Sized(ListHead(unique, CodeOf(cells[element.value]).value), WriteItems(s, cells, element.value, v.items, other))
      case MapCell(head, pair) =>
        if !v.Entries? then Wrong(12, v, other)
        else if head.None? || pair.None? then None
        else Sized([12, head.value.key, head.value.value], WriteEntries(s, cells, pair.value.key, pair.value.value, v.entries, other))
      case ObjectCell(schema) =>
        if schema.None? || schema.value >= |s.schemas| then None
        else if !v.Record? then Wrong(10, v, other)
        else Join(Some([10, schema.value]), WriteFields(s, cells, schema.value, 0, v.fields, other))
      case BufferCell =>
        if v.Embedded? && !v.kind.Dynamic? && Fits(s.schemas, v.kind, v.inner) then Some(Encode(s.schemas, v.kind, v.inner)) else None
  }

  function WriteItems(s: Store, cells: Cells, element: nat, items: seq<Value>, other: Other): Option<Bytes>
    decreases SizeItems(items), 1, |items|
  {
    if items == [] then Some([])
    else Join(Write(s, cells, element, items[0], other), WriteItems(s, cells, element, items[1..], other))
  }

  function WriteEntry(s: Store, cells: Cells, key: nat, value: nat, e: Entry, other: Other): Option<Bytes>
    decreases SizeEntry(e), 1, 0
  {
    Join(Write(s, cells, key, e.key, other), Write(s, cells, value, e.value, other))
  }

  function WriteEntries(s: Store, cells: Cells, key: nat, value: nat, entries: seq<Entry>, other: Other): Option<Bytes>
    decreases SizeEntries(entries), 2, |entries|
  {
    if entries == [] then Some([])
    else Join(WriteEntry(s, cells, key, value, entries[0], other), WriteEntries(s, cells, key, value, entries[1..], other))
  }

  function WriteFields(s: Store, cells: Cells, id: nat, i: nat, fields: seq<Field>, other: Other): Option<Bytes>
    decreases SizeFields(fields), 1, if IsPlace(s, id, i) then |s.refs[id]| - i else 0
  {
    if !IsPlace(s, id, i) then Some([])
    else
      Join(Write(s, cells, s.refs[id][i], Lookup(fields, ColumnAt(s, id, i).name), other),
           WriteFields(s, cells, id, i + 1, fields, other))
  }

  // ---------- when the models have the right types ----------

  /** Every model that writes a part of this value has the type the value is declared
      with, down to the element types of arrays, sets and maps that are not empty. */
  predicate Agrees(s: Store, cells: Cells, ref: nat, k: Kind, v: Value)
    decreases Size(v), 0, 0
  {
    && ref < |cells|
    && match k
       case ArrayOf(e) => v.Items? && cells[ref].ListCell? && !cells[ref].unique && ItemsAgree(s, cells, cells[ref].element, e, v.items)
       case SetOf(e) => v.Items? && cells[ref].ListCell? && cells[ref].unique && ItemsAgree(s, cells, cells[ref].element, e, v.items)
       case MapOf(key, value) =>
         && v.Entries? && !key.Dynamic? && !value.Dynamic?
         && cells[ref].MapCell? && cells[ref].head == Some(Codes(Code(key), Code(value))) && cells[ref].pair.Some?
         && EntriesAgree(s, cells, cells[ref].pair.value, key, value, v.entries)
       case ObjectOf(id) => v.Record? && cells[ref] == ObjectCell(Some(id)) && FieldsAgree(s, cells, id, 0, v.fields)
       case Dynamic => cells[ref].BufferCell?
       case _ => cells[ref] == ValueCell(k)
  }

  /** An array names its element type even when it is empty. */
  predicate ItemsAgree(s: Store, cells: Cells, element: Option<nat>, e: Kind, items: seq<Value>)
    decreases SizeItems(items), 2, |items|
  {
    !e.Dynamic? && ElementRight(cells, element, e, 0) && AllAgree(s, cells, element.value, e, items)
  }

  predicate AllAgree(s: Store, cells: Cells, element: nat, e: Kind, items: seq<Value>)
    decreases SizeItems(items), 1, |items|
  {
    items == [] || (Agrees(s, cells, element, e, items[0]) && AllAgree(s, cells, element, e, items[1..]))
  }

  predicate EntriesAgree(s: Store, cells: Cells, pair: Places, key: Kind, value: Kind, entries: seq<Entry>)
    decreases SizeEntries(entries), 2, |entries|
  {
    entries == [] || (EntryAgrees(s, cells, pair, key, value, entries[0]) && EntriesAgree(s, cells, pair, key, value, entries[1..]))
  }

  predicate EntryAgrees(s: Store, cells: Cells, pair: Places, key: Kind, value: Kind, e: Entry)
    decreases SizeEntry(e), 1, 0
  {
    Agrees(s, cells, pair.key, key, e.key) && Agrees(s, cells, pair.value, value, e.value)
  }

  predicate FieldsAgree(s: Store, cells: Cells, id: nat, i: nat, fields: seq<Field>)
    decreases SizeFields(fields), 1, if IsPlace(s, id, i) then |s.refs[id]| - i else 0
  {
    IsPlace(s, id, i) ==>
      var c := ColumnAt(s, id, i);
      Agrees(s, cells, s.refs[id][i], c.kind, Lookup(fields, c.name)) && FieldsAgree(s, cells, id, i + 1, fields)
  }

  // ---------- writing as declared, or otherwise ----------

  /** The two differ at a byte both have, so nothing that follows makes them equal. */
  ghost predicate Differ(a: Bytes, b: Bytes) {
    exists i :: 0 <= i < |a| && i < |b| && a[i] != b[i]
  }

  /** The bytes are these if the condition holds, and clash with them if not. */
  ghost predicate Exact(ok: bool, w: Option<Bytes>, b: Bytes) {
    if ok then w == Some(b) else w.None? || Differ(w.value, b)
  }

  lemma DifferShift(a: Bytes, b: Bytes, x: Bytes, y: Bytes)
    requires |a| == |b| && (a != b || Differ(x, y))
    ensures Differ(a + x, b + y)
  {
    if a != b {
      var i :| 0 <= i < |a| && a[i] != b[i];
      assert (a + x)[i] != (b + y)[i];
    } else {
      var i :| 0 <= i < |x| && i < |y| && x[i] != y[i];
      assert (a + x)[|a| + i] != (b + y)[|a| + i];
    }
  }

  lemma DifferMore(a: Bytes, b: Bytes, x: Bytes, y: Bytes)
    requires Differ(a, b)
    ensures Differ(a + x, b + y)
  {
    var i :| 0 <= i < |a| && i < |b| && a[i] != b[i];
    assert (a + x)[i] != (b + y)[i];
  }

  lemma ExactJoin(p: bool, v: Option<Bytes>, a: Bytes, q: bool, w: Option<Bytes>, b: Bytes)
    requires Exact(p, v, a) && Exact(q, w, b)
    ensures Exact(p && q, Join(v, w), a + b)
  {
    hide Differ;
    if v.Some? && w.Some? {
      if !p {
        DifferMore(v.value, a, w.value, b);
      } else if !q {
        DifferShift(a, a, w.value, b);
      }
    }
  }

  lemma ExactSized(ok: bool, head: Bytes, w: Option<Bytes>, declared: Bytes, body: Bytes)
    requires |head| == |declared| && Exact(ok, w, body) && |body| < WORD
    ensures Exact(ok && head == declared, Sized(head, w), declared + (BigEndian(|body|, 4) + body))
  {
    hide Differ, BigEndian, Pow256;
    if w.Some? && |w.value| < WORD {
      var x, y := BigEndian(|w.value|, 4) + w.value, BigEndian(|body|, 4) + body;
      if head != declared {
        DifferShift(head, declared, x, y);
      } else if !ok {
        SizesDiffer(|w.value|, |body|);
        DifferShift(BigEndian(|w.value|, 4), BigEndian(|body|, 4), w.value, body);
        DifferShift(head, declared, x, y);
      }
    }
  }

  lemma SizesDiffer(m: nat, n: nat)
    requires m < WORD && n < WORD
    ensures BigEndian(m, 4) == BigEndian(n, 4) ==> m == n
  {
    hide BigEndian, FromBigEndian, Pow256;
    WidthBounds();
    BigEndianBack(m, 4);
    BigEndianBack(n, 4);
  }

  lemma FirstDiffers(code: Byte, w: Option<Bytes>, b: Bytes)
    requires |b| > 0 && b[0] != code && (w.Some? ==> |w.value| > 0 && w.value[0] == code)
    ensures Exact(false, w, b)
  {
    if w.Some? {
      assert w.value[0] != b[0];
    }
  }

  // ---------- the condition ----------

  /** MAIN: after whatever reads, a model writes the encoding of a value exactly when
      the models of its parts have the declared types; otherwise it throws or writes
      bytes that differ from it. */
  lemma {:induction false} WriteIff(s: Store, cells: Cells, ref: nat, k: Kind, v: Value, other: Other)
    requires Typed(s, cells) && Fits(s.schemas, k, v) && (k.Dynamic? ==> ref < |cells| && IsFor(cells[ref], k))
    ensures Exact(Agrees(s, cells, ref, k, v), Write(s, cells, ref, v, other), Encode(s.schemas, k, v))
    decreases Size(v), 0, 2
  {
    hide *;
    if ref >= |cells| {
      NoModel(s, cells, ref, k, v, other);
      NothingWritten(Encode(s.schemas, k, v));
    } else if k.Dynamic? {
      WriteBuffer(s, cells, ref, v, other);
    } else if CodeOf(cells[ref]) != Some(Code(k)) {
      OtherModel(s, cells, ref, k, v, other);
    } else if IsSimple(k) {
      WriteSimple(s, cells, ref, k, v, other);
    } else {
      KindCases(k);
      if k.ArrayOf? || k.SetOf? {
        WriteList(s, cells, ref, k, v, other);
      } else if k.ObjectOf? {
        WriteObject(s, cells, ref, k.schema, v, other);
      } else {
        WriteMap(s, cells, ref, k, v, other);
      }
    }
  }

  lemma KindCases(k: Kind)
    ensures IsSimple(k) || k.Dynamic? || k.ArrayOf? || k.SetOf? || k.ObjectOf? || k.MapOf?
    ensures k.ObjectOf? ==> Code(k) == 10
  {
  }

  lemma NoModel(s: Store, cells: Cells, ref: nat, k: Kind, v: Value, other: Other)
    requires ref >= |cells|
    ensures !Agrees(s, cells, ref, k, v) && Write(s, cells, ref, v, other) == None
  {
  }

  lemma WriteBuffer(s: Store, cells: Cells, ref: nat, v: Value, other: Other)
    requires ref < |cells| && IsFor(cells[ref], Dynamic) && Fits(s.schemas, Dynamic, v)
    ensures Exact(Agrees(s, cells, ref, Dynamic, v), Write(s, cells, ref, v, other), Encode(s.schemas, Dynamic, v))
  {
  }

  /** A model of another type writes another type byte. */
  lemma OtherModel(s: Store, cells: Cells, ref: nat, k: Kind, v: Value, other: Other)
    requires ref < |cells| && !k.Dynamic? && CodeOf(cells[ref]) != Some(Code(k)) && Fits(s.schemas, k, v)
    ensures Exact(Agrees(s, cells, ref, k, v), Write(s, cells, ref, v, other), Encode(s.schemas, k, v))
  {
    hide Exact, Write, Encode, Fits;
    FirstByte(s.schemas, k, v);
    NotAgreed(s, cells, ref, k, v);
    if cells[ref].BufferCell? {
      NotEmbedded(s, cells, ref, k, v, other);
    } else {
      WriteFirst(s, cells, ref, v, other);
      FirstDiffers(CodeOf(cells[ref]).value, Write(s, cells, ref, v, other), Encode(s.schemas, k, v));
    }
  }

  lemma NotAgreed(s: Store, cells: Cells, ref: nat, k: Kind, v: Value)
    requires ref < |cells| && !k.Dynamic? && CodeOf(cells[ref]) != Some(Code(k))
    ensures !Agrees(s, cells, ref, k, v)
  {
    hide ItemsAgree, EntriesAgree, FieldsAgree;
  }

  lemma NotEmbedded(s: Store, cells: Cells, ref: nat, k: Kind, v: Value, other: Other)
    requires ref < |cells| && cells[ref].BufferCell? && !k.Dynamic? && Fits(s.schemas, k, v)
    ensures Exact(false, Write(s, cells, ref, v, other), Encode(s.schemas, k, v))
  {
    hide Encode;
  }

  lemma WriteFirst(s: Store, cells: Cells, ref: nat, v: Value, other: Other)
    requires ref < |cells| && CodeOf(cells[ref]).Some?
    ensures var w := Write(s, cells, ref, v, other);
      w.Some? ==> |w.value| > 0 && w.value[0] == CodeOf(cells[ref]).value
  {
    hide WriteItems, WriteEntries, WriteFields, Fits, Encode, BigEndian;
    if cells[ref].ValueCell? && Fits(s.schemas, cells[ref].kind, v) {
      FirstByte(s.schemas, cells[ref].kind, v);
    }
  }

  lemma WriteSimple(s: Store, cells: Cells, ref: nat, k: Kind, v: Value, other: Other)
    requires ref < |cells| && IsSimple(k) && CodeOf(cells[ref]) == Some(Code(k)) && Fits(s.schemas, k, v)
    ensures Exact(Agrees(s, cells, ref, k, v), Write(s, cells, ref, v, other), Encode(s.schemas, k, v))
  {
    hide Encode, Fits;
  }

  // ---------- arrays and sets ----------

  lemma WriteList(s: Store, cells: Cells, ref: nat, k: Kind, v: Value, other: Other)
    requires ref < |cells| && (k.ArrayOf? || k.SetOf?) && CodeOf(cells[ref]) == Some(Code(k))
    requires Typed(s, cells) && Fits(s.schemas, k, v)
    ensures Exact(Agrees(s, cells, ref, k, v), Write(s, cells, ref, v, other), Encode(s.schemas, k, v))
    decreases Size(v), 0, 1
  {
    hide Exact, Write, Encode, Fits, Agrees, ItemsAgree, Typed, Size, AllFit, ItemsLength, EncodeItems, SizeItems, Sized, ListHead, BigEndian;
    var e := k.element;
    ListParts(s.schemas, k, v);
    HeadBytes(k.SetOf?, Code(e), EncodeItems(s.schemas, e, v.items));
    ListCases(s, cells, ref, k, v, other);
    var element := cells[ref].element;
    var body := EncodeItems(s.schemas, e, v.items);
    if element.Some? && element.value < |cells| && CodeOf(cells[element.value]).Some? {
      var code := CodeOf(cells[element.value]).value;
      ItemsIff(s, cells, element.value, e, v.items, other);
      HeadIs(k.SetOf?, code, Code(e));
      ExactSized(AllAgree(s, cells, element.value, e, v.items), ListHead(k.SetOf?, code),
                 WriteItems(s, cells, element.value, v.items, other), ListHead(k.SetOf?, Code(e)), body);
    } else {
      NothingWritten(Encode(s.schemas, k, v));
    }
  }

  lemma NothingWritten(b: Bytes)
    ensures Exact(false, None, b)
  {
  }

  lemma HeadIs(unique: bool, a: Byte, b: Byte)
    ensures |ListHead(unique, a)| == |ListHead(unique, b)|
    ensures ListHead(unique, a) == ListHead(unique, b) <==> a == b
  {
    if unique {
      assert ListHead(unique, a)[2] == a && ListHead(unique, b)[2] == b;
    } else {
      assert ListHead(unique, a)[1] == a && ListHead(unique, b)[1] == b;
    }
  }

  lemma HeadBytes(unique: bool, code: Byte, body: Bytes)
    ensures ListHead(unique, code) + (BigEndian(|body|, 4) + body) == (if unique then [11] else []) + ArrayBytes(code, body)
  {
    HeadThen(unique, code, BigEndian(|body|, 4) + body);
  }

  lemma HeadThen(unique: bool, code: Byte, rest: Bytes)
    ensures ListHead(unique, code) + rest == (if unique then [11] else []) + ([ARRAY, code] + rest)
  {
    if unique {
      assert [11, ARRAY, code] == [11] + [ARRAY, code];
      assert [11] + [ARRAY, code] + rest == [11] + ([ARRAY, code] + rest);
    } else {
      assert [] + ([ARRAY, code] + rest) == [ARRAY, code] + rest;
    }
  }

  lemma ListCases(s: Store, cells: Cells, ref: nat, k: Kind, v: Value, other: Other)
    requires ref < |cells| && (k.ArrayOf? || k.SetOf?) && v.Items? && !k.element.Dynamic? && CodeOf(cells[ref]) == Some(Code(k))
    ensures cells[ref].ListCell?
    ensures var element := cells[ref].element;
      var made := element.Some? && element.value < |cells| && CodeOf(cells[element.value]).Some?;
      && (!made ==> Write(s, cells, ref, v, other) == None && !Agrees(s, cells, ref, k, v))
      && (made ==>
            var code := CodeOf(cells[element.value]).value;
            && Write(s, cells, ref, v, other) == Sized(ListHead(k.SetOf?, code), WriteItems(s, cells, element.value, v.items, other))
            && (Agrees(s, cells, ref, k, v) <==> AllAgree(s, cells, element.value, k.element, v.items) && code == Code(k.element)))
  {
    hide WriteItems, AllAgree, Sized;
  }

  lemma {:induction false} ItemsIff(s: Store, cells: Cells, element: nat, e: Kind, items: seq<Value>, other: Other)
    requires Typed(s, cells) && !e.Dynamic? && AllFit(s.schemas, e, items)
    ensures Exact(AllAgree(s, cells, element, e, items), WriteItems(s, cells, element, items, other), EncodeItems(s.schemas, e, items))
    decreases SizeItems(items), 1, |items|
  {
    hide Exact, Write, Encode, Fits, Agrees, Typed, Size, Join;
    if items == [] {
      assert Exact(true, Some([]), []) by {
        Same([]);
      }
    } else {
      WriteIff(s, cells, element, e, items[0], other);
      ItemsIff(s, cells, element, e, items[1..], other);
      ExactJoin(Agrees(s, cells, element, e, items[0]), Write(s, cells, element, items[0], other), Encode(s.schemas, e, items[0]),
                AllAgree(s, cells, element, e, items[1..]), WriteItems(s, cells, element, items[1..], other),
                EncodeItems(s.schemas, e, items[1..]));
    }
  }

  lemma Same(b: Bytes)
    ensures Exact(true, Some(b), b)
  {
  }

  // ---------- maps ----------

  lemma WriteMap(s: Store, cells: Cells, ref: nat, k: Kind, v: Value, other: Other)
    requires ref < |cells| && k.MapOf? && CodeOf(cells[ref]) == Some(Code(k)) && Typed(s, cells) && Fits(s.schemas, k, v)
    ensures Exact(Agrees(s, cells, ref, k, v), Write(s, cells, ref, v, other), Encode(s.schemas, k, v))
    decreases Size(v), 0, 1
  {
    hide Exact, Write, Encode, Fits, Agrees, EntriesAgree, Typed, Size, EntriesFit, EncodeEntries, SizeEntries, Sized, BigEndian, Code;
    MapParts(s.schemas, k, v);
    MapCases(s, cells, ref, k, v, other);
    var body := EncodeEntries(s.schemas, k.key, k.value, v.entries);
    if cells[ref].head.Some? && cells[ref].pair.Some? {
      var head, pair := cells[ref].head.value, cells[ref].pair.value;
      EntriesIff(s, cells, pair, k.key, k.value, v.entries, other);
      MapHeadIs(head, Codes(Code(k.key), Code(k.value)));
      ExactSized(EntriesAgree(s, cells, pair, k.key, k.value, v.entries), [12, head.key, head.value],
                 WriteEntries(s, cells, pair.key, pair.value, v.entries, other), [12, Code(k.key), Code(k.value)], body);
    } else {
      NothingWritten(Encode(s.schemas, k, v));
    }
  }

  lemma MapHeadIs(a: Codes, b: Codes)
    ensures [12, a.key, a.value] == [12, b.key, b.value] <==> a == b
  {
    var x, y := [12, a.key, a.value], [12, b.key, b.value];
    assert x[1] == a.key && x[2] == a.value && y[1] == b.key && y[2] == b.value;
  }

  lemma MapCases(s: Store, cells: Cells, ref: nat, k: Kind, v: Value, other: Other)
    requires ref < |cells| && k.MapOf? && v.Entries? && !k.key.Dynamic? && !k.value.Dynamic? && CodeOf(cells[ref]) == Some(Code(k))
    ensures cells[ref].MapCell?
    ensures var head, pair := cells[ref].head, cells[ref].pair;
      && (head.None? || pair.None? ==> Write(s, cells, ref, v, other) == None && !Agrees(s, cells, ref, k, v))
      && (head.Some? && pair.Some? ==>
            && Write(s, cells, ref, v, other) ==
                 Sized([12, head.value.key, head.value.value], WriteEntries(s, cells, pair.value.key, pair.value.value, v.entries, other))
            && (Agrees(s, cells, ref, k, v) <==>
                  EntriesAgree(s, cells, pair.value, k.key, k.value, v.entries) && head.value == Codes(Code(k.key), Code(k.value))))
  {
    hide WriteEntries, EntriesAgree, Sized;
  }

  lemma {:induction false} EntriesIff(s: Store, cells: Cells, pair: Places, key: Kind, value: Kind, entries: seq<Entry>, other: Other)
    requires Typed(s, cells) && !key.Dynamic? && !value.Dynamic? && EntriesFit(s.schemas, key, value, entries)
    ensures Exact(EntriesAgree(s, cells, pair, key, value, entries), WriteEntries(s, cells, pair.key, pair.value, entries, other),
                  EncodeEntries(s.schemas, key, value, entries))
    decreases SizeEntries(entries), 2, |entries|
  {
    hide *;
    EntriesCases(s, cells, pair, key, value, entries, other);
    if entries == [] {
      EntriesNone(s.schemas, key, value);
      Same([]);
    } else {
      EntriesParts(s.schemas, key, value, entries);
      EntriesBytes(s.schemas, key, value, entries);
      EntryIff(s, cells, pair, key, value, entries[0], other);
      EntriesIff(s, cells, pair, key, value, entries[1..], other);
      ExactJoin(EntryAgrees(s, cells, pair, key, value, entries[0]), WriteEntry(s, cells, pair.key, pair.value, entries[0], other),
                EncodeEntry(s.schemas, key, value, entries[0]), EntriesAgree(s, cells, pair, key, value, entries[1..]),
                WriteEntries(s, cells, pair.key, pair.value, entries[1..], other), EncodeEntries(s.schemas, key, value, entries[1..]));
    }
  }

  lemma EntriesCases(s: Store, cells: Cells, pair: Places, key: Kind, value: Kind, entries: seq<Entry>, other: Other)
    ensures entries == [] ==>
              EntriesAgree(s, cells, pair, key, value, entries) && WriteEntries(s, cells, pair.key, pair.value, entries, other) == Some([])
    ensures entries != [] ==>
              EntriesAgree(s, cells, pair, key, value, entries) ==
              (EntryAgrees(s, cells, pair, key, value, entries[0]) && EntriesAgree(s, cells, pair, key, value, entries[1..]))
    ensures entries != [] ==>
              WriteEntries(s, cells, pair.key, pair.value, entries, other) ==
              Join(WriteEntry(s, cells, pair.key, pair.value, entries[0], other),
                   WriteEntries(s, cells, pair.key, pair.value, entries[1..], other))
  {
    hide EntryAgrees, WriteEntry, Join;
  }

  lemma EntryIff(s: Store, cells: Cells, pair: Places, key: Kind, value: Kind, e: Entry, other: Other)
    requires Typed(s, cells) && !key.Dynamic? && !value.Dynamic? && EntryFits(s.schemas, key, value, e)
    ensures Exact(EntryAgrees(s, cells, pair, key, value, e), WriteEntry(s, cells, pair.key, pair.value, e, other),
                  EncodeEntry(s.schemas, key, value, e))
    decreases SizeEntry(e), 1, 0
  {
    hide Exact, Write, Encode, Fits, Agrees, Typed, Size, Join;
    WriteIff(s, cells, pair.key, key, e.key, other);
    WriteIff(s, cells, pair.value, value, e.value, other);
    ExactJoin(Agrees(s, cells, pair.key, key, e.key), Write(s, cells, pair.key, e.key, other), Encode(s.schemas, key, e.key),
              Agrees(s, cells, pair.value, value, e.value), Write(s, cells, pair.value, e.value, other), Encode(s.schemas, value, e.value));
  }

  // ---------- objects ----------

  lemma ObjectCases(s: Store, cells: Cells, ref: nat, id: Byte, v: Value, other: Other)
    requires ref < |cells| && CodeOf(cells[ref]) == Some(10) && v.Record?
    ensures cells[ref].ObjectCell?
    ensures var schema := cells[ref].schema;
      && (schema.None? || schema.value >= |s.schemas| ==> Write(s, cells, ref, v, other) == None)
      && (schema.Some? && schema.value < |s.schemas| ==>
            Write(s, cells, ref, v, other) == Join(Some([10, schema.value]), WriteFields(s, cells, schema.value, 0, v.fields, other)))
      && (Agrees(s, cells, ref, ObjectOf(id), v) <==> schema == Some(id) && FieldsAgree(s, cells, id, 0, v.fields))
  {
    hide WriteFields, FieldsAgree, Join;
  }

  lemma WriteObject(s: Store, cells: Cells, ref: nat, id: Byte, v: Value, other: Other)
    requires ref < |cells| && CodeOf(cells[ref]) == Some(10) && Typed(s, cells) && Fits(s.schemas, ObjectOf(id), v)
    ensures Exact(Agrees(s, cells, ref, ObjectOf(id), v), Write(s, cells, ref, v, other), Encode(s.schemas, ObjectOf(id), v))
    decreases Size(v), 0, 1
  {
    hide Exact, Write, Encode, Fits, Agrees, FieldsAgree, Typed, Size, FieldsFit, EncodeFields, SizeFields, SortColumns, Join, Aligned, WriteFields;
    ObjectParts(s.schemas, id, v);
    ObjectCases(s, cells, ref, id, v, other);
    var columns := SortColumns(s.schemas[id]);
    var body := EncodeFields(s.schemas, columns, v.fields);
    var schema := cells[ref].schema;
    if schema == Some(id) {
      assert columns[0..] == columns;
      FieldsIff(s, cells, id, 0, v.fields, other);
      Same([10, id]);
      ExactJoin(true, Some([10, id]), [10, id], FieldsAgree(s, cells, id, 0, v.fields), WriteFields(s, cells, id, 0, v.fields, other), body);
    } else if schema.Some? && schema.value < |s.schemas| {
      OtherSchema(schema.value, id, WriteFields(s, cells, schema.value, 0, v.fields, other), body);
    } else {
      NothingWritten(Encode(s.schemas, ObjectOf(id), v));
    }
  }

  lemma OtherSchema(a: Byte, id: Byte, w: Option<Bytes>, body: Bytes)
    requires a != id
    ensures Exact(false, Join(Some([10, a]), w), [10, id] + body)
  {
    hide Differ;
    if w.Some? {
      assert [10, a][1] != [10, id][1];
      DifferShift([10, a], [10, id], w.value, body);
    }
  }

  lemma {:induction false} FieldsIff(s: Store, cells: Cells, id: nat, i: nat, fields: seq<Field>, other: Other)
    requires Typed(s, cells) && id < |s.schemas| && i <= |SortColumns(s.schemas[id])|
    requires FieldsFit(s.schemas, SortColumns(s.schemas[id])[i..], fields)
    ensures Exact(FieldsAgree(s, cells, id, i, fields), WriteFields(s, cells, id, i, fields, other),
                  EncodeFields(s.schemas, SortColumns(s.schemas[id])[i..], fields))
    decreases SizeFields(fields), 1, |SortColumns(s.schemas[id])| - i
  {
    hide *;
    var all := SortColumns(s.schemas[id]);
    PlaceIs(s, id, i);
    FieldsCases(s, cells, id, i, fields, other);
    if i == |all| {
      assert all[i..] == [];
      NoneLeft(s.schemas, Bool, Bool, fields);
      Same([]);
    } else {
      var k, v := all[i].kind, Lookup(fields, all[i].name);
      var ref := s.refs[id][i];
      FieldsAt(s.schemas, all, fields, i);
      FieldSize(fields, all[i].name);
      ColumnFor(s, cells, id, i);
      WriteIff(s, cells, ref, k, v, other);
      FieldsIff(s, cells, id, i + 1, fields, other);
      ExactJoin(Agrees(s, cells, ref, k, v), Write(s, cells, ref, v, other), Encode(s.schemas, k, v),
                FieldsAgree(s, cells, id, i + 1, fields), WriteFields(s, cells, id, i + 1, fields, other),
                EncodeFields(s.schemas, all[i + 1..], fields));
    }
  }

  lemma FieldSize(fields: seq<Field>, name: string)
    ensures Size(Lookup(fields, name)) <= SizeFields(fields)
  {
  }

  lemma ColumnFor(s: Store, cells: Cells, id: nat, i: nat)
    requires Typed(s, cells) && IsPlace(s, id, i)
    ensures s.refs[id][i] < |cells| && IsFor(cells[s.refs[id][i]], ColumnAt(s, id, i).kind)
  {
  }

  lemma FieldsCases(s: Store, cells: Cells, id: nat, i: nat, fields: seq<Field>, other: Other)
    ensures !IsPlace(s, id, i) ==> FieldsAgree(s, cells, id, i, fields) && WriteFields(s, cells, id, i, fields, other) == Some([])
    ensures IsPlace(s, id, i) ==>
              var c, ref := ColumnAt(s, id, i), s.refs[id][i];
              var v := Lookup(fields, c.name);
              && FieldsAgree(s, cells, id, i, fields) == (Agrees(s, cells, ref, c.kind, v) && FieldsAgree(s, cells, id, i + 1, fields))
              && WriteFields(s, cells, id, i, fields, other) ==
                   Join(Write(s, cells, ref, v, other), WriteFields(s, cells, id, i + 1, fields, other))
  {
    hide Agrees, Write, Join, ColumnAt, Lookup;
  }

  // ---------- the length pass ----------

  /** The bytes a model asks for, where it does not throw: for an array, by the element
      type it has now. */
  function GetLength(s: Store, cells: Cells, ref: nat, v: Value): nat
    decreases Size(v), 0, 0
  {
    if ref >= |cells| then 0
    else
      match cells[ref]
      case ValueCell(k) => Length(s.schemas, k, v)
      case ListCell(unique, element) =>
        (if unique then 7 else 6) + (if v.Items? && element.Some? then GetItemsLength(s, cells, element.value, v.items) else 0)
      case MapCell(_, pair) => 7 + (if v.Entries? && pair.Some? then GetEntriesLength(s, cells, pair.value, v.entries) else 0)
      case ObjectCell(schema) => 2 + (if v.Record? && schema.Some? then GetFieldsLength(s, cells, schema.value, 0, v.fields) else 0)
      case BufferCell => if v.Embedded? then Length(s.schemas, v.kind, v.inner) else 0
  }

  function GetItemsLength(s: Store, cells: Cells, element: nat, items: seq<Value>): nat
    decreases SizeItems(items), 1, |items|
  {
    if items == [] then 0 else GetLength(s, cells, element, items[0]) + GetItemsLength(s, cells, element, items[1..])
  }

  function GetEntryLength(s: Store, cells: Cells, pair: Places, e: Entry): nat
    decreases SizeEntry(e), 1, 0
  {
    GetLength(s, cells, pair.key, e.key) + GetLength(s, cells, pair.value, e.value)
  }

  function GetEntriesLength(s: Store, cells: Cells, pair: Places, entries: seq<Entry>): nat
    decreases SizeEntries(entries), 2, |entries|
  {
    if entries == [] then 0 else GetEntryLength(s, cells, pair, entries[0]) + GetEntriesLength(s, cells, pair, entries[1..])
  }

  function GetFieldsLength(s: Store, cells: Cells, id: nat, i: nat, fields: seq<Field>): nat
    decreases SizeFields(fields), 1, if IsPlace(s, id, i) then |s.refs[id]| - i else 0
  {
    if !IsPlace(s, id, i) then 0
    else
      GetLength(s, cells, s.refs[id][i], Lookup(fields, ColumnAt(s, id, i).name)) + GetFieldsLength(s, cells, id, i + 1, fields)
  }

  /** Models with the right types ask for as many bytes as the encoding has. */
  lemma {:induction false} LengthAgrees(s: Store, cells: Cells, ref: nat, k: Kind, v: Value)
    requires Agrees(s, cells, ref, k, v) && Fits(s.schemas, k, v)
    ensures GetLength(s, cells, ref, v) == |Encode(s.schemas, k, v)|
    decreases Size(v), 0, 2
  {
    hide AllAgree, EntriesAgree, FieldsAgree, AllFit, EntriesFit, FieldsFit, Aligned, Encode, SortColumns, ItemsLength, EntriesLength,
      FieldsLength, GetItemsLength, GetEntriesLength, GetFieldsLength, DistinctItems, DistinctKeys, Lookup, SizeItems, SizeEntries,
      SizeFields;
    LengthIsWritten(s.schemas, k, v);
    match k {
      case ArrayOf(e) => ListLengthAgrees(s, cells, ref, k, v);
      case SetOf(e) => ListLengthAgrees(s, cells, ref, k, v);
      case MapOf(key, value) =>
        MapParts(s.schemas, k, v);
        EntriesLengthAgrees(s, cells, cells[ref].pair.value, key, value, v.entries);
      case ObjectOf(id) =>
        ObjectParts(s.schemas, id, v);
        assert SortColumns(s.schemas[id])[0..] == SortColumns(s.schemas[id]);
        FieldsLengthAgrees(s, cells, id, 0, v.fields);
      case _ =>
    }
  }

  lemma ListLengthAgrees(s: Store, cells: Cells, ref: nat, k: Kind, v: Value)
    requires (k.ArrayOf? || k.SetOf?) && Agrees(s, cells, ref, k, v) && Fits(s.schemas, k, v)
    ensures GetLength(s, cells, ref, v) == |Encode(s.schemas, k, v)|
    decreases Size(v), 0, 1
  {
    hide AllAgree, AllFit, Encode, ItemsLength, GetItemsLength, DistinctItems, SizeItems, BigEndian;
    ListParts(s.schemas, k, v);
    ItemsLengthAgrees(s, cells, cells[ref].element.value, k.element, v.items);
  }

  lemma {:induction false} ItemsLengthAgrees(s: Store, cells: Cells, element: nat, e: Kind, items: seq<Value>)
    requires AllAgree(s, cells, element, e, items) && AllFit(s.schemas, e, items)
    ensures GetItemsLength(s, cells, element, items) == |EncodeItems(s.schemas, e, items)|
    decreases SizeItems(items), 1, |items|
  {
    hide Agrees, Fits, Encode, GetLength, Size;
    if items != [] {
      LengthAgrees(s, cells, element, e, items[0]);
      ItemsLengthAgrees(s, cells, element, e, items[1..]);
    }
  }

  lemma EntryLengthAgrees(s: Store, cells: Cells, pair: Places, key: Kind, value: Kind, e: Entry)
    requires EntryAgrees(s, cells, pair, key, value, e) && EntryFits(s.schemas, key, value, e)
    ensures GetEntryLength(s, cells, pair, e) == |EncodeEntry(s.schemas, key, value, e)|
    decreases SizeEntry(e), 1, 0
  {
    hide Agrees, Fits, Encode, GetLength, Size;
    LengthAgrees(s, cells, pair.key, key, e.key);
    LengthAgrees(s, cells, pair.value, value, e.value);
  }

  lemma {:induction false} EntriesLengthAgrees(s: Store, cells: Cells, pair: Places, key: Kind, value: Kind, entries: seq<Entry>)
    requires EntriesAgree(s, cells, pair, key, value, entries) && EntriesFit(s.schemas, key, value, entries)
    ensures GetEntriesLength(s, cells, pair, entries) == |EncodeEntries(s.schemas, key, value, entries)|
    decreases SizeEntries(entries), 2, |entries|
  {
    hide EntryAgrees, EntryFits, EntriesFit, EncodeEntries, EncodeEntry, GetEntryLength, SizeEntry, SizeEntries;
    if entries == [] {
      EntriesNone(s.schemas, key, value);
    } else {
      EntriesParts(s.schemas, key, value, entries);
      EntriesBytes(s.schemas, key, value, entries);
      EntryLengthAgrees(s, cells, pair, key, value, entries[0]);
      EntriesLengthAgrees(s, cells, pair, key, value, entries[1..]);
    }
  }

  lemma {:induction false} FieldsLengthAgrees(s: Store, cells: Cells, id: nat, i: nat, fields: seq<Field>)
    requires id < |s.schemas| && i <= |SortColumns(s.schemas[id])| && FieldsAgree(s, cells, id, i, fields)
    requires FieldsFit(s.schemas, SortColumns(s.schemas[id])[i..], fields)
    ensures GetFieldsLength(s, cells, id, i, fields) == |EncodeFields(s.schemas, SortColumns(s.schemas[id])[i..], fields)|
    decreases SizeFields(fields), 1, |SortColumns(s.schemas[id])| - i
  {
    hide Agrees, Fits, Encode, GetLength, Size, SizeFields, Lookup, Aligned, SortColumns;
    var all := SortColumns(s.schemas[id]);
    PlaceIs(s, id, i);
    if i == |all| {
      assert all[i..] == [];
    } else {
      FieldsAt(s.schemas, all, fields, i);
      FieldSize(fields, all[i].name);
      LengthAgrees(s, cells, s.refs[id][i], all[i].kind, Lookup(fields, all[i].name));
      FieldsLengthAgrees(s, cells, id, i + 1, fields);
    }
  }
}
