/** shared/util/byteSerializer: which byte of an encoding holds what, in plain numbers. */
module WireFormat {
  import opened Model
  import opened Words
  import opened Serializer

  // ---------- the places of bytes ----------

  lemma Quotient(x: nat, n: nat, q: nat, r: nat)
    requires n > 0 && r < n && x == q * n + r
    ensures x / n == q && x % n == r
  {
    var k := x / n;
    assert x == k * n + x % n;
    if k < q {
      Apart(k, q, n);
    } else if q < k {
      Apart(q, k, n);
    }
  }

  lemma {:induction false} Apart(i: nat, j: nat, n: nat)
    requires i < j
    ensures j * n >= i * n + n
    decreases j
  {
    OneLess(j, n);
    if i + 1 < j {
      Apart(i, j - 1, n);
    }
  }

  lemma OneLess(j: nat, n: nat)
    requires j > 0
    ensures j * n == (j - 1) * n + n
  {
  }

  lemma Larger(a: nat, p: nat)
    ensures a * (256 * p) == 256 * (a * p)
  {
  }

  /** Dividing by 256 and then by `p` is dividing by both. */
  lemma DivideTwice(n: nat, p: nat)
    requires p > 0
    ensures 256 * p > 0 && (n / 256) / p == n / (256 * p)
  {
    var q, r := n / 256, n % 256;
    var a, b := q / p, q % p;
    assert q == a * p + b;
    Larger(a, p);
    assert n == a * (256 * p) + (256 * b + r);
    Quotient(n, 256 * p, a, 256 * b + r);
  }

  /** MAIN: the byte at place i of w holds the digit of 256 to the w - 1 - i: the highest
      comes first. */
  lemma {:induction false} BigEndianAt(n: nat, w: nat, i: nat)
    requires i < w
    ensures BigEndian(n, w)[i] == (n / Pow256(w - 1 - i)) % 256
  {
    if i < w - 1 {
      BigEndianAt(n / 256, w - 1, i);
      DivideTwice(n, Pow256(w - 2 - i));
    }
  }

  /** The sum of the bytes at their places. */
  function Places(s: Bytes): nat {
    if s == [] then 0 else s[0] * Pow256(|s| - 1) + Places(s[1..])
  }

  /** MAIN: reading adds up the bytes at their places. */
  lemma {:induction false} FromBigEndianIs(s: Bytes)
    ensures FromBigEndian(s) == Places(s)
  {
    if s != [] {
      var init, last := s[..|s| - 1], s[|s| - 1];
      FromBigEndianIs(init);
      LastPlace(s);
    }
  }

  lemma {:induction false} LastPlace(s: Bytes)
    requires s != []
    ensures Places(s) == Places(s[..|s| - 1]) * 256 + s[|s| - 1]
  {
    if |s| == 1 {
      assert s[1..] == [] && s[..0] == [];
    } else {
      LastPlace(s[1..]);
      var init := s[..|s| - 1];
      assert s[1..][..|s| - 2] == init[1..];
      assert s[0] * (256 * Pow256(|s| - 2)) == s[0] * Pow256(|s| - 2) * 256;
    }
  }

  /** The powers a node needs. */
  lemma Powers()
    ensures Pow256(0) == 1 && Pow256(1) == 256 && Pow256(2) == 65536 && Pow256(3) == 16777216 && Pow256(4) == 4294967296
  {
  }

  // ---------- words ----------

  function One(n: int): Bytes {
    [n % 256]
  }

  function Two(n: int): Bytes {
    [n / 256 % 256, n % 256]
  }

  function Four(n: int): Bytes {
    [n / 16777216 % 256, n / 65536 % 256, n / 256 % 256, n % 256]
  }

  lemma WordsAre(n: nat)
    ensures BigEndian(n, 1) == One(n) && BigEndian(n, 2) == Two(n) && BigEndian(n, 4) == Four(n)
  {
    hide BigEndian, Pow256;
    Powers();
    BigEndianAt(n, 1, 0);
    BigEndianAt(n, 2, 0);
    BigEndianAt(n, 2, 1);
    BigEndianAt(n, 4, 0);
    BigEndianAt(n, 4, 1);
    BigEndianAt(n, 4, 2);
    BigEndianAt(n, 4, 3);
  }

  /** The eight bytes of a 64-bit number are two words, the high one first. */
  lemma LongIs(n: nat)
    requires n < 0x1_0000_0000 * 0x1_0000_0000
    ensures WordBytes(n) == Four(n / 0x1_0000_0000) + Four(n % 0x1_0000_0000)
  {
    hide BigEndian, HighWord, LowWord;
    SplitIsDivision(n);
    WordsAre(HighWord(n));
    WordsAre(LowWord(n));
  }

  // ---------- numbers, flags and texts ----------

  /** MAIN: the type byte of every type. */
  lemma CodesAre(e: Kind, f: Kind, id: Byte)
    ensures Code(Int8) == 0 && Code(Uint8) == 1 && Code(Int16) == 2 && Code(Uint16) == 3 && Code(Int32) == 4 && Code(Uint32) == 5
    ensures Code(Uint64) == 6 && Code(Double) == 7 && Code(Utf8) == 8 && Code(ArrayOf(e)) == 9 && Code(ObjectOf(id)) == 10
    ensures Code(SetOf(e)) == 11 && Code(MapOf(e, f)) == 12 && Code(Bool) == 13 && Code(Number64) == 14
  {
  }

  /** MAIN: unsigned numbers of one, two and four bytes; the highest byte comes first. */
  lemma UnsignedIs(schemas: seq<Schema>, n: nat)
    ensures n < 0x100 ==> Fits(schemas, Uint8, Num(n)) && Encode(schemas, Uint8, Num(n)) == [1, n]
    ensures n < 0x1_0000 ==> Fits(schemas, Uint16, Num(n)) && Encode(schemas, Uint16, Num(n)) == [3, n / 256, n % 256]
    ensures n < 0x1_0000_0000 ==>
              Fits(schemas, Uint32, Num(n)) && Encode(schemas, Uint32, Num(n)) == [5] + Four(n)
  {
    hide BigEndian, Pow256;
    Powers();
    WordsAre(n);
  }

  /** MAIN: signed numbers in two's complement. */
  lemma SignedIs(schemas: seq<Schema>, n: int)
    ensures -0x80 <= n < 0x80 ==>
              Fits(schemas, Int8, Num(n)) && Encode(schemas, Int8, Num(n)) == [0, if n < 0 then n + 0x100 else n]
    ensures -0x8000 <= n < 0x8000 ==>
              Fits(schemas, Int16, Num(n)) && Encode(schemas, Int16, Num(n)) == [2] + Two(if n < 0 then n + 0x1_0000 else n)
    ensures -0x8000_0000 <= n < 0x8000_0000 ==>
              Fits(schemas, Int32, Num(n)) && Encode(schemas, Int32, Num(n)) == [4] + Four(if n < 0 then n + 0x1_0000_0000 else n)
  {
    hide Encode, Fits, Two, Four, Pow256, BigEndian;
    Powers();
    if -0x80 <= n < 0x80 {
      IntEncoded(schemas, Int8, n, 1);
      Complement(n, 0x100);
      WordsAre(if n < 0 then n + 0x100 else n);
    }
    if -0x8000 <= n < 0x8000 {
      IntEncoded(schemas, Int16, n, 2);
      Complement(n, 0x1_0000);
      WordsAre(if n < 0 then n + 0x1_0000 else n);
    }
    if -0x8000_0000 <= n < 0x8000_0000 {
      IntEncoded(schemas, Int32, n, 4);
      Complement(n, 0x1_0000_0000);
      WordsAre(if n < 0 then n + 0x1_0000_0000 else n);
    }
  }

  lemma IntEncoded(schemas: seq<Schema>, k: Kind, n: int, w: nat)
    requires IsInt(k) && IntMin(k) <= n <= IntMax(k) && w == IntWidth(Code(k))
    ensures Fits(schemas, k, Num(n)) && Encode(schemas, k, Num(n)) == [Code(k)] + BigEndian(n % Pow256(w), w)
  {
    hide BigEndian, Pow256;
  }

  lemma Complement(n: int, full: int)
    requires full > 0 && -full <= n < full
    ensures n % full == if n < 0 then n + full else n
  {
  }

  /** MAIN: 64-bit numbers, with the type byte of a big or of an ordinary one. */
  lemma LongsAre(schemas: seq<Schema>, n: nat)
    ensures n < 0x1_0000_0000 * 0x1_0000_0000 ==>
              && Fits(schemas, Uint64, Num(n))
              && Encode(schemas, Uint64, Num(n)) == [6] + (Four(n / 0x1_0000_0000) + Four(n % 0x1_0000_0000))
    ensures n < 0x20_0000_0000_0000 ==>
              && Fits(schemas, Number64, Num(n))
              && Encode(schemas, Number64, Num(n)) == [14] + (Four(n / 0x1_0000_0000) + Four(n % 0x1_0000_0000))
  {
    hide WordBytes, Four;
    if n < 0x1_0000_0000 * 0x1_0000_0000 {
      LongIs(n);
    }
  }

  /** MAIN: a text is its length in two bytes, and its bytes. */
  lemma TextIs(schemas: seq<Schema>, text: Bytes)
    requires |text| < 0x1_0000
    ensures Fits(schemas, Utf8, Text(text)) && Encode(schemas, Utf8, Text(text)) == [8, |text| / 256, |text| % 256] + text
  {
    hide BigEndian;
    WordsAre(|text|);
    assert [8] + ([|text| / 256, |text| % 256] + text) == [8, |text| / 256, |text| % 256] + text;
  }

  lemma FlagIs(schemas: seq<Schema>, flag: bool)
    ensures Fits(schemas, Bool, Flag(flag)) && Encode(schemas, Bool, Flag(flag)) == [13, if flag then 1 else 0]
  {
  }

  // ---------- lists, maps and objects ----------

  /** MAIN: an array names its element type and its size in four bytes, a set stands
      before it; the items follow in their order. */
  lemma ListIs(schemas: seq<Schema>, e: Kind, items: seq<Value>)
    requires Fits(schemas, ArrayOf(e), Items(items))
    ensures var body := EncodeItems(schemas, e, items);
      Encode(schemas, ArrayOf(e), Items(items)) == [9, Code(e)] + (Four(|body|) + body)
    ensures Fits(schemas, SetOf(e), Items(items)) ==>
              Encode(schemas, SetOf(e), Items(items)) == [11] + Encode(schemas, ArrayOf(e), Items(items))
  {
    hide BigEndian, Four, EncodeItems, Code;
    WordsAre(|EncodeItems(schemas, e, items)|);
  }

  lemma {:induction false} ItemsFollow(schemas: seq<Schema>, e: Kind, items: seq<Value>, more: seq<Value>)
    requires AllFit(schemas, e, items) && AllFit(schemas, e, more)
    ensures AllFit(schemas, e, items + more)
    ensures EncodeItems(schemas, e, items + more) == EncodeItems(schemas, e, items) + EncodeItems(schemas, e, more)
    decreases |items|
  {
    hide Encode, Fits;
    if items == [] {
      assert items + more == more;
    } else {
      assert (items + more)[1..] == items[1..] + more;
      ItemsFollow(schemas, e, items[1..], more);
    }
  }

  lemma OneItem(schemas: seq<Schema>, e: Kind, v: Value)
    requires Fits(schemas, e, v)
    ensures AllFit(schemas, e, [v]) && EncodeItems(schemas, e, [v]) == Encode(schemas, e, v)
  {
    hide Encode, Fits;
    assert [v][1..] == [];
    assert Encode(schemas, e, v) + [] == Encode(schemas, e, v);
  }

  /** MAIN: a map names the types of its keys and values and its size in four bytes; each
      pair follows in its order, the key before the value. */
  lemma MapIs(schemas: seq<Schema>, key: Kind, value: Kind, entries: seq<Entry>)
    requires Fits(schemas, MapOf(key, value), Entries(entries))
    ensures var body := EncodeEntries(schemas, key, value, entries);
      Encode(schemas, MapOf(key, value), Entries(entries)) == [12, Code(key), Code(value)] + (Four(|body|) + body)
  {
    hide BigEndian, Four, EncodeEntries, Code;
    WordsAre(|EncodeEntries(schemas, key, value, entries)|);
  }

  lemma {:induction false} EntriesFollow(schemas: seq<Schema>, key: Kind, value: Kind, entries: seq<Entry>, more: seq<Entry>)
    requires EntriesFit(schemas, key, value, entries) && EntriesFit(schemas, key, value, more)
    ensures EntriesFit(schemas, key, value, entries + more)
    ensures EncodeEntries(schemas, key, value, entries + more) ==
              EncodeEntries(schemas, key, value, entries) + EncodeEntries(schemas, key, value, more)
    decreases |entries|
  {
    hide *;
    if entries == [] {
      EntriesNone(schemas, key, value);
      assert entries + more == more;
      assert [] + EncodeEntries(schemas, key, value, more) == EncodeEntries(schemas, key, value, more);
    } else {
      var all := entries + more;
      assert all[0] == entries[0] && all[1..] == entries[1..] + more;
      EntriesParts(schemas, key, value, entries);
      EntriesBytes(schemas, key, value, entries);
      EntriesFollow(schemas, key, value, entries[1..], more);
      EntriesFrom(schemas, key, value, all);
      EntriesBytes(schemas, key, value, all);
      assert EncodeEntry(schemas, key, value, entries[0]) + (EncodeEntries(schemas, key, value, entries[1..]) + EncodeEntries(schemas, key, value, more))
          == EncodeEntry(schemas, key, value, entries[0]) + EncodeEntries(schemas, key, value, entries[1..]) + EncodeEntries(schemas, key, value, more);
    }
  }

  lemma EntriesFrom(schemas: seq<Schema>, key: Kind, value: Kind, entries: seq<Entry>)
    requires entries != [] && EntryFits(schemas, key, value, entries[0]) && EntriesFit(schemas, key, value, entries[1..])
    ensures EntriesFit(schemas, key, value, entries)
  {
    hide EntryFits;
  }

  lemma OneEntry(schemas: seq<Schema>, key: Kind, value: Kind, k: Value, v: Value)
    requires Fits(schemas, key, k) && Fits(schemas, value, v)
    ensures EntriesFit(schemas, key, value, [Entry(k, v)])
    ensures EncodeEntries(schemas, key, value, [Entry(k, v)]) == Encode(schemas, key, k) + Encode(schemas, value, v)
  {
    hide Encode, Fits;
    var e := Entry(k, v);
    assert [e][1..] == [];
    assert Encode(schemas, key, k) + Encode(schemas, value, v) + [] == Encode(schemas, key, k) + Encode(schemas, value, v);
  }

  /** MAIN: an object is its type, its schema and its columns by name. */
  lemma ObjectIs(schemas: seq<Schema>, id: Byte, fields: seq<Field>)
    requires Fits(schemas, ObjectOf(id), Record(fields))
    ensures id < |schemas| && FieldsFit(schemas, SortColumns(schemas[id]), fields)
    ensures Encode(schemas, ObjectOf(id), Record(fields)) == [10, id] + EncodeFields(schemas, SortColumns(schemas[id]), fields)
  {
    hide EncodeFields, SortColumns, FieldsFit;
    SortedFit(schemas, schemas[id], fields);
  }

  lemma FieldFirst(schemas: seq<Schema>, columns: Schema, fields: seq<Field>)
    requires FieldsFit(schemas, columns, fields)
    ensures columns == [] ==> EncodeFields(schemas, columns, fields) == []
    ensures columns != [] ==>
              && Fits(schemas, columns[0].kind, Lookup(fields, columns[0].name)) && FieldsFit(schemas, columns[1..], fields)
              && EncodeFields(schemas, columns, fields) ==
                   Encode(schemas, columns[0].kind, Lookup(fields, columns[0].name)) + EncodeFields(schemas, columns[1..], fields)
  {
    hide Encode, Fits, Lookup;
  }

  // ---------- the order of columns ----------

  /** The two names agree up to `k`, where the first ends or has the smaller character. */
  predicate DiffersAt(a: string, b: string, k: nat) {
    && k <= |a| && k <= |b| && a[..k] == b[..k]
    && (k == |a| || (k < |b| && a[k] < b[k]))
  }

  lemma {:induction false} PrecedesAt(a: string, b: string) returns (k: nat)
    ensures Precedes(a, b) ==> DiffersAt(a, b, k)
  {
    k := 0;
    if a != [] && b != [] && a[0] == b[0] {
      var m := PrecedesAt(a[1..], b[1..]);
      k := m + 1;
      if Precedes(a, b) {
        assert a[..k] == [a[0]] + a[1..][..m] && b[..k] == [b[0]] + b[1..][..m];
      }
    }
  }

  lemma {:induction false} EitherFirst(a: string, b: string)
    ensures Precedes(a, b) || Precedes(b, a)
  {
    if a != [] && b != [] && a[0] == b[0] {
      EitherFirst(a[1..], b[1..]);
    }
  }

  lemma {:induction false} PrecedesThrough(a: string, b: string, c: string)
    requires Precedes(a, b) && Precedes(b, c)
    ensures Precedes(a, c)
  {
    if a != [] && b != [] && c != [] && a[0] == b[0] == c[0] {
      PrecedesThrough(a[1..], b[1..], c[1..]);
    }
  }

  ghost predicate ByName(s: Schema) {
    forall i, j :: 0 <= i < j < |s| ==> Precedes(s[i].name, s[j].name)
  }

  lemma InsertedIn(s: Schema, c: Column, i: nat)
    requires i < |InsertColumn(s, c)|
    ensures InsertColumn(s, c)[i] in s || InsertColumn(s, c)[i] == c
  {
    hide InsertColumn;
    InsertColumnIs(s, c);
    var r := InsertColumn(s, c);
    assert r[i] in multiset(r);
  }

  lemma {:induction false} InsertByName(s: Schema, c: Column)
    requires ByName(s)
    ensures ByName(InsertColumn(s, c))
  {
    hide Precedes;
    if s != [] {
      var init, last := s[..|s| - 1], s[|s| - 1];
      if Precedes(last.name, c.name) {
        forall i | 0 <= i < |s|
          ensures Precedes(s[i].name, c.name)
        {
          if i < |s| - 1 {
            PrecedesThrough(s[i].name, last.name, c.name);
          }
        }
      } else {
        EitherFirst(last.name, c.name);
        InsertByName(init, c);
        var r := InsertColumn(init, c);
        forall i | 0 <= i < |r|
          ensures Precedes(r[i].name, last.name)
        {
          InsertedIn(init, c, i);
        }
      }
    }
  }

  lemma {:induction false} SortedByName(s: Schema)
    ensures ByName(SortColumns(s))
  {
    hide InsertColumn, Precedes;
    if s != [] {
      SortedByName(s[..|s| - 1]);
      InsertByName(SortColumns(s[..|s| - 1]), s[|s| - 1]);
    }
  }

  /** MAIN: the columns of a schema are written in the order of their names, compared
      character by character. */
  lemma ColumnsByName(s: Schema, i: nat, j: nat) returns (k: nat)
    requires i < j < |SortColumns(s)|
    ensures multiset(SortColumns(s)) == multiset(s)
    ensures DiffersAt(SortColumns(s)[i].name, SortColumns(s)[j].name, k)
  {
    hide SortColumns, Precedes, DiffersAt;
    SortColumnsIs(s);
    SortedByName(s);
    k := PrecedesAt(SortColumns(s)[i].name, SortColumns(s)[j].name);
  }

  // ---------- reading ----------

  lemma PlacesNext(s: Bytes)
    requires s != []
    ensures Places(s) == s[0] * Pow256(|s| - 1) + Places(s[1..])
  {
  }

  function ValueOfTwo(buf: Bytes, off: nat): nat
    requires off + 2 <= |buf|
  {
    256 * (buf[off] as int) + buf[off + 1]
  }

  function ValueOfFour(buf: Bytes, off: nat): nat
    requires off + 4 <= |buf|
  {
    16777216 * (buf[off] as int) + 65536 * (buf[off + 1] as int) + 256 * (buf[off + 2] as int) + buf[off + 3]
  }

  lemma TwoBytes(buf: Bytes, off: nat)
    requires off + 2 <= |buf|
    ensures WordAt(buf, off, 2) == Some(ValueOfTwo(buf, off))
  {
    hide FromBigEndian, Pow256;
    Powers();
    var s := buf[off..off + 2];
    FromBigEndianIs(s);
    PlacesNext(s);
    PlacesNext(s[1..]);
    assert s[1..][1..] == [];
  }

  lemma FourBytes(buf: Bytes, off: nat)
    requires off + 4 <= |buf|
    ensures WordAt(buf, off, 4) == Some(ValueOfFour(buf, off))
  {
    hide FromBigEndian, Pow256;
    Powers();
    var s := buf[off..off + 4];
    FromBigEndianIs(s);
    PlacesNext(s);
    PlacesNext(s[1..]);
    PlacesNext(s[1..][1..]);
    PlacesNext(s[1..][1..][1..]);
    assert s[1..][1..][1..][1..] == [];
  }

  lemma OneByte(buf: Bytes, off: nat)
    requires off + 1 <= |buf|
    ensures WordAt(buf, off, 1) == Some(buf[off])
  {
    hide FromBigEndian, Pow256;
    Powers();
    var s := buf[off..off + 1];
    FromBigEndianIs(s);
    assert s[1..] == [];
  }

  function Signed(m: nat, full: nat): int {
    if 2 * m >= full then m - full else m
  }

  /** MAIN: how numbers are read, and that they fail where a byte is missing. */
  lemma NumbersRead(buf: Bytes, off: nat)
    ensures off + 2 > |buf| ==> forall code :: 0 <= code <= 14 ==> ReadSimple(code, buf, off) == Failed
    ensures off + 2 <= |buf| ==>
              && ReadSimple(0, buf, off) == Parsed(Num(Signed(buf[off + 1], 0x100)), off + 2)
              && ReadSimple(1, buf, off) == Parsed(Num(buf[off + 1]), off + 2)
              && ReadSimple(13, buf, off) == Parsed(Flag(buf[off + 1] != 0), off + 2)
    ensures off + 3 <= |buf| ==>
              var m := ValueOfTwo(buf, off + 1);
              && ReadSimple(2, buf, off) == Parsed(Num(Signed(m, 0x1_0000)), off + 3)
              && ReadSimple(3, buf, off) == Parsed(Num(m), off + 3)
    ensures off + 5 <= |buf| ==>
              var m := ValueOfFour(buf, off + 1);
              && ReadSimple(4, buf, off) == Parsed(Num(Signed(m, 0x1_0000_0000)), off + 5)
              && ReadSimple(5, buf, off) == Parsed(Num(m), off + 5)
  {
    hide WordAt, Joined, FromBigEndian, Pow256;
    Powers();
    NoBytes(buf, off);
    if off + 2 <= |buf| {
      OneByte(buf, off + 1);
    }
    if off + 3 <= |buf| {
      TwoBytes(buf, off + 1);
    }
    if off + 5 <= |buf| {
      FourBytes(buf, off + 1);
    }
  }

  lemma NoBytes(buf: Bytes, off: nat)
    ensures off + 2 > |buf| ==> WordAt(buf, off + 1, 1) == None && WordAt(buf, off + 1, 2) == None && WordAt(buf, off + 1, 4) == None
  {
  }

  /** MAIN: how 64-bit numbers and texts are read; a text whose bytes end early is cut. */
  lemma LongsRead(buf: Bytes, off: nat)
    ensures off + 9 <= |buf| ==>
              var hi, lo := ValueOfFour(buf, off + 1), ValueOfFour(buf, off + 5);
              && ReadSimple(6, buf, off) == Parsed(Num(hi * 0x1_0000_0000 + lo), off + 9)
              && ReadSimple(14, buf, off) == Parsed(Num(hi * 0x1_0000_0000 + lo), off + 9)
    ensures off + 3 <= |buf| ==>
              var size := ValueOfTwo(buf, off + 1);
              ReadSimple(8, buf, off) ==
              Parsed(Text(buf[off + 3..if off + 3 + size <= |buf| then off + 3 + size else |buf|]), off + 3 + size)
  {
    hide Joined, FromBigEndian, Pow256;
    if off + 9 <= |buf| {
      FourBytes(buf, off + 1);
      FourBytes(buf, off + 5);
      WordBound(buf[off + 1..off + 5]);
      WordBound(buf[off + 5..off + 9]);
      JoinIsSum(FromBigEndian(buf[off + 1..off + 5]), FromBigEndian(buf[off + 5..off + 9]));
    }
    if off + 3 <= |buf| {
      TwoBytes(buf, off + 1);
    }
  }

  lemma WordBound(s: Bytes)
    requires |s| == 4
    ensures FromBigEndian(s) < WORD
  {
    hide FromBigEndian, Pow256;
    Powers();
    FromBigEndianBound(s);
  }

  // ---------- what comes back ----------

  /** MAIN: a number, a flag or a text comes back as it was; one that is missing comes
      back as nothing. */
  lemma SimpleBack(schemas: seq<Schema>, k: Kind, v: Value)
    requires IsSimple(k) && Fits(schemas, k, v)
    ensures !v.Missing? ==> Plain(schemas, k, v) == v
    ensures v.Missing? ==>
              Plain(schemas, k, v) == if k.Utf8? then Text([]) else if k.Bool? then Flag(false) else Num(0)
  {
  }

  /** MAIN: every item comes back in its place. */
  lemma {:induction false} ItemsBack(schemas: seq<Schema>, e: Kind, items: seq<Value>, i: nat)
    requires AllFit(schemas, e, items) && i < |items|
    ensures Fits(schemas, e, items[i]) && |PlainItems(schemas, e, items)| == |items|
    ensures PlainItems(schemas, e, items)[i] == Plain(schemas, e, items[i])
    decreases |items|
  {
    hide Plain, Fits;
    if |items| > 1 {
      ItemsBack(schemas, e, items[1..], if i == 0 then 0 else i - 1);
    }
  }

  /** MAIN: every pair of a map comes back in its place. */
  lemma {:induction false} EntriesBack(schemas: seq<Schema>, key: Kind, value: Kind, entries: seq<Entry>, i: nat)
    requires EntriesFit(schemas, key, value, entries) && i < |entries|
    ensures EntryFits(schemas, key, value, entries[i]) && |PlainEntries(schemas, key, value, entries)| == |entries|
    ensures PlainEntries(schemas, key, value, entries)[i] ==
              Entry(Plain(schemas, key, entries[i].key), Plain(schemas, value, entries[i].value))
    decreases |entries|
  {
    hide *;
    EntriesParts(schemas, key, value, entries);
    EntriesPlain(schemas, key, value, entries);
    PairBack(schemas, key, value, entries[0]);
    if |entries| > 1 {
      EntriesBack(schemas, key, value, entries[1..], if i == 0 then 0 else i - 1);
    } else {
      assert entries[1..] == [];
      EntriesNone(schemas, key, value);
    }
  }

  lemma PairBack(schemas: seq<Schema>, key: Kind, value: Kind, e: Entry)
    requires EntryFits(schemas, key, value, e)
    ensures Fits(schemas, key, e.key) && Fits(schemas, value, e.value)
    ensures PlainEntry(schemas, key, value, e) == Entry(Plain(schemas, key, e.key), Plain(schemas, value, e.value))
  {
    hide Plain, Fits;
  }

  /** MAIN: every column of a schema comes back under its name. */
  lemma {:induction false} FieldsBack(schemas: seq<Schema>, columns: Schema, fields: seq<Field>, i: nat)
    requires FieldsFit(schemas, columns, fields) && i < |columns|
    ensures Fits(schemas, columns[i].kind, Lookup(fields, columns[i].name)) && |PlainFields(schemas, columns, fields)| == |columns|
    ensures PlainFields(schemas, columns, fields)[i] ==
              Field(columns[i].name, Plain(schemas, columns[i].kind, Lookup(fields, columns[i].name)))
    decreases |columns|
  {
    hide Plain, Fits, Lookup;
    if |columns| > 1 {
      FieldsBack(schemas, columns[1..], fields, if i == 0 then 0 else i - 1);
    }
  }

  // ---------- what is read twice ----------

  /** A set holds each item that was read, once. */
  lemma {:induction false} SetHolds(s: seq<Value>, v: Value)
    ensures v in Unique(s) <==> v in s
    ensures DistinctItems(Unique(s))
  {
    if s != [] {
      SetHolds(s[..|s| - 1], v);
      var init, last := s[..|s| - 1], s[|s| - 1];
      assert s == init + [last];
      assert v in s <==> v in init || v == last;
    }
  }

  lemma {:induction false} PairSet(r: seq<Entry>, e: Entry, f: Entry)
    ensures f in SetEntry(r, e) ==> f == e || f in r
    ensures e in SetEntry(r, e)
    ensures f in r && f.key != e.key ==> f in SetEntry(r, e)
    ensures DistinctKeys(r) ==> DistinctKeys(SetEntry(r, e))
    ensures DistinctKeys(r) && f in SetEntry(r, e) && f.key == e.key ==> f == e
  {
    if r != [] && r[0].key != e.key {
      PairSet(r[1..], e, f);
      if DistinctKeys(r) {
        KeysLater(r, e);
      }
    }
  }

  lemma {:induction false} SetMembers(r: seq<Entry>, e: Entry, i: nat)
    requires i < |SetEntry(r, e)|
    ensures SetEntry(r, e)[i] == e || SetEntry(r, e)[i] in r
  {
    if r != [] && r[0].key != e.key && i > 0 {
      SetMembers(r[1..], e, i - 1);
    }
  }

  lemma KeysLater(r: seq<Entry>, e: Entry)
    requires r != [] && r[0].key != e.key && DistinctKeys(r)
    ensures DistinctKeys(r[1..])
    ensures forall i :: 0 <= i < |SetEntry(r[1..], e)| ==> SetEntry(r[1..], e)[i].key != r[0].key
  {
    hide SetEntry;
    forall i | 0 <= i < |SetEntry(r[1..], e)|
      ensures SetEntry(r[1..], e)[i].key != r[0].key
    {
      SetMembers(r[1..], e, i);
      if SetEntry(r[1..], e)[i] in r[1..] {
        var j :| 0 <= j < |r[1..]| && r[1..][j] == SetEntry(r[1..], e)[i];
        assert r[j + 1].key != r[0].key;
      }
    }
  }

  /** MAIN: a map holds each key that was read once, with the value read last. */
  lemma {:induction false} MapHolds(s: seq<Entry>, i: nat)
    requires i < |s| && forall j :: i < j < |s| ==> s[j].key != s[i].key
    ensures s[i] in MapFrom(s)
  {
    hide SetEntry;
    var init, last := s[..|s| - 1], s[|s| - 1];
    PairSet(MapFrom(init), last, s[i]);
    if i < |s| - 1 {
      MapHolds(init, i);
    }
  }

  lemma {:induction false} MapKeysOnce(s: seq<Entry>)
    ensures DistinctKeys(MapFrom(s))
  {
    hide SetEntry, DistinctKeys;
    if s == [] {
      assert DistinctKeys([]) by {
        NoKeys();
      }
    } else {
      MapKeysOnce(s[..|s| - 1]);
      PairSet(MapFrom(s[..|s| - 1]), s[|s| - 1], s[|s| - 1]);
    }
  }

  lemma NoKeys()
    ensures DistinctKeys([])
  {
  }
}
