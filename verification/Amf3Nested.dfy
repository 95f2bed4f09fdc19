/** Why the exact theorem leaves out empty names of dynamic members: nested in another object, one of them can make
    the round trip. What the parser leaves unread behind the empty name it takes for one more member of the outer
    object, with a name that this has already, and then both sides are in step again. */
module Amf3Nested {
  import opened U29
  import opened Amf3Value
  import opened Amf3Writer
  import opened Amf3Parser
  import opened Amf3RoundTrip
  import opened Amf3Visible
  import opened Amf3Exact
  import opened Amf3Codec

  const INNERDEF := ClassDef([], true, false, [[]])
  const OUTERDEF := ClassDef([], true, false, [])

  const INNERVALUE := Object(INNERDEF, [Member([], Integer(4))])

  /** { a: null, b: null, k: { "": 4 } }, the inner class declaring the empty name. */
  const NESTED := Object(OUTERDEF, [Member([97], Null), Member([98], Null), Member([107], INNERVALUE)])

  /** What is written: the inner object ends in the empty name of its only dynamic member, its value 4, and
      another empty name; the outer one in a third. */
  const WRITTEN: bytes :=
    [10, 11, 1, 3, 97, 1, 3, 98, 1, 3, 107, 10, 27, 1, 1, 4, 4, 1, 4, 4, 1, 1]

  const STRINGS: seq<bytes> := [[97], [98], [107]]
  const DEFS: seq<ClassDef> := [OUTERDEF, INNERDEF]

  lemma PutShort(n: int)
    requires 0 <= n < 128
    ensures U29.Put(n) == [n as byte]
  {
  }

  lemma PutName(m: Mode, s: bytes, w: Sink)
    requires m.tabled && |s| == 1 && s[0] != 0 && s !in w.strs
    ensures PutString(m, s, w) == Sink(w.out + [3] + s, w.strs + [s], w.defs)
  {
    PutShort(3);
    assert IndexOf(s, 0) < 0;
  }

  lemma PutEmpty(m: Mode, w: Sink)
    ensures PutString(m, [], w) == Emit(w, [1])
  {
    PutShort(1);
  }

  lemma PutFour(m: Mode, w: Sink)
    ensures PutValue(m, Integer(4), w) == Wrote(true, Emit(w, [4, 4]))
  {
    PutShort(4);
    assert w.out + [4] + [4] == w.out + [4, 4];
  }

  lemma PutNull(m: Mode, w: Sink)
    ensures PutValue(m, Null, w) == Wrote(true, Emit(w, [1]))
  {
  }

  lemma InnerDef(m: Mode, def: ClassDef, w: Sink)
    requires def == INNERDEF && w.defs == [OUTERDEF]
    ensures PutDef(m, def, w) == Sink(w.out + [27, 1, 1], w.strs, DEFS)
  {
    hide PutString, U29.Put;
    assert Traits(def) == 27;
    PutShort(27);
    assert def.properties != OUTERDEF.properties;
    assert IndexOf(w.defs, def) < 0;
    var t := Sink(w.out + [27], w.strs, w.defs + [def]);
    PutEmpty(m, t);
    PutEmpty(m, Emit(t, [1]));
    assert PutDef(m, def, w) == PutNames(m, def.properties, 0, Emit(t, [1]));
    OneName(m, def.properties, Emit(t, [1]));
    assert Emit(Emit(t, [1]), [1]).out == w.out + [27, 1, 1];
    assert w.defs + [def] == DEFS;
  }

  lemma OneName(m: Mode, names: seq<bytes>, w: Sink)
    requires |names| == 1
    ensures PutNames(m, names, 0, w) == PutString(m, names[0], w)
  {
    hide PutString;
    assert PutNames(m, names, 1, PutString(m, names[0], w)) == PutString(m, names[0], w);
  }

  lemma OuterDef(m: Mode, def: ClassDef, w: Sink)
    requires def == OUTERDEF && w.defs == []
    ensures PutDef(m, def, w) == Sink(w.out + [11, 1], w.strs, [OUTERDEF])
  {
    hide PutString, U29.Put;
    assert Traits(def) == 11;
    PutShort(11);
    assert IndexOf(w.defs, def) < 0;
    assert w.defs + [def] == [OUTERDEF];
    var t := Sink(w.out + [11], w.strs, [OUTERDEF]);
    PutEmpty(m, t);
    assert PutDef(m, def, w) == PutNames(m, def.properties, 0, Emit(t, [1]));
    assert Emit(t, [1]).out == w.out + [11, 1];
  }

  lemma InnerWritten(m: Mode, w: Sink)
    requires w.defs == [OUTERDEF]
    ensures PutValue(m, INNERVALUE, w) == Wrote(true, Sink(w.out + [10, 27, 1, 1, 4, 4, 1, 4, 4, 1], w.strs, DEFS))
  {
    hide PutString, PutDef;
    var o := INNERVALUE;
    var a := Emit(w, [10]);
    InnerDef(m, INNERDEF, a);
    var d := PutDef(m, INNERDEF, a);
    PutFour(m, d);
    var s := Emit(d, [4, 4]);
    assert Find(o.members, []) == 0;
    assert PutSealed(m, o, 1, s) == Wrote(true, s);
    assert PutSealed(m, o, 0, d) == Wrote(true, s);
    PutEmpty(m, s);
    var k := Emit(s, [1]);
    PutFour(m, k);
    var e := Emit(k, [4, 4]);
    assert PutDynamic(m, o, 1, e) == Wrote(true, e);
    assert PutDynamic(m, o, 0, s) == Wrote(true, e);
    PutEmpty(m, e);
    assert Emit(e, [1]).out == w.out + [10, 27, 1, 1, 4, 4, 1, 4, 4, 1];
  }

  lemma Lookups(ms: seq<Member>)
    requires ms == NESTED.members
    ensures Find(ms, [97]) == 0 && Find(ms, [98]) == 1 && Find(ms, [107]) == 2
  {
    assert ms[0].key == [97] && ms[1].key == [98] && ms[2].key == [107];
    assert [97] != [98] && [97] != [107];
    var b: bytes, k: bytes := [98], [107];
    assert b[0] != k[0] && ms[0].key[0] == 97;
    assert Find(ms, b) == 1;
    assert Find(ms, k) == 2;
  }

  /** A member with a short new name. */
  lemma MemberWritten(m: Mode, o: Value, i: nat, b: byte, w: Sink, u: Sink, e: Wrote, x: Wrote)
    requires o.Object? && i < |o.members| && m.tabled && b != 0 && o.members[i].key == [b] && Find(o.members, [b]) == i
    requires forall j | 0 <= j < |w.strs| :: w.strs[j] != [b]
    requires u == Sink(w.out + [3, b], w.strs + [[b]], w.defs)
    requires e == PutValue(m, o.members[i].value, u) && e.ok && x == PutDynamic(m, o, i + 1, e.sink)
    ensures PutDynamic(m, o, i, w) == x
  {
    hide PutString, PutValue, Find;
    PutName(m, [b], w);
    assert w.out + [3] + [b] == w.out + [3, b];
  }

  lemma LastMember(m: Mode, o: Value, w: Sink)
    requires o == NESTED && m.tabled && w.strs == [[97], [98]] && w.defs == [OUTERDEF]
    ensures PutDynamic(m, o, 2, w)
         == Wrote(true, Sink(w.out + [3, 107] + [10, 27, 1, 1, 4, 4, 1, 4, 4, 1], STRINGS, DEFS))
  {
    hide PutString, PutValue, PutDynamic, PutSealed, PutDef, Find, U29.Put, StrCpy, Content;
    var k := Sink(w.out + [3, 107], STRINGS, w.defs);
    var e := PutValue(m, o.members[2].value, k);
    InnerWritten(m, k);
    DynamicEnds(m, o, 3, e.sink);
    Lookups(o.members);
    OtherNames();
    assert w.strs + [[107]] == k.strs;
    MemberWritten(m, o, 2, 107, w, k, e, e);
  }

  lemma NestedMembers(m: Mode, o: Value, w: Sink)
    requires o == NESTED && m.tabled && w.strs == [] && w.defs == [OUTERDEF]
    ensures PutDynamic(m, o, 0, w)
         == Wrote(true, Sink(w.out + [3, 97] + [1] + [3, 98] + [1] + [3, 107] + [10, 27, 1, 1, 4, 4, 1, 4, 4, 1],
             STRINGS, DEFS))
  {
    hide PutString, PutValue, PutDynamic, PutSealed, PutDef, Find, U29.Put, StrCpy, Content;
    var a := Sink(w.out + [3, 97], [[97]], w.defs);
    var a1 := Emit(a, [1]);
    var b := Sink(a1.out + [3, 98], [[97], [98]], w.defs);
    var b1 := Emit(b, [1]);
    PutNull(m, a);
    PutNull(m, b);
    LastMember(m, o, b1);
    var e := PutDynamic(m, o, 2, b1);
    Lookups(o.members);
    OtherNames();
    assert w.strs + [[97]] == a.strs && a1.strs + [[98]] == b.strs;
    MemberWritten(m, o, 1, 98, a1, b, Wrote(true, b1), e);
    MemberWritten(m, o, 0, 97, w, a, Wrote(true, a1), e);
  }

  lemma DynamicEnds(m: Mode, o: Value, i: nat, w: Sink)
    requires o.Object? && i == |o.members|
    ensures PutDynamic(m, o, i, w) == Wrote(true, w)
  {
  }

  lemma OtherNames()
    ensures forall x: byte, y: byte :: x != y ==> [x] != [y]
  {
    forall x: byte, y: byte | x != y ensures [x] != [y] { assert [x][0] != [y][0]; }
  }

  lemma ObjectWritten(m: Mode, o: Value, w: Sink, d: Sink, x: Wrote)
    requires o.Object? && o.def.dynamic && !o.def.externalizable && o.def.properties == []
    requires d == PutDef(m, o.def, Emit(w, [10])) && x == PutDynamic(m, o, 0, d) && x.ok
    ensures PutValue(m, o, w) == Wrote(true, Emit(x.sink, [1]))
  {
    hide PutString, PutDef, PutDynamic;
    PutEmpty(m, x.sink);
    assert PutSealed(m, o, 0, d) == Wrote(true, d);
    assert PutObject(m, o, Emit(w, [10])) == Wrote(true, PutString(m, [], x.sink));
  }

  lemma NestedWritten(under: nat -> byte, o: Value)
    requires o == NESTED
    ensures Written(o, under) == Wrote(true, Sink(WRITTEN, STRINGS, DEFS))
  {
    hide PutString, PutDef, PutDynamic, PutValue;
    var m := Mode(true, under);
    var a := Emit(EMPTY, [10]);
    OuterDef(m, o.def, a);
    var d := PutDef(m, o.def, a);
    NestedMembers(m, o, d);
    var x := PutDynamic(m, o, 0, d);
    ObjectWritten(m, o, EMPTY, d, x);
    assert Emit(x.sink, [1]).out == WRITTEN;
  }

  // ---- Reading it -----------------------------------------------------------------------------------

  const READ := Object(OUTERDEF,
      [Member([97], Null), Member([98], Null), Member([107], INNERVALUE), Member([107], Integer(1))])

  lemma ReadShort(buf: bytes, r: Cursor)
    requires r.pos < |buf| && buf[r.pos] < 128
    ensures GetInt(buf, r) == Got(buf[r.pos] as int, r.(pos := r.pos + 1))
  {
    ScanBytes(buf, r.pos);
  }

  lemma ReadEmpty(buf: bytes, r: Cursor)
    requires r.pos < |buf| && buf[r.pos] == 1
    ensures GetString(buf, r) == Got([], r.(pos := r.pos + 1))
  {
    hide GetInt;
    ReadShort(buf, r);
    assert buf[r.pos + 1..r.pos + 1] == [];
  }

  lemma ReadName(buf: bytes, r: Cursor, b: byte)
    requires r.pos + 1 < |buf| && buf[r.pos] == 3 && buf[r.pos + 1] == b
    ensures GetString(buf, r) == Got([b], Cursor(r.pos + 2, r.strs + [[b]], r.defs))
  {
    hide GetInt;
    ReadShort(buf, r);
    assert buf[r.pos + 1..r.pos + 2] == [b];
  }

  lemma ReadThird(buf: bytes, r: Cursor)
    requires r.pos < |buf| && buf[r.pos] == 4 && |r.strs| == 3
    ensures GetString(buf, r) == Got(r.strs[2], r.(pos := r.pos + 1))
  {
    hide GetInt;
    ReadShort(buf, r);
  }

  lemma ReadNull(buf: bytes, r: Cursor)
    requires r.pos < |buf| && buf[r.pos] == 1
    ensures GetValue(buf, r) == Got(Null, r.(pos := r.pos + 1))
  {
  }

  lemma ReadSmall(buf: bytes, r: Cursor)
    requires r.pos + 1 < |buf| && buf[r.pos] == 4 && buf[r.pos + 1] < 128
    ensures GetValue(buf, r) == Got(Integer(buf[r.pos + 1] as int), r.(pos := r.pos + 2))
  {
    hide GetInt, GetString, GetArray, GetObject;
    ReadShort(buf, r.(pos := r.pos + 1));
  }

  lemma ReadDef(buf: bytes, r: Cursor, def: ClassDef, q: Cursor)
    requires r.pos + 3 <= |buf| && buf[r.pos + 1] == 1
    requires || (buf[r.pos] == 11 && def == OUTERDEF && q == Cursor(r.pos + 2, r.strs, r.defs + [def]))
             || (buf[r.pos] == 27 && buf[r.pos + 2] == 1 && def == INNERDEF
                && q == Cursor(r.pos + 3, r.strs, r.defs + [def]))
    ensures GetDef(buf, r) == Got(def, q)
  {
    hide GetInt, GetString;
    ReadShort(buf, r);
    var n := r.(pos := r.pos + 1);
    ReadEmpty(buf, n);
    var s := r.(pos := r.pos + 2);
    if buf[r.pos] == 27 {
      ReadEmpty(buf, s);
      var none: seq<bytes>, one: seq<bytes> := [], [[]];
      assert none + [[]] == one;
      assert GetNames(buf, s.(pos := s.pos + 1), 0, one) == Got(one, s.(pos := s.pos + 1));
      assert GetNames(buf, s, 1, none) == Got(one, s.(pos := s.pos + 1));
      assert 27 / 16 == 1;
    } else {
      assert GetNames(buf, s, 0, []) == Got([], s);
      assert 11 / 16 == 0;
    }
  }

  lemma ReadEnd(buf: bytes, r: Cursor, acc: seq<Member>)
    requires r.pos < |buf| && buf[r.pos] == 1
    ensures GetDynamic(buf, r, acc) == Got(acc, r.(pos := r.pos + 1))
  {
    hide GetString, GetValue;
    ReadEmpty(buf, r);
  }

  lemma ReadMember(buf: bytes, r: Cursor, q: Cursor, k: bytes, v: Value, x: Cursor, acc: seq<Member>)
    requires GetString(buf, r) == Got(k, q) && k != [] && GetValue(buf, q) == Got(v, x)
    ensures GetDynamic(buf, r, acc) == GetDynamic(buf, x, acc + [Member(k, v)])
  {
    hide GetString, GetValue;
  }

  lemma ReadObject(buf: bytes, r: Cursor, def: ClassDef, q: Cursor, ms: seq<Member>, q2: Cursor, all: seq<Member>,
      q3: Cursor)
    requires r.pos < |buf| && buf[r.pos] == 10 && GetDef(buf, r.(pos := r.pos + 1)) == Got(def, q)
    requires !def.externalizable && def.dynamic
    requires GetSealed(buf, q, def.properties, 0, []) == Got(ms, q2) && GetDynamic(buf, q2, ms) == Got(all, q3)
    ensures GetValue(buf, r) == Got(Object(def, all), q3)
  {
    hide GetDef, GetSealed, GetDynamic, GetString, GetInt, GetArray;
  }

  lemma ReadOneSealed(buf: bytes, r: Cursor, names: seq<bytes>, v: Value, q: Cursor)
    requires |names| == 1 && GetValue(buf, r) == Got(v, q) && q.pos <= |buf|
    ensures GetSealed(buf, r, names, 0, []) == Got([Member(names[0], v)], q)
  {
    hide GetValue;
    var ms := [Member(names[0], v)];
    assert [] + ms == ms;
    assert GetSealed(buf, q, names, 1, ms) == Got(ms, q);
  }

  ghost predicate InnerAt(buf: bytes, p: nat)
  {
    && p + 7 <= |buf| && buf[p] == 10 && buf[p + 1] == 27 && buf[p + 2] == 1 && buf[p + 3] == 1
    && buf[p + 4] == 4 && buf[p + 5] == 4 && buf[p + 6] == 1
  }

  lemma ReadInner(buf: bytes, r: Cursor, def: ClassDef)
    requires InnerAt(buf, r.pos) && def == INNERDEF
    ensures GetValue(buf, r) == Got(Object(def, [Member([], Integer(4))]), Cursor(r.pos + 7, r.strs, r.defs + [def]))
  {
    hide GetValue, GetDef, GetDynamic, GetSealed;
    var q := Cursor(r.pos + 4, r.strs, r.defs + [def]);
    ReadDef(buf, r.(pos := r.pos + 1), def, q);
    ReadSmall(buf, q);
    var q2 := q.(pos := q.pos + 2);
    ReadOneSealed(buf, q, def.properties, Integer(4), q2);
    var ms := [Member(def.properties[0], Integer(4))];
    ReadEnd(buf, q2, ms);
    ReadObject(buf, r, def, q, ms, q2, ms, q2.(pos := q2.pos + 1));
  }

  lemma ReadNullMember(buf: bytes, r: Cursor, b: byte, acc: seq<Member>)
    requires r.pos + 2 < |buf| && buf[r.pos] == 3 && buf[r.pos + 1] == b && buf[r.pos + 2] == 1
    ensures GetDynamic(buf, r, acc)
         == GetDynamic(buf, Cursor(r.pos + 3, r.strs + [[b]], r.defs), acc + [Member([b], Null)])
  {
    hide GetValue, GetDynamic, GetString;
    var q := Cursor(r.pos + 2, r.strs + [[b]], r.defs);
    ReadName(buf, r, b);
    ReadNull(buf, q);
    ReadMember(buf, r, q, [b], Null, q.(pos := r.pos + 3), acc);
  }

  /** The inner object, and then its rest as one more member of the same name. */
  lemma ReadTwice(buf: bytes, r: Cursor, acc: seq<Member>, def: ClassDef, v: Value)
    requires r.pos + 13 <= |buf| && buf[r.pos] == 3 && buf[r.pos + 1] == 107 && InnerAt(buf, r.pos + 2)
    requires buf[r.pos + 9] == 4 && buf[r.pos + 10] == 4 && buf[r.pos + 11] == 1 && buf[r.pos + 12] == 1
    requires |r.strs| == 2 && def == INNERDEF && v == Object(def, [Member([], Integer(4))])
    ensures GetDynamic(buf, r, acc)
         == Got(acc + [Member([107], v)] + [Member([107], Integer(1))],
             Cursor(r.pos + 13, r.strs + [[107]], r.defs + [def]))
  {
    hide GetValue, GetDynamic, GetString;
    var k := Cursor(r.pos + 2, r.strs + [[107]], r.defs);
    ReadName(buf, r, 107);
    ReadInner(buf, k, def);
    var q := Cursor(r.pos + 9, k.strs, r.defs + [def]);
    ReadMember(buf, r, k, [107], v, q, acc);
    ReadThird(buf, q);
    ReadSmall(buf, q.(pos := r.pos + 10));
    ReadMember(buf, q, q.(pos := r.pos + 10), [107], Integer(1), q.(pos := r.pos + 12), acc + [Member([107], v)]);
    ReadEnd(buf, q.(pos := r.pos + 12), acc + [Member([107], v)] + [Member([107], Integer(1))]);
  }

  ghost predicate OuterAt(buf: bytes)
  {
    && |buf| >= 22
    && buf[3] == 3 && buf[4] == 97 && buf[5] == 1 && buf[6] == 3 && buf[7] == 98 && buf[8] == 1
    && buf[9] == 3 && buf[10] == 107 && InnerAt(buf, 11)
    && buf[18] == 4 && buf[19] == 4 && buf[20] == 1 && buf[21] == 1
  }

  lemma ReadOuter(buf: bytes, d: Cursor, acc: seq<Member>, inner: ClassDef, v: Value)
    requires OuterAt(buf) && d.pos == 3 && d.strs == [] && acc == [Member([97], Null)] + [Member([98], Null)]
    requires inner == INNERDEF && v == Object(inner, [Member([], Integer(4))])
    ensures GetDynamic(buf, d, [])
         == Got(acc + [Member([107], v)] + [Member([107], Integer(1))],
             Cursor(22, [[97]] + [[98]] + [[107]], d.defs + [inner]))
  {
    hide GetDynamic, InnerAt, INNERDEF;
    ReadNullMember(buf, d, 97, []);
    assert d.strs + [[97]] == [[97]];
    var a := Cursor(6, [[97]], d.defs);
    assert [] + [Member([97], Null)] == [Member([97], Null)];
    ReadNullMember(buf, a, 98, [Member([97], Null)]);
    ReadTwice(buf, Cursor(9, a.strs + [[98]], d.defs), acc, inner, v);
  }

  lemma BytesOf(buf: bytes)
    requires WRITTEN <= buf
    ensures |buf| >= 22 && buf[0] == 10 && buf[1] == 11 && buf[2] == 1 && OuterAt(buf)
  {
    assert |WRITTEN| == 22;
  }

  lemma ReadNested(buf: bytes, def: ClassDef)
    requires |buf| >= 22 && buf[0] == 10 && buf[1] == 11 && buf[2] == 1 && OuterAt(buf) && def == OUTERDEF
    ensures GetValue(buf, START) == Got(Object(def, READ.members), Cursor(22, STRINGS, DEFS))
  {
    hide GetValue, GetDef, GetDynamic, OuterAt;
    var d := Cursor(3, [], [def]);
    assert [] + [def] == [def];
    ReadDef(buf, Cursor(1, [], []), def, d);
    assert GetSealed(buf, d, def.properties, 0, []) == Got([], d);
    var acc := [Member([97], Null)] + [Member([98], Null)];
    ReadOuter(buf, d, acc, INNERDEF, INNERVALUE);
    assert [[97]] + [[98]] + [[107]] == STRINGS && [def] + [INNERDEF] == DEFS;
    assert acc + [Member([107], INNERVALUE)] + [Member([107], Integer(1))] == READ.members;
    ReadObject(buf, START, def, d, [], d, READ.members, Cursor(22, STRINGS, DEFS));
  }

  // ---- The tree -------------------------------------------------------------------------------------

  /** Outside `Plain` and `Covered`, and yet back again, from every buffer. */
  lemma NestedReturns(under: nat -> byte)
    ensures !Plain(NESTED, under) && !Covered(NESTED) && Bounded(true, Written(NESTED, under).sink)
    ensures RoundTrips(NESTED, under)
  {
    hide PutValue, GetValue;
    NestedWritten(under, NESTED);
    NestedSame();
    forall tail: bytes
      ensures var r := GetValue(WRITTEN + tail, START);
        r.Got? && Same(NESTED, r.value) && r.next == Cursor(22, STRINGS, DEFS)
    {
      BytesOf(WRITTEN + tail);
      ReadNested(WRITTEN + tail, OUTERDEF);
    }
    NestedOutside(under);
  }

  lemma NestedSame()
    ensures Same(NESTED, READ)
  {
    var ms, all := NESTED.members, READ.members;
    Lookups(ms);
    assert all == ms + [all[3]] && all[3].key == [107];
    SameSelf(NESTED);
    Repeated(NESTED, all);
  }

  /** One more member of a name that is there already changes nothing. */
  lemma Repeated(o: Value, all: seq<Member>)
    requires o.Object? && |all| == |o.members| + 1 && o.members == all[..|o.members|]
             && Has(o.members, all[|o.members|].key)
    requires Same(o, o)
    ensures Same(o, Object(o.def, all))
  {
    forall k ensures Has(o.members, k) <==> Has(all, k)
      ensures Has(o.members, k) ==> Find(all, k) == Find(o.members, k)
    {
      if Has(o.members, k) { FindPrefix(o.members, all, k); }
      else { NoNewName(o.members, all, k); }
    }
    hide Find;
  }

  lemma NoNewName(ms: seq<Member>, all: seq<Member>, k: bytes)
    requires |all| == |ms| + 1 && ms == all[..|ms|] && Has(ms, all[|ms|].key) && !Has(ms, k)
    ensures !Has(all, k)
  {
    forall j | 0 <= j < |all| ensures all[j].key != k {
      if j < |ms| { assert ms[j] == all[j]; }
    }
  }

  /** No tree can be told from itself. */
  lemma {:induction false} SameSelf(v: Value)
    ensures Same(v, v)
  {
    match v
    case Array(a, d) =>
      forall i | 0 <= i < |a| ensures Same(a[i].value, a[i].value) { SameSelf(a[i].value); }
      forall i | 0 <= i < |d| ensures Same(d[i], d[i]) { SameSelf(d[i]); }
    case Object(_, ms) =>
      forall k | Has(ms, k) ensures Same(ms[Find(ms, k)].value, ms[Find(ms, k)].value) {
        SameSelf(ms[Find(ms, k)].value);
      }
    case _ =>
  }

  lemma NestedOutside(under: nat -> byte)
    ensures !Plain(NESTED, under) && !Covered(NESTED)
  {
    var ms := NESTED.members;
    Lookups(ms);
    InnerOutside(ms[2].value, under);
    hide Find, GoodDef, GoodString;
    assert Has(ms, [107]);
  }

  lemma InnerOutside(v: Value, under: nat -> byte)
    requires v == INNERVALUE
    ensures !Plain(v, under) && !Covered(v)
  {
    hide Find, GoodDef, GoodString;
    assert v.members[0].key == [];
  }
}
