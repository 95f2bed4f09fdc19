/** Reading on behind a date: while no new string comes, every value is read as itself or as another one that shows,
    so that both sides stay one entry apart to the end of the tree. */
module Amf3GapValue {
  import opened U29
  import opened Amf3Value
  import opened Amf3Writer
  import opened Amf3Parser
  import opened Amf3RoundTrip
  import opened Amf3Same
  import opened Amf3Tables
  import opened Amf3Damage
  import opened Amf3Visible
  import opened Amf3Gap

  /** Plain, with no regard to the strings and with the one date text that reads back as itself. */
  ghost predicate Tame(v: Value)
    decreases v
  {
    match v
    case Undefined => false
    case Integer(n) => -0x1000_0000 <= n < 0x1000_0000
    case Date(s) => s == DATETIME
    case Array(a, d) => a == [] && |d| < 0x800_0000 && forall i | 0 <= i < |d| :: Tame(d[i])
    case Object(def, ms) =>
      && Declarable(def)
      && (forall i | 0 <= i < |def.properties| :: Has(ms, def.properties[i]))
      && (def.dynamic || forall j | 0 <= j < |ms| :: ms[j].key in def.properties)
      && (forall k | Has(ms, k) :: Tame(ms[Find(ms, k)].value))
    case _ => true
  }

  lemma {:induction false} PlainIsTame(v: Value, under: nat -> byte)
    requires Plain(v, under)
    ensures Tame(v)
    decreases v
  {
    hide Find, GoodString;
    match v
    case Array(_, d) =>
      forall i | 0 <= i < |d| ensures Tame(d[i]) { PlainIsTame(d[i], under); }
    case Object(_, ms) =>
      forall k | Has(ms, k) ensures Tame(ms[Find(ms, k)].value) { PlainIsTame(ms[Find(ms, k)].value, under); }
    case _ =>
  }

  /** What is read behind a date, one entry behind: nothing, tables that will never agree, or a value that differs
      exactly when it must. */
  ghost predicate Behind(v: Value, x: Sink, g: Read<Value>)
  {
    g.Got? ==> Apart(x.strs, g.next.strs) || if Tame(v) then Gap(x, g.next) else !Same(v, g.value)
  }

  lemma MoveOn(w: Sink, r: Cursor, e: bytes)
    requires Gap(w, r)
    ensures Gap(Emit(w, e), r.(pos := |w.out| + |e|))
  {
  }

  /** The eight bytes of a number, or of what is taken for a date. */
  lemma NumberAt(w: Sink, r: Cursor, bits: Bits, x: Sink, buf: bytes)
    requires r.pos == |w.out| && x == Emit(w, Reversed(bits)) && x.out <= buf
    ensures var g := GetNumber(buf, r); g.Got? && g.next == r.(pos := |x.out|)
  {
  }

  lemma GapLeaf(m: Mode, v: Value, w: Sink, r: Cursor, x: Sink, buf: bytes)
    requires m.tabled && Gap(w, r) && !v.Array? && !v.Object?
    requires PutValue(m, v, w) == Wrote(true, x) && Bounded(true, x) && x.out <= buf
    ensures Behind(v, x, GetValue(buf, r))
  {
    hide PutString, GetString, GetArray, GetObject, GetNumber, GetDate, U29.Put, GetInt, Apart, Gap;
    match v
    case Null => LeafTag(w, r, 1, x, buf);
    case False => LeafTag(w, r, 2, x, buf);
    case True => LeafTag(w, r, 3, x, buf);
    case Integer(n) =>
      LeafTag(w, r, 4, x, buf);
      IntAt(Emit(w, [4]), r.(pos := r.pos + 1), n, buf);
      MoveOn(Emit(w, [4]), r.(pos := r.pos + 1), U29.Put(n));
    case Number(bits) =>
      LeafTag(w, r, 5, x, buf);
      NumberAt(Emit(w, [5]), r.(pos := r.pos + 1), bits, x, buf);
      MoveOn(Emit(w, [5]), r.(pos := r.pos + 1), Reversed(bits));
    case String(s) =>
      GrowString(m, s, Emit(w, [6]));
      LeafTag(w, r, 6, x, buf);
      GapText(m, s, Emit(w, [6]), r.(pos := r.pos + 1), x, buf);
    case Date(s) =>
      GrowString(m, s, Emit(w, [8]));
      LeafTag(w, r, 8, x, buf);
      DateReadsFixed(buf, r.(pos := r.pos + 1));
      if s == DATETIME { GapDate(m, Emit(w, [8]), r.(pos := r.pos + 1), x, buf); }
  }

  lemma LeafTag(w: Sink, r: Cursor, t: byte, x: Sink, buf: bytes)
    requires Gap(w, r) && Extends(Emit(w, [t]), x) && x.out <= buf
    ensures r.pos == |w.out| < |buf| && buf[r.pos] == t && Gap(Emit(w, [t]), r.(pos := r.pos + 1))
  {
    TagBack(w, t, x, buf);
  }

  lemma GapText(m: Mode, s: bytes, w: Sink, r: Cursor, x: Sink, buf: bytes)
    requires m.tabled && Gap(w, r) && x == PutString(m, s, w) && Bounded(true, x) && x.out <= buf
    ensures var g := GetString(buf, r); g.Got? ==> Apart(x.strs, g.next.strs) || (g.value == s && Gap(x, g.next))
  {
    hide PutString, GetString, Apart;
    GrowString(m, s, w);
    StringIgnoresDefs(m, s, w, []);
    GapString(m, s, w, r, x, buf);
  }

  /** The date text is in the writer's table already, and a reference is no date. */
  lemma GapDate(m: Mode, w: Sink, r: Cursor, x: Sink, buf: bytes)
    requires m.tabled && Gap(w, r) && x == PutString(m, DATETIME, w) && Bounded(true, x) && x.out <= buf
    ensures GetDate(buf, r) == Fail
  {
    assert w.strs[|r.strs|] == DATETIME;
    DateRef(m, w, r, x, buf);
  }

  lemma DateRef(m: Mode, w: Sink, r: Cursor, x: Sink, buf: bytes)
    requires m.tabled && r.pos == |w.out| && DATETIME in w.strs && |w.strs| <= 0x800_0000
    requires x == PutString(m, DATETIME, w) && x.out <= buf
    ensures GetDate(buf, r) == Fail
  {
    var i := IndexOf(w.strs, DATETIME);
    hide U29.Put, GetInt;
    IntAt(w, r, 2 * i, buf);
    assert Rep(2 * i) == 2 * i;
  }
  lemma {:induction false} GapValue(m: Mode, v: Value, w: Sink, r: Cursor, x: Sink, buf: bytes)
    requires m.tabled && Gap(w, r) && Covered(v)
    requires PutValue(m, v, w) == Wrote(true, x) && Bounded(true, x) && x.out <= buf
    ensures Behind(v, x, GetValue(buf, r))
    decreases v, 1, 0
  {
    hide Covered, Tame, Same, Gap, Apart, PutArray, PutObject, PutString, U29.Put;
    hide GetArray, GetObject, GetInt, GetNumber, GetString, GetDate;
    if v.Array? {
      GrowArray(m, v, Emit(w, [9]));
      LeafTag(w, r, 9, x, buf);
      GapArray(m, v, Emit(w, [9]), r.(pos := r.pos + 1), x, buf);
    } else if v.Object? {
      GrowObject(m, v, Emit(w, [10]));
      LeafTag(w, r, 10, x, buf);
      GapObject(m, v, Emit(w, [10]), r.(pos := r.pos + 1), x, buf);
    } else {
      GapLeaf(m, v, w, r, x, buf);
    }
  }

  lemma TameArray(a: Value)
    requires a.Array?
    ensures Tame(a) <==> a.assoc == [] && |a.dense| < 0x800_0000 && forall i | 0 <= i < |a.dense| :: Tame(a.dense[i])
  {
  }

  lemma GapHeader(w: Sink, r: Cursor, w2: Sink, w3: Sink, n: nat, buf: bytes)
    requires Gap(w, r) && n < 0x800_0000 && w2 == Emit(w, U29.Put(2 * n + 1)) && w3 == Emit(w2, U29.Put(1))
    requires w3.out <= buf
    ensures var q, q3 := r.(pos := |w2.out|), r.(pos := |w3.out|);
      GetInt(buf, r) == Got(2 * n + 1, q) && GetString(buf, q) == Got([], q3) && Gap(w3, q3)
  {
    hide U29.Put, GetString, GetInt, Rep;
    assert w2.out <= w3.out <= buf;
    IntAt(w, r, 2 * n + 1, buf);
    assert Rep(2 * n + 1) == 2 * n + 1;
    EmptyAt(w2, r.(pos := |w2.out|), buf);
  }

  lemma {:induction false} GapArray(m: Mode, a: Value, w: Sink, r: Cursor, x: Sink, buf: bytes)
    requires m.tabled && Gap(w, r) && a.Array? && Covered(a)
    requires PutArray(m, a, w) == Wrote(true, x) && Bounded(true, x) && x.out <= buf
    ensures Behind(a, x, GetArray(buf, r))
    decreases a, 0, |a.dense| + |a.assoc| + 1
  {
    hide Covered, Tame, Same, Apart, PutArray, PutDense, U29.Put, GetDense, GetArray, GetString, GetInt, Rep, Gap;
    var n := |a.dense|;
    var w2 := Emit(w, U29.Put(2 * n + 1));
    ArrayParts(m, a, w, w2, x, buf);
    TameArray(a);
    if a.assoc == [] && n < 0x800_0000 {
      var w3 := Emit(w2, U29.Put(1));
      PutArrayIs(m, a, w, w2, w3);
      GrowDense(m, a, 0, w3);
      ExtendsBuffer(w3, x, buf);
      GapHeader(w, r, w2, w3, n, buf);
      ArrayFrom(buf, r, r.(pos := |w2.out|), r.(pos := |w3.out|), n);
      GapDense(m, a, 0, [], w3, r.(pos := |w3.out|), x, buf);
    } else {
      GapBadHeader(a, w, r, w2, buf);
    }
  }

  lemma GapBadHeader(a: Value, w: Sink, r: Cursor, w2: Sink, buf: bytes)
    requires Gap(w, r) && a.Array? && (a.assoc != [] || |a.dense| >= 0x800_0000)
    requires w2 == Emit(w, U29.Put(2 * |a.dense| + 1)) && w2.out <= buf
    ensures GetArray(buf, r).Got? ==> !Same(a, GetArray(buf, r).value)
  {
    hide U29.Put, GetArray, GetInt, Same, Rep;
    IntAt(w, r, 2 * |a.dense| + 1, buf);
    BadHeader(a, buf, r);
  }

  lemma {:induction false} GapDense(m: Mode, a: Value, i: nat, acc: seq<Value>, w: Sink, r: Cursor, x: Sink, buf: bytes)
    requires m.tabled && Gap(w, r) && a.Array? && Covered(a) && |acc| == i <= |a.dense|
    requires PutDense(m, a, i, w) == Wrote(true, x) && Bounded(true, x) && x.out <= buf
    ensures var g := GetDense(buf, r, |a.dense| - i, [], acc); g.Got? ==>
      || Apart(x.strs, g.next.strs)
      || if forall j | i <= j < |a.dense| :: Tame(a.dense[j]) then Gap(x, g.next) else !Same(a, g.value)
    decreases a, 0, |a.dense| - i
  {
    hide Gap, Apart, Covered, Tame, Same, PutValue, GetValue;
    if i < |a.dense| {
      var v := a.dense[i];
      var e := PutValue(m, v, w).sink;
      GrowDense(m, a, i + 1, e);
      ExtendsBuffer(e, x, buf);
      CoveredElement(a, i);
      GapValue(m, v, w, r, e, buf);
      var g := GetValue(buf, r);
      var all := GetDense(buf, r, |a.dense| - i, [], acc);
      if all.Got? {
        if Apart(e.strs, g.next.strs) {
          StaysApart(e.strs, g.next.strs, x.strs, all.next.strs);
        } else if Tame(v) {
          GapDense(m, a, i + 1, acc + [g.value], e, g.next, x, buf);
        } else {
          assert all.value.dense[i] == (acc + [g.value])[i] == g.value;
          ElementDiffers(a, all.value, i);
        }
      }
    }
  }

  // ---- Objects --------------------------------------------------------------------------------------

  /** What has been read so far came from values that are tame. */
  ghost predicate TameSoFar(o: Value, acc: seq<Member>)
    requires o.Object?
  {
    forall j | 0 <= j < |acc| :: Has(o.members, acc[j].key) && Tame(o.members[Find(o.members, acc[j].key)].value)
  }

  lemma TameStep(o: Value, acc: seq<Member>, k: bytes, v: Value)
    requires o.Object? && TameSoFar(o, acc) && Has(o.members, k) && Tame(o.members[Find(o.members, k)].value)
    ensures TameSoFar(o, acc + [Member(k, v)])
  {
    hide Has, Tame;
  }

  /** A value that is read as another one under a key that was not read before spoils the object. */
  lemma GapSpoils(o: Value, acc: seq<Member>, k: bytes, v: Value, all: seq<Member>)
    requires o.Object? && TameSoFar(o, acc) && Has(o.members, k) && !Tame(o.members[Find(o.members, k)].value)
    requires !Same(o.members[Find(o.members, k)].value, v) && acc + [Member(k, v)] <= all
    ensures Spoiled(o, all)
  {
    hide Same, Tame;
    var ms := acc + [Member(k, v)];
    assert ms[|acc|].key == k;
    assert forall j | 0 <= j < |acc| :: ms[j] == acc[j] && acc[j].key != k;
    assert Find(ms, k) == |acc|;
    SpoiledStays(o, ms, all);
  }

  ghost predicate TameSealed(o: Value, j: nat)
    requires o.Object? && j < |o.def.properties|
  {
    var k := o.def.properties[j];
    Has(o.members, k) && Tame(o.members[Find(o.members, k)].value)
  }

  ghost predicate TameMember(o: Value, j: nat)
    requires o.Object? && j < |o.members|
  {
    var k := o.members[j].key;
    Has(o.members, k) && Tame(o.members[Find(o.members, k)].value)
  }

  ghost predicate KeysIn(ms: seq<Member>, names: seq<bytes>)
  {
    forall j | 0 <= j < |ms| :: ms[j].key in names
  }

  lemma {:induction false} GapSealed(m: Mode, o: Value, i: nat, acc: seq<Member>, w: Sink, r: Cursor, x: Sink,
      buf: bytes)
    requires m.tabled && Gap(w, r) && o.Object? && Covered(o) && i <= |o.def.properties|
    requires TameSoFar(o, acc) && KeysIn(acc, o.def.properties)
    requires PutSealed(m, o, i, w) == Wrote(true, x) && Bounded(true, x) && x.out <= buf
    ensures var g := GetSealed(buf, r, o.def.properties, i, acc); g.Got? ==>
      || Apart(x.strs, g.next.strs)
      || if forall j | i <= j < |o.def.properties| :: TameSealed(o, j)
         then Gap(x, g.next) && TameSoFar(o, g.value) && KeysIn(g.value, o.def.properties) else Spoiled(o, g.value)
    decreases o, 0, |o.def.properties| - i
  {
    hide Gap, Apart, Covered, Tame, Same, Spoiled, TameSoFar, PutValue, GetValue, Find, Has;
    if i < |o.def.properties| {
      var k := o.def.properties[i];
      SealedThere(m, o, i, w);
      var v := o.members[Find(o.members, k)].value;
      var e := PutValue(m, v, w).sink;
      GrowSealed(m, o, i + 1, e);
      ExtendsBuffer(e, x, buf);
      CoveredParts(o);
      GapValue(m, v, w, r, e, buf);
      var g := GetValue(buf, r);
      var all := GetSealed(buf, r, o.def.properties, i, acc);
      if all.Got? {
        var ms := acc + [Member(k, g.value)];
        if Apart(e.strs, g.next.strs) {
          StaysApart(e.strs, g.next.strs, x.strs, all.next.strs);
        } else if Tame(v) {
          TameStep(o, acc, k, g.value);
          GapSealed(m, o, i + 1, ms, e, g.next, x, buf);
        } else {
          assert !TameSealed(o, i);
          GapSpoils(o, acc, k, g.value, all.value);
        }
      }
    }
  }

  lemma GapEnd(m: Mode, acc: seq<Member>, w: Sink, r: Cursor, y: Sink, buf: bytes)
    requires Gap(w, r) && y == PutString(m, [], w) && y.out <= buf
    ensures var q := r.(pos := |y.out|); GetDynamic(buf, r, acc) == Got(acc, q) && Gap(y, q)
  {
    hide U29.Put, GetString;
    EmptyAt(w, r, buf);
  }

  lemma {:induction false} GapDynamic(m: Mode, o: Value, i: nat, acc: seq<Member>, w: Sink, r: Cursor, x: Sink,
      y: Sink, buf: bytes)
    requires m.tabled && Gap(w, r) && o.Object? && Covered(o) && o.def.dynamic && i <= |o.members|
    requires TameSoFar(o, acc) && PutDynamic(m, o, i, w) == Wrote(true, x)
    requires y == PutString(m, [], x) && Bounded(true, y) && y.out <= buf
    ensures var g := GetDynamic(buf, r, acc); g.Got? ==>
      || Apart(y.strs, g.next.strs)
      || if forall j | i <= j < |o.members| :: TameMember(o, j) then Gap(y, g.next) else Spoiled(o, g.value)
    decreases o, 0, |o.members| - i
  {
    hide Gap, Apart, Covered, Tame, Same, Spoiled, TameSoFar, PutValue, GetValue, Find, PutString, GetString;
    if i == |o.members| {
      GapEnd(m, acc, w, r, y, buf);
    } else {
      var k := o.members[i].key;
      HasKey(o.members, i);
      var v := o.members[Find(o.members, k)].value;
      var u := PutString(m, k, w);
      var e := PutValue(m, v, u).sink;
      GrowString(m, [], x);
      GrowDynamic(m, o, i + 1, e);
      GrowValue(m, v, u);
      ExtendsBuffer(x, y, buf);
      ExtendsBuffer(e, x, buf);
      ExtendsBuffer(u, e, buf);
      CoveredParts(o);
      GapText(m, k, w, r, u, buf);
      var s := GetString(buf, r);
      var all := GetDynamic(buf, r, acc);
      if all.Got? {
        if Apart(u.strs, s.next.strs) {
          StaysApart(u.strs, s.next.strs, y.strs, all.next.strs);
        } else {
          GapValue(m, v, u, s.next, e, buf);
          var g := GetValue(buf, s.next);
          if Apart(e.strs, g.next.strs) {
            StaysApart(e.strs, g.next.strs, y.strs, all.next.strs);
          } else if Tame(v) {
            TameStep(o, acc, k, g.value);
            GapDynamic(m, o, i + 1, acc + [Member(k, g.value)], e, g.next, x, y, buf);
          } else {
            assert !TameMember(o, i);
            GapSpoils(o, acc, k, g.value, all.value);
          }
        }
      }
    }
  }

  lemma TameObject(o: Value)
    requires o.Object? && Declarable(o.def) && forall j | 0 <= j < |o.def.properties| :: TameSealed(o, j)
    ensures o.def.dynamic ==> (Tame(o) <==> forall j | 0 <= j < |o.members| :: TameMember(o, j))
    ensures !o.def.dynamic ==> (Tame(o) <==> KeysIn(o.members, o.def.properties))
  {
    hide Find;
    forall i | 0 <= i < |o.def.properties| ensures Has(o.members, o.def.properties[i]) { assert TameSealed(o, i); }
    forall j | 0 <= j < |o.members| && Tame(o) ensures TameMember(o, j) { HasKey(o.members, j); }
    if o.def.dynamic && forall j | 0 <= j < |o.members| :: TameMember(o, j) {
      forall k | Has(o.members, k) ensures Tame(o.members[Find(o.members, k)].value) {
        TameLookup(o, Find(o.members, k));
      }
    }
    if !o.def.dynamic && KeysIn(o.members, o.def.properties) {
      forall k | Has(o.members, k) ensures Tame(o.members[Find(o.members, k)].value) {
        TameLookup(o, Find(o.members, k));
      }
    }
  }

  lemma TameLookup(o: Value, j: nat)
    requires o.Object? && j < |o.members| && Find(o.members, o.members[j].key) == j
    requires TameMember(o, j) || (o.members[j].key in o.def.properties &&
               forall i | 0 <= i < |o.def.properties| :: TameSealed(o, i))
    ensures Tame(o.members[j].value)
  {
    hide Find, Tame;
    if !TameMember(o, j) {
      var i :| 0 <= i < |o.def.properties| && o.def.properties[i] == o.members[j].key;
      assert TameSealed(o, i);
    }
  }

  /** As `Behind`, for the members of an object. */
  ghost predicate Ends(o: Value, x: Sink, g: Read<seq<Member>>)
    requires o.Object?
  {
    g.Got? ==> Apart(x.strs, g.next.strs) || if Tame(o) then Gap(x, g.next) else !Same(o, Object(o.def, g.value))
  }

  /** Behind the sealed members, all of them intact. */
  lemma {:induction false} GapRest(m: Mode, o: Value, s: Sink, ms: seq<Member>, q: Cursor, x: Sink, buf: bytes)
    requires m.tabled && Gap(s, q) && o.Object? && Covered(o) && Declarable(o.def) && o.def.dynamic
    requires TameSoFar(o, ms) && forall j | 0 <= j < |o.def.properties| :: TameSealed(o, j)
    requires PutDynamic(m, o, 0, s).ok && x == PutString(m, [], PutDynamic(m, o, 0, s).sink)
    requires Bounded(true, x) && x.out <= buf
    ensures Ends(o, x, GetDynamic(buf, q, ms))
    decreases o, 0, |o.def.properties| + |o.members| + 1
  {
    hide Gap, Apart, Covered, Tame, Same, Spoiled, Missing, TameSoFar, PutDynamic, GetDynamic, PutString, Bounded;
    hide Declarable, TameSealed, TameMember;
    TameObject(o);
    GapDynamic(m, o, 0, ms, s, q, PutDynamic(m, o, 0, s).sink, x, buf);
    var g := GetDynamic(buf, q, ms);
    if g.Got? {
      if forall j | 0 <= j < |o.members| :: TameMember(o, j) {
        assert Tame(o);
      } else if !Apart(x.strs, g.next.strs) {
        SpoiledObject(o, g.value);
      }
    }
  }

  lemma GapSealedOnly(o: Value, x: Sink, ms: seq<Member>, q: Cursor)
    requires Gap(x, q) && o.Object? && Declarable(o.def) && !o.def.dynamic && KeysIn(ms, o.def.properties)
    requires forall j | 0 <= j < |o.def.properties| :: TameSealed(o, j)
    ensures Ends(o, x, Got(ms, q))
  {
    hide Gap, Apart, Tame, Same, Missing, Declarable, TameSealed, KeysIn;
    TameObject(o);
    if !KeysIn(o.members, o.def.properties) {
      Undeclared(o, ms);
      SpoiledObject(o, ms);
    }
  }

  lemma Undeclared(o: Value, ms: seq<Member>)
    requires o.Object? && KeysIn(ms, o.def.properties) && !KeysIn(o.members, o.def.properties)
    ensures Missing(o, ms)
  {
    var j :| 0 <= j < |o.members| && o.members[j].key !in o.def.properties;
    HasKey(o.members, j);
    assert !Has(ms, o.members[j].key);
  }

  lemma {:induction false} GapMembers(m: Mode, o: Value, t: Sink, r: Cursor, x: Sink, buf: bytes)
    requires m.tabled && Gap(t, r) && o.Object? && Covered(o) && Declarable(o.def)
    requires PutMembers(m, o, t) == Wrote(true, x) && Bounded(true, x) && x.out <= buf
    ensures Ends(o, x, Members(buf, r, o.def))
    decreases o, 0, |o.def.properties| + |o.members| + 2
  {
    hide Gap, Apart, Covered, Tame, Same, Spoiled, Missing, TameSoFar, PutDynamic, GetDynamic, PutString;
    hide PutSealed, GetSealed, Declarable, TameSealed;
    var s := PutSealed(m, o, 0, t).sink;
    GrowMembers(m, o, t, s, x);
    ExtendsBuffer(s, x, buf);
    NothingRead(o);
    GapSealed(m, o, 0, [], t, r, s, buf);
    var g := GetSealed(buf, r, o.def.properties, 0, []);
    var all := Members(buf, r, o.def);
    if all.Got? {
      if Apart(s.strs, g.next.strs) {
        StaysApart(s.strs, g.next.strs, x.strs, all.next.strs);
      } else if forall j | 0 <= j < |o.def.properties| :: TameSealed(o, j) {
        if o.def.dynamic { GapRest(m, o, s, g.value, g.next, x, buf); }
        else { GapSealedOnly(o, x, g.value, g.next); }
      } else {
        WildSealed(o);
        SpoiledStays(o, g.value, all.value);
        SpoiledObject(o, all.value);
      }
    }
  }

  lemma NothingRead(o: Value)
    requires o.Object?
    ensures TameSoFar(o, [])
  {
  }

  lemma WildSealed(o: Value)
    requires o.Object? && !(forall j | 0 <= j < |o.def.properties| :: TameSealed(o, j))
    ensures !Tame(o)
  {
    hide Find;
  }

  lemma {:induction false} GapObject(m: Mode, o: Value, w: Sink, r: Cursor, x: Sink, buf: bytes)
    requires m.tabled && Gap(w, r) && o.Object? && Covered(o)
    requires PutObject(m, o, w) == Wrote(true, x) && Bounded(true, x) && x.out <= buf
    ensures Behind(o, x, GetObject(buf, r))
    decreases o, 0, |o.def.properties| + |o.members| + 3
  {
    hide Gap, Apart, Covered, Tame, Same, PutObject, PutDef, GetObject, GetDef, PutMembers, Members, Declarable;
    var t := PutDef(m, o.def, w);
    GrowRest(m, o, w, t, x);
    ExtendsBuffer(t, x, buf);
    GapDef(m, o.def, w, r, t, buf);
    var d := GetDef(buf, r);
    var all := GetObject(buf, r);
    if all.Got? {
      GetObjectDef(buf, r);
      if Apart(t.strs, d.next.strs) {
        StaysApart(t.strs, d.next.strs, x.strs, all.next.strs);
      } else if Declarable(o.def) {
        NotExternal(o.def);
        PutObjectFrom(m, o, w, t);
        GapMembers(m, o, t, d.next, x, buf);
        ObjectFrom(buf, r, d.next, o.def);
      } else {
        OtherDef(o, buf, r);
        WildDef(o);
      }
    }
  }

  lemma NotExternal(def: ClassDef)
    requires Declarable(def)
    ensures !def.externalizable
  {
  }

  lemma WildDef(o: Value)
    requires o.Object? && !Declarable(o.def)
    ensures !Tame(o)
  {
  }

  lemma GetObjectDef(buf: bytes, r: Cursor)
    requires GetObject(buf, r).Got?
    ensures GetDef(buf, r).Got? && GetDef(buf, r).next.strs <= GetObject(buf, r).next.strs
  {
    hide GetDef, GetSealed, GetDynamic, GetValue;
  }
}
