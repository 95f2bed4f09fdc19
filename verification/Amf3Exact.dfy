/** `Plain` is no narrower than it must be: among the trees in `Covered`, whatever lies outside it is not written,
    not read, read as something else, or leaves the two sides with different tables. The argument finds the first
    place where a tree leaves `Plain`; up to it both sides are in step, and what goes wrong there stays visible.
    Outside `Covered` this is not so: see module Amf3Nested. */
module Amf3Exact {
  import opened U29
  import opened Amf3Value
  import opened Amf3Writer
  import opened Amf3Parser
  import opened Amf3RoundTrip
  import opened Amf3Same
  import opened Amf3Tables
  import opened Amf3Damage
  import opened Amf3Visible
  import opened Amf3Gap
  import opened Amf3GapValue

  /** Reading failed, gave another value, or left the tables out of step: for good, or one entry behind. */
  ghost predicate Wrong(v: Value, x: Sink, r: Read<Value>)
  {
    r.Got? ==> !Same(v, r.value) || Apart(x.strs, r.next.strs) || (Tame(v) && Gap(x, r.next))
  }

  /** What has been read so far came from keys and values that survive. */
  ghost predicate GoodSoFar(o: Value, acc: seq<Member>, under: nat -> byte)
    requires o.Object?
  {
    forall j | 0 <= j < |acc| ::
      && Has(o.members, acc[j].key)
      && GoodString(acc[j].key, under)
      && Plain(o.members[Find(o.members, acc[j].key)].value, under)
  }

  lemma GoodStep(o: Value, acc: seq<Member>, k: bytes, v: Value, under: nat -> byte)
    requires o.Object? && GoodSoFar(o, acc, under)
    requires Has(o.members, k) && GoodString(k, under) && Plain(o.members[Find(o.members, k)].value, under)
    ensures GoodSoFar(o, acc + [Member(k, v)], under)
  {
    hide Has, GoodString, Plain;
  }

  /** A value that is read as another one under a key that was not read before spoils the object. */
  lemma Spoils(o: Value, acc: seq<Member>, k: bytes, v: Value, under: nat -> byte)
    requires o.Object? && GoodSoFar(o, acc, under) && Has(o.members, k)
    requires !Plain(o.members[Find(o.members, k)].value, under)
    requires !Same(o.members[Find(o.members, k)].value, v)
    ensures Spoiled(o, acc + [Member(k, v)])
  {
    hide Same, Plain, GoodString;
    var ms := acc + [Member(k, v)];
    assert ms[|acc|].key == k;
    assert forall j | 0 <= j < |acc| :: ms[j] == acc[j] && acc[j].key != k;
    assert Find(ms, k) == |acc|;
  }

  lemma BadLeaf(m: Mode, v: Value, w: Sink, x: Sink, buf: bytes)
    requires Filled(m.under) && m.tabled && GoodTables(w, m.under) && Covered(v) && !Plain(v, m.under)
    requires !v.Array? && !v.Object? && PutValue(m, v, w) == Wrote(true, x) && Bounded(m.tabled, x) && x.out <= buf
    ensures Wrong(v, x, GetValue(buf, At(w)))
  {
    hide Filled, GoodString, GoodTables, PutString, GetString, GetDate, GetArray, GetObject, GetNumber, U29.Put, GetInt;
    hide Apart, Gap;
    match v
    case Integer(n) =>
      TagBack(w, 4, x, buf);
      IntBack(Emit(w, [4]), n, buf);
    case String(s) =>
      GrowString(m, s, Emit(w, [6]));
      TagBack(w, 6, x, buf);
      EmitGood(m, w, [6]);
      BadText(m, s, Emit(w, [6]), x, buf);
    case Date(s) =>
      GrowString(m, s, Emit(w, [8]));
      TagBack(w, 8, x, buf);
      DateReadsFixed(buf, At(Emit(w, [8])));
      EmitGood(m, w, [8]);
      if s == DATETIME { DateOpensGap(m, Emit(w, [8]), x, buf); }
  }

  lemma BadText(m: Mode, s: bytes, w: Sink, x: Sink, buf: bytes)
    requires Filled(m.under) && m.tabled && GoodTables(w, m.under) && !GoodString(s, m.under)
    requires x == PutString(m, s, w) && x.out <= buf
    ensures var r := GetString(buf, At(w)); r.Got? ==> r.value != s
  {
    hide Filled, GoodString, PutString, GetString;
    BadString(m, s, w, x, buf);
  }

  /** A new date text puts the parser one entry behind; one that is in the table is not read. */
  lemma DateOpensGap(m: Mode, w: Sink, x: Sink, buf: bytes)
    requires m.tabled && GoodTables(w, m.under) && x == PutString(m, DATETIME, w) && Bounded(true, x) && x.out <= buf
    ensures var r := GetDate(buf, At(w)); r.Got? ==> Gap(x, r.next)
  {
    hide GoodString, PutString, GetDate;
    GrowString(m, DATETIME, w);
    if DATETIME in w.strs {
      DateRef(m, w, At(w), x, buf);
    } else {
      DateInline(m, w, x, buf);
      assert forall i | 0 <= i < |w.defs| :: GoodDef(w.defs[i], m.under);
    }
  }

  /** The eight bytes of the text are taken for those of a number. */
  lemma DateInline(m: Mode, w: Sink, x: Sink, buf: bytes)
    requires (m.tabled ==> DATETIME !in w.strs) && x == PutString(m, DATETIME, w) && x.out <= buf
    ensures x.strs == w.strs + [DATETIME] && x.defs == w.defs
    ensures GetDate(buf, At(w)) == Got(DATETIME, Cursor(|x.out|, w.strs, w.defs))
  {
    var h := w.out + U29.Put(17);
    var c := StrCpy(DATETIME, m.under, |h|);
    assert x == Sink(h + c, w.strs + [DATETIME], w.defs);
    hide StrCpy, PutString, U29.Put, GetInt, GetNumber, Rep;
    assert h <= h + c;
    IntBack(w, 17, buf);
    assert Rep(17) == 17;
    NumberThere(buf, At(w).(pos := |h|));
  }

  lemma NumberThere(buf: bytes, r: Cursor)
    requires r.pos + 8 <= |buf|
    ensures GetNumber(buf, r).Got? && GetNumber(buf, r).next == r.(pos := r.pos + 8)
  {
  }

  /** The main step: outside `Plain`, but inside `Covered`, something goes wrong, and shows. */
  lemma {:induction false} BadValue(m: Mode, v: Value, w: Sink, x: Sink, buf: bytes)
    requires Filled(m.under) && m.tabled && GoodTables(w, m.under) && Covered(v) && !Plain(v, m.under)
    requires PutValue(m, v, w) == Wrote(true, x) && Bounded(m.tabled, x) && x.out <= buf
    ensures Wrong(v, x, GetValue(buf, At(w)))
    decreases v, 1, 0
  {
    hide Filled, GoodTables, Covered, Plain, Wrong, Same, PutArray, PutObject, PutString, U29.Put,
         GetArray, GetObject, GetInt, GetNumber, GetString, GetDate, Apart, Gap, Tame;
    if v.Array? {
      var w1 := Emit(w, [9]);
      GrowArray(m, v, w1);
      TagBack(w, 9, x, buf);
      EmitGood(m, w, [9]);
      BadArray(m, v, w1, x, buf);
    } else if v.Object? {
      var w1 := Emit(w, [10]);
      GrowObject(m, v, w1);
      TagBack(w, 10, x, buf);
      EmitGood(m, w, [10]);
      BadObject(m, v, w1, x, buf);
    } else {
      BadLeaf(m, v, w, x, buf);
    }
  }

  lemma EmitGood(m: Mode, w: Sink, e: bytes)
    requires GoodTables(w, m.under)
    ensures GoodTables(Emit(w, e), m.under)
  {
  }

  lemma {:induction false} BadArray(m: Mode, a: Value, w: Sink, x: Sink, buf: bytes)
    requires Filled(m.under) && m.tabled && GoodTables(w, m.under) && a.Array? && Covered(a) && !Plain(a, m.under)
    requires PutArray(m, a, w) == Wrote(true, x) && Bounded(m.tabled, x) && x.out <= buf
    ensures Wrong(a, x, GetArray(buf, At(w)))
    decreases a, 0, |a.dense| + |a.assoc| + 1
  {
    hide Filled, GoodTables, Covered, Plain, Same, PutString, PutAssoc, PutDense, U29.Put, GetDense, GetString, GetInt;
    hide Apart, Gap, Tame;
    var n := |a.dense|;
    TameArray(a);
    var w2 := Emit(w, U29.Put(2 * n + 1));
    ArrayParts(m, a, w, w2, x, buf);
    IntBack(w, 2 * n + 1, buf);
    if a.assoc == [] && n < 0x800_0000 {
      var w3 := Emit(w2, U29.Put(1));
      PutArrayIs(m, a, w, w2, w3);
      GrowDense(m, a, 0, w3);
      EmptyBack(w2, buf);
      EmitGood(m, w, U29.Put(2 * n + 1));
      EmitGood(m, w2, U29.Put(1));
      BadElement(a, m.under);
      BadDense(m, a, 0, [], w3, x, buf);
    } else {
      BadHeader(a, buf, At(w));
    }
  }

  lemma BadElement(a: Value, under: nat -> byte)
    requires a.Array? && !Plain(a, under) && a.assoc == [] && |a.dense| < 0x800_0000
    ensures exists j | 0 <= j < |a.dense| :: !Plain(a.dense[j], under)
  {
  }

  lemma {:induction false} BadDense(m: Mode, a: Value, i: nat, acc: seq<Value>, w: Sink, x: Sink, buf: bytes)
    requires Filled(m.under) && m.tabled && GoodTables(w, m.under) && a.Array? && Covered(a)
    requires |acc| == i <= |a.dense| && exists j | i <= j < |a.dense| :: !Plain(a.dense[j], m.under)
    requires a.assoc == [] && |a.dense| < 0x800_0000 && forall j | 0 <= j < i :: Tame(a.dense[j])
    requires PutDense(m, a, i, w) == Wrote(true, x) && Bounded(m.tabled, x) && x.out <= buf
    ensures Wrong(a, x, GetDense(buf, At(w), |a.dense| - i, [], acc))
    decreases a, 0, |a.dense| - i
  {
    hide Filled, GoodTables, Covered, Plain, Same, PutValue, GetValue, Apart, Gap, Tame;
    TameArray(a);
    var v := a.dense[i];
    var e := PutValue(m, v, w);
    GrowDense(m, a, i + 1, e.sink);
    ExtendsBuffer(e.sink, x, buf);
    CoveredElement(a, i);
    if Plain(v, m.under) {
      ValueBack(m, v, w, e, buf);
      GoodPutValue(m, v, w);
      PlainIsTame(v, m.under);
      BadDense(m, a, i + 1, acc + [Reread(v)], e.sink, x, buf);
    } else {
      BadValue(m, v, w, e.sink, buf);
      var r := GetValue(buf, At(w));
      if r.Got? {
        var all := GetDense(buf, r.next, |a.dense| - i - 1, [], acc + [r.value]);
        if all.Got? {
          if Apart(e.sink.strs, r.next.strs) {
            StaysApart(e.sink.strs, r.next.strs, x.strs, all.next.strs);
          } else if Same(v, r.value) {
            GapDense(m, a, i + 1, acc + [r.value], e.sink, r.next, x, buf);
          } else {
            assert all.value.dense[i] == (acc + [r.value])[i] == r.value;
            ElementDiffers(a, all.value, i);
          }
        }
      }
    }
  }

  lemma {:induction false} BadObject(m: Mode, o: Value, w: Sink, x: Sink, buf: bytes)
    requires Filled(m.under) && m.tabled && GoodTables(w, m.under) && o.Object? && Covered(o) && !Plain(o, m.under)
    requires PutObject(m, o, w) == Wrote(true, x) && Bounded(m.tabled, x) && x.out <= buf
    ensures Wrong(o, x, GetObject(buf, At(w)))
    decreases o, 0, |o.def.properties| + |o.members| + 3
  {
    hide Filled, GoodTables, GoodDef, Covered, Plain, Same, PutDef, PutSealed, PutDynamic, PutString, PutValue;
    hide GetObject, GetDef, Apart, Gap, Tame, PutMembers, Members;
    var t := PutDef(m, o.def, w);
    GrowRest(m, o, w, t, x);
    ExtendsBuffer(t, x, buf);
    if GoodDef(o.def, m.under) {
      GoodDefParts(o.def, m.under);
      DefBack(m, o.def, w, buf);
      GoodPutDef(m, o.def, w);
      PutObjectFrom(m, o, w, t);
      BadMembers(m, o, t, x, buf);
      ObjectFrom(buf, At(w), At(t), o.def);
    } else {
      BadDef(m, o.def, w, t, buf);
      OtherDef(o, buf, At(w));
    }
  }

  lemma GoodDefParts(def: ClassDef, under: nat -> byte)
    requires GoodDef(def, under)
    ensures !def.externalizable
    ensures forall i | 0 <= i < |def.properties| :: GoodString(def.properties[i], under)
  {
  }

  ghost predicate WrongMembers(o: Value, x: Sink, r: Read<seq<Member>>)
    requires o.Object?
  {
    r.Got? ==> !Same(o, Object(o.def, r.value)) || Apart(x.strs, r.next.strs) || (Tame(o) && Gap(x, r.next))
  }

  lemma {:induction false} BadMembers(m: Mode, o: Value, t: Sink, x: Sink, buf: bytes)
    requires Filled(m.under) && m.tabled && GoodTables(t, m.under) && o.Object? && Covered(o) && !Plain(o, m.under)
    requires GoodDef(o.def, m.under)
    requires PutMembers(m, o, t) == Wrote(true, x) && Bounded(m.tabled, x) && x.out <= buf
    ensures WrongMembers(o, x, Members(buf, At(t), o.def))
    decreases o, 0, |o.def.properties| + |o.members| + 2
  {
    hide Filled, GoodTables, GoodDef, Covered, Plain, Same, Apart, Gap, Tame, Spoiled, Missing, GoodSoFar, TameSoFar;
    hide PutSealed, PutDynamic, PutString, GetSealed, GetDynamic, KeysIn;
    hide PlainSealed, TameSealed, GoodMember, TameMember;
    var s := PutSealed(m, o, 0, t).sink;
    GrowMembers(m, o, t, s, x);
    ExtendsBuffer(s, x, buf);
    StartGood(o, m.under);
    SealedOutcome(m, o, 0, [], t, s, buf);
    var r := GetSealed(buf, At(t), o.def.properties, 0, []);
    var all := Members(buf, At(t), o.def);
    if all.Got? {
      if r.next == At(s) && GoodSoFar(o, r.value, m.under) {
        SealedTame(o, m.under);
        if o.def.dynamic { BadRest(m, o, s, r.value, x, buf); }
        else {
          KeyLost(o, r.value, m.under);
          SpoiledObject(o, r.value);
        }
      } else if Spoiled(o, r.value) {
        SpoiledStays(o, r.value, all.value);
        SpoiledObject(o, all.value);
      } else if Apart(s.strs, r.next.strs) {
        StaysApart(s.strs, r.next.strs, x.strs, all.next.strs);
      } else {
        GoodDefDeclarable(o.def, m.under);
        if o.def.dynamic { GapRest(m, o, s, r.value, r.next, x, buf); }
        else { GapSealedOnly(o, x, r.value, r.next); }
      }
    }
  }

  /** Behind the sealed members, all of them good. */
  lemma {:induction false} BadRest(m: Mode, o: Value, s: Sink, ms: seq<Member>, x: Sink, buf: bytes)
    requires Filled(m.under) && m.tabled && GoodTables(s, m.under) && o.Object? && Covered(o) && !Plain(o, m.under)
    requires GoodDef(o.def, m.under) && o.def.dynamic && GoodSoFar(o, ms, m.under)
    requires forall j | 0 <= j < |o.def.properties| :: TameSealed(o, j)
    requires PutDynamic(m, o, 0, s).ok && x == PutString(m, [], PutDynamic(m, o, 0, s).sink)
    requires Bounded(m.tabled, x) && x.out <= buf
    ensures WrongMembers(o, x, GetDynamic(buf, At(s), ms))
    decreases o, 0, |o.def.properties| + |o.members| + 1
  {
    hide Filled, GoodTables, GoodDef, Covered, Plain, Same, Apart, Gap, Tame, Spoiled, Missing, GoodSoFar;
    hide PutDynamic, PutString, GetDynamic, TameSealed, GoodMember, TameMember, Bounded;
    SealedHas(o);
    BadDynamicMember(o, m.under);
    DynamicOutcome(m, o, 0, ms, s, PutDynamic(m, o, 0, s).sink, x, buf);
    var r := GetDynamic(buf, At(s), ms);
    if r.Got? {
      if Spoiled(o, r.value) || Missing(o, r.value) {
        SpoiledObject(o, r.value);
      } else if !Apart(x.strs, r.next.strs) {
        GoodDefDeclarable(o.def, m.under);
        TameObject(o);
      }
    }
  }

  lemma SealedTame(o: Value, under: nat -> byte)
    requires o.Object? && forall j | 0 <= j < |o.def.properties| :: PlainSealed(o, j, under)
    ensures forall j | 0 <= j < |o.def.properties| :: TameSealed(o, j)
  {
    hide Tame, Plain, Find;
    forall j | 0 <= j < |o.def.properties| ensures TameSealed(o, j) {
      assert PlainSealed(o, j, under);
      PlainIsTame(o.members[Find(o.members, o.def.properties[j])].value, under);
    }
  }

  lemma SealedHas(o: Value)
    requires o.Object? && forall j | 0 <= j < |o.def.properties| :: TameSealed(o, j)
    ensures forall j | 0 <= j < |o.def.properties| :: Has(o.members, o.def.properties[j])
  {
    hide Tame, Find;
    forall j | 0 <= j < |o.def.properties| ensures Has(o.members, o.def.properties[j]) { assert TameSealed(o, j); }
  }

  lemma GoodDefDeclarable(def: ClassDef, under: nat -> byte)
    requires GoodDef(def, under)
    ensures Declarable(def)
  {
  }

  lemma StartGood(o: Value, under: nat -> byte)
    requires o.Object?
    ensures GoodSoFar(o, [], under) && KeysIn([], o.def.properties)
  {
  }

  /** With all sealed members intact, a dynamic object outside `Plain` has a member that is not. */
  lemma BadDynamicMember(o: Value, under: nat -> byte)
    requires o.Object? && o.def.dynamic && !Plain(o, under) && GoodDef(o.def, under) && Covered(o)
    requires forall i | 0 <= i < |o.def.properties| :: Has(o.members, o.def.properties[i])
    ensures exists j | 0 <= j < |o.members| :: !GoodMember(o, j, under)
  {
    hide GoodDef, GoodString;
    if forall j | 0 <= j < |o.members| :: GoodMember(o, j, under) {
      forall k | Has(o.members, k)
        ensures Plain(o.members[Find(o.members, k)].value, under)
      {
        assert GoodMember(o, Find(o.members, k), under);
      }
      assert forall j | 0 <= j < |o.members| :: GoodMember(o, j, under) && o.members[j].key != [];
    }
  }

  ghost predicate GoodMember(o: Value, j: nat, under: nat -> byte)
    requires o.Object? && j < |o.members|
  {
    var k := o.members[j].key;
    GoodString(k, under) && Has(o.members, k) && Plain(o.members[Find(o.members, k)].value, under)
  }

  /** With all sealed members intact, an object of a class that is not dynamic leaves `Plain` only by a
      member that its class does not name; that member is never written. */
  lemma KeyLost(o: Value, ms: seq<Member>, under: nat -> byte)
    requires o.Object? && !o.def.dynamic && !Plain(o, under) && GoodDef(o.def, under)
    requires forall i | 0 <= i < |o.def.properties| :: PlainSealed(o, i, under)
    requires KeysIn(ms, o.def.properties)
    ensures Missing(o, ms)
  {
    hide GoodDef;
    if forall j | 0 <= j < |o.members| :: o.members[j].key in o.def.properties {
      forall k | Has(o.members, k)
        ensures Plain(o.members[Find(o.members, k)].value, under)
      {
        var i :| 0 <= i < |o.def.properties| && o.def.properties[i] == o.members[Find(o.members, k)].key;
        assert PlainSealed(o, i, under);
      }
      forall i | 0 <= i < |o.def.properties| ensures Has(o.members, o.def.properties[i]) {
        assert PlainSealed(o, i, under);
      }
      assert false;
    } else {
      var j :| 0 <= j < |o.members| && o.members[j].key !in o.def.properties;
      var k := o.members[j].key;
      HasKey(o.members, j);
      assert !Has(ms, k);
    }
  }

  lemma GoodIsTame(o: Value, acc: seq<Member>, under: nat -> byte)
    requires o.Object? && GoodSoFar(o, acc, under)
    ensures TameSoFar(o, acc)
  {
    hide Find, GoodString, Plain, Tame;
    forall j | 0 <= j < |acc|
      ensures Has(o.members, acc[j].key) && Tame(o.members[Find(o.members, acc[j].key)].value)
    {
      PlainIsTame(o.members[Find(o.members, acc[j].key)].value, under);
    }
  }

  ghost predicate PlainSealed(o: Value, j: nat, under: nat -> byte)
    requires o.Object? && j < |o.def.properties|
  {
    var k := o.def.properties[j];
    Has(o.members, k) && Plain(o.members[Find(o.members, k)].value, under)
  }

  /** The sealed members from the i-th on: all good and in step, or all tame and one entry behind, or it shows. */
  ghost predicate Sealed(o: Value, i: nat, x: Sink, r: Read<seq<Member>>, under: nat -> byte)
    requires o.Object? && i <= |o.def.properties| && r.Got?
  {
    if r.next == At(x) && GoodSoFar(o, r.value, under) then
      && GoodTables(x, under)
      && KeysIn(r.value, o.def.properties)
      && forall j | i <= j < |o.def.properties| :: PlainSealed(o, j, under)
    else
      || Spoiled(o, r.value)
      || Apart(x.strs, r.next.strs)
      || (&& Gap(x, r.next) && TameSoFar(o, r.value) && KeysIn(r.value, o.def.properties)
          && forall j | i <= j < |o.def.properties| :: TameSealed(o, j))
  }

  lemma {:induction false} SealedOutcome(m: Mode, o: Value, i: nat, acc: seq<Member>, w: Sink, x: Sink, buf: bytes)
    requires Filled(m.under) && m.tabled && GoodTables(w, m.under) && o.Object? && Covered(o)
    requires GoodDef(o.def, m.under) && i <= |o.def.properties| && GoodSoFar(o, acc, m.under)
    requires KeysIn(acc, o.def.properties)
    requires PutSealed(m, o, i, w) == Wrote(true, x) && Bounded(m.tabled, x) && x.out <= buf
    ensures var r := GetSealed(buf, At(w), o.def.properties, i, acc); r.Got? ==> Sealed(o, i, x, r, m.under)
    decreases o, 0, |o.def.properties| - i
  {
    hide Filled, GoodTables, GoodDef, Covered, Plain, Same, Apart, Gap, Tame, Spoiled, GoodSoFar, PutValue, GetValue;
    hide Find, Has, TameSoFar;
    if i < |o.def.properties| {
      var k := o.def.properties[i];
      SealedThere(m, o, i, w);
      var v := o.members[Find(o.members, k)].value;
      var e := PutValue(m, v, w);
      GrowSealed(m, o, i + 1, e.sink);
      ExtendsBuffer(e.sink, x, buf);
      CoveredParts(o);
      GoodDefParts(o.def, m.under);
      var r := GetValue(buf, At(w));
      if Plain(v, m.under) {
        ValueBack(m, v, w, e, buf);
        GoodPutValue(m, v, w);
        GoodStep(o, acc, k, Reread(v), m.under);
        PlainIsTame(v, m.under);
        SealedOutcome(m, o, i + 1, acc + [Member(k, Reread(v))], e.sink, x, buf);
      } else {
        BadValue(m, v, w, e.sink, buf);
        if r.Got? { SealedWrong(m, o, i, acc, r, e.sink, x, buf); }
      }
    }
  }

  /** The i-th sealed member was read wrong. */
  lemma {:induction false} SealedWrong(m: Mode, o: Value, i: nat, acc: seq<Member>, r: Read<Value>, e: Sink, x: Sink,
      buf: bytes)
    requires m.tabled && o.Object? && Covered(o) && i < |o.def.properties| && Has(o.members, o.def.properties[i])
    requires GoodSoFar(o, acc, m.under) && KeysIn(acc, o.def.properties)
    requires !Plain(o.members[Find(o.members, o.def.properties[i])].value, m.under) && Extends(e, x)
    requires r.Got? && Wrong(o.members[Find(o.members, o.def.properties[i])].value, e, r)
    requires PutSealed(m, o, i + 1, e) == Wrote(true, x) && Bounded(m.tabled, x) && x.out <= buf
    ensures var all := GetSealed(buf, r.next, o.def.properties, i + 1, acc + [Member(o.def.properties[i], r.value)]);
      all.Got? ==> Sealed(o, i, x, all, m.under)
    decreases o, 0, |o.def.properties| - i - 1
  {
    hide Covered, Plain, Same, Apart, Gap, Tame, Spoiled, GoodSoFar, PutSealed, GetSealed, Find, Has, TameSoFar, Wrong;
    var k := o.def.properties[i];
    var ms := acc + [Member(k, r.value)];
    var all := GetSealed(buf, r.next, o.def.properties, i + 1, ms);
    if all.Got? {
      GoneWrong(o, acc, k, r, e, all, x, m.under);
      if !Spoiled(o, all.value) && !Apart(x.strs, all.next.strs) {
        GoodIsTame(o, acc, m.under);
        TameStep(o, acc, k, r.value);
        GapSealed(m, o, i + 1, ms, e, r.next, x, buf);
      }
    }
  }

  /** One member read wrong: whatever is read behind it, the object is spoiled or the tables differ for good, unless
      the parser is one entry behind. */
  lemma GoneWrong(o: Value, acc: seq<Member>, k: bytes, r: Read<Value>, e: Sink, all: Read<seq<Member>>, x: Sink,
      under: nat -> byte)
    requires o.Object? && GoodSoFar(o, acc, under) && Has(o.members, k)
    requires !Plain(o.members[Find(o.members, k)].value, under)
    requires r.Got? && Wrong(o.members[Find(o.members, k)].value, e, r)
    requires all.Got? && acc + [Member(k, r.value)] <= all.value && r.next.strs <= all.next.strs && e.strs <= x.strs
    ensures || Spoiled(o, all.value)
            || Apart(x.strs, all.next.strs)
            || (Tame(o.members[Find(o.members, k)].value) && Gap(e, r.next))
    ensures !GoodSoFar(o, all.value, under)
  {
    hide Plain, Same, Apart, Gap, Tame, Spoiled, Find, GoodString;
    assert all.value[|acc|] == Member(k, r.value);
    if Apart(e.strs, r.next.strs) {
      StaysApart(e.strs, r.next.strs, x.strs, all.next.strs);
    } else if !Same(o.members[Find(o.members, k)].value, r.value) {
      hide GoodSoFar;
      Spoils(o, acc, k, r.value, under);
      SpoiledStays(o, acc + [Member(k, r.value)], all.value);
    }
  }

  /** The members by name: it shows, or all are tame and the parser is one entry behind. */
  ghost predicate Dynamic(o: Value, y: Sink, r: Read<seq<Member>>)
    requires o.Object? && r.Got?
  {
    || Spoiled(o, r.value)
    || Missing(o, r.value)
    || Apart(y.strs, r.next.strs)
    || (Gap(y, r.next) && forall j | 0 <= j < |o.members| :: TameMember(o, j))
  }

  lemma {:induction false} DynamicOutcome(m: Mode, o: Value, i: nat, acc: seq<Member>, w: Sink, x: Sink, y: Sink,
      buf: bytes)
    requires Filled(m.under) && m.tabled && GoodTables(w, m.under) && o.Object? && Covered(o) && o.def.dynamic
    requires i <= |o.members| && GoodSoFar(o, acc, m.under)
    requires exists j | i <= j < |o.members| :: !GoodMember(o, j, m.under)
    requires PutDynamic(m, o, i, w) == Wrote(true, x)
    requires y == PutString(m, [], x) && Bounded(m.tabled, y) && y.out <= buf
    requires forall j | 0 <= j < i :: TameMember(o, j)
    ensures var r := GetDynamic(buf, At(w), acc); r.Got? ==> Dynamic(o, y, r)
    decreases o, 0, |o.members| - i
  {
    hide Filled, GoodTables, GoodString, Covered, Plain, Same, Apart, Gap, Tame, Spoiled, Missing, GoodSoFar, PutValue;
    hide Find, Has, PutString, GetString, GetValue;
    var k := o.members[i].key;
    HasKey(o.members, i);
    var v := o.members[Find(o.members, k)].value;
    var u := PutString(m, k, w);
    var e := PutValue(m, v, u);
    GrowString(m, [], x);
    GrowDynamic(m, o, i + 1, e.sink);
    GrowValue(m, v, u);
    ExtendsBuffer(x, y, buf);
    ExtendsBuffer(e.sink, x, buf);
    ExtendsBuffer(u, e.sink, buf);
    CoveredParts(o);
    if !GoodString(k, m.under) {
      KeyWrong(m, o, k, acc, w, u, buf);
      var r := GetString(buf, At(w));
      var all := GetDynamic(buf, At(w), acc);
      if all.Got? && r.value != [] { StaysApart(u.strs, r.next.strs, y.strs, all.next.strs); }
    } else {
      StringBack(m, k, w, buf);
      GoodPutString(m, k, w);
      if Plain(v, m.under) {
        ValueBack(m, v, u, e, buf);
        GoodPutValue(m, v, u);
        GoodStep(o, acc, k, Reread(v), m.under);
        assert GoodMember(o, i, m.under);
        PlainIsTame(v, m.under);
        DynamicOutcome(m, o, i + 1, acc + [Member(k, Reread(v))], e.sink, x, y, buf);
      } else {
        BadValue(m, v, u, e.sink, buf);
        var r := GetValue(buf, At(u));
        if r.Got? { DynamicWrong(m, o, i, acc, r, e.sink, x, y, buf); }
      }
    }
  }

  /** The i-th member was read wrong. */
  lemma {:induction false} DynamicWrong(m: Mode, o: Value, i: nat, acc: seq<Member>, r: Read<Value>, e: Sink, x: Sink,
      y: Sink, buf: bytes)
    requires m.tabled && o.Object? && Covered(o) && o.def.dynamic && i < |o.members|
    requires GoodSoFar(o, acc, m.under) && Has(o.members, o.members[i].key)
    requires !Plain(o.members[Find(o.members, o.members[i].key)].value, m.under) && Extends(e, y)
    requires r.Got? && Wrong(o.members[Find(o.members, o.members[i].key)].value, e, r)
    requires PutDynamic(m, o, i + 1, e) == Wrote(true, x)
    requires y == PutString(m, [], x) && Bounded(m.tabled, y) && y.out <= buf
    requires forall j | 0 <= j < i :: TameMember(o, j)
    ensures var all := GetDynamic(buf, r.next, acc + [Member(o.members[i].key, r.value)]);
      all.Got? ==> Dynamic(o, y, all)
    decreases o, 0, |o.members| - i - 1
  {
    hide Covered, Plain, Same, Apart, Gap, Tame, Spoiled, Missing, GoodSoFar, PutDynamic, GetDynamic, Find, Has, Wrong;
    hide PutString, TameSoFar;
    var k := o.members[i].key;
    var ms := acc + [Member(k, r.value)];
    var all := GetDynamic(buf, r.next, ms);
    if all.Got? {
      GoneWrong(o, acc, k, r, e, all, y, m.under);
      if !Spoiled(o, all.value) && !Apart(y.strs, all.next.strs) {
        GoodIsTame(o, acc, m.under);
        TameStep(o, acc, k, r.value);
        assert TameMember(o, i);
        GapDynamic(m, o, i + 1, ms, e, r.next, x, y, buf);
      }
    }
  }

  lemma KeyWrong(m: Mode, o: Value, k: bytes, acc: seq<Member>, w: Sink, u: Sink, buf: bytes)
    requires Filled(m.under) && m.tabled && GoodTables(w, m.under) && o.Object? && GoodSoFar(o, acc, m.under)
    requires Has(o.members, k) && !GoodString(k, m.under) && u == PutString(m, k, w) && u.out <= buf
    ensures Missing(o, acc)
    ensures var r := GetString(buf, At(w)); r.Got? && r.value != [] ==> Apart(u.strs, r.next.strs)
  {
    hide Filled, GoodString, Plain, PutString, GetString, Find;
    BadString(m, k, w, u, buf);
    var r := GetString(buf, At(w));
    if r.Got? && r.value != [] {
      var i := |w.strs|;
      assert u.strs[i] == k && r.next.strs[i] == r.value;
    }
    assert !Has(acc, k);
  }
}
