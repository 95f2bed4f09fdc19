/** What of a tree is seen by somebody who looks at what was read: a member that differs, one that is missing, an array
    of another length. Once seen it stays, whatever is read behind it. */
module Amf3Visible {
  import opened U29
  import opened Amf3Value
  import opened Amf3Writer
  import opened Amf3Parser
  import opened Amf3RoundTrip
  import opened Amf3Same
  import opened Amf3Tables
  import opened Amf3Damage

  /** Not covered are dynamic members with an empty name, behind which the parser continues in the middle of the
      object. */
  ghost predicate Covered(v: Value)
    decreases v
  {
    match v
    case Array(a, d) => forall i | 0 <= i < |d| :: Covered(d[i])
    case Object(def, ms) =>
      forall j | 0 <= j < |ms| :: (def.dynamic ==> ms[j].key != []) && Covered(ms[j].value)
    case _ => true
  }

  /** Some key is answered by both, differently. */
  ghost predicate Spoiled(o: Value, ms: seq<Member>)
    requires o.Object?
  {
    exists k :: Has(o.members, k) && Has(ms, k) && !Same(o.members[Find(o.members, k)].value, ms[Find(ms, k)].value)
  }

  /** Some key of the original is not answered. */
  ghost predicate Missing(o: Value, ms: seq<Member>)
    requires o.Object?
  {
    exists k :: Has(o.members, k) && !Has(ms, k)
  }

  lemma FindPrefix(ms: seq<Member>, all: seq<Member>, k: bytes)
    requires Has(ms, k) && ms <= all
    ensures Has(all, k) && Find(all, k) == Find(ms, k)
  {
    assert all[Find(ms, k)] == ms[Find(ms, k)];
    assert forall j | 0 <= j < Find(ms, k) :: all[j] == ms[j];
  }

  lemma SpoiledStays(o: Value, ms: seq<Member>, all: seq<Member>)
    requires o.Object? && Spoiled(o, ms) && ms <= all
    ensures Spoiled(o, all)
  {
    hide Same, Find;
    var k :| Has(o.members, k) && Has(ms, k) && !Same(o.members[Find(o.members, k)].value, ms[Find(ms, k)].value);
    FindPrefix(ms, all, k);
  }

  lemma SpoiledObject(o: Value, ms: seq<Member>)
    requires o.Object? && (Spoiled(o, ms) || Missing(o, ms))
    ensures !Same(o, Object(o.def, ms))
  {
    hide Find;
  }

  lemma DateReadsFixed(buf: bytes, r: Cursor)
    ensures GetDate(buf, r).Got? ==> GetDate(buf, r).value == DATETIME
  {
  }

  lemma ArrayParts(m: Mode, a: Value, w: Sink, w2: Sink, x: Sink, buf: bytes)
    requires a.Array? && PutArray(m, a, w) == Wrote(true, x) && x.out <= buf
    requires w2 == Emit(w, U29.Put(2 * |a.dense| + 1))
    ensures w2.out <= buf
  {
    hide PutAssoc, PutDense, PutString, U29.Put;
    var d := PutAssoc(m, a, 0, w2);
    GrowAssoc(m, a, 0, w2);
    GrowString(m, [], d.sink);
    GrowDense(m, a, 0, PutString(m, [], d.sink));
  }

  /** What `GetArray` does without named entries. */
  lemma ArrayFrom(buf: bytes, r: Cursor, q: Cursor, q3: Cursor, n: nat)
    requires GetInt(buf, r) == Got(2 * n + 1, q) && GetString(buf, q) == Got([], q3)
    ensures GetArray(buf, r) == GetDense(buf, q3, n, [], [])
  {
    hide GetInt, GetString, GetDense, GetValue;
  }

  /** The element counts cannot match: of associative entries at most one is read, and it is counted again. */
  lemma BadHeader(a: Value, buf: bytes, r: Cursor)
    requires a.Array? && (a.assoc != [] || |a.dense| >= 0x800_0000)
    requires GetInt(buf, r).Got? && GetInt(buf, r).value == Rep(2 * |a.dense| + 1)
    ensures GetArray(buf, r).Got? ==> !Same(a, GetArray(buf, r).value)
  {
    hide GetArray, GetInt, Same, Rep;
    if |a.dense| >= 0x800_0000 { LongLength(|a.dense|); }
    else { assert Rep(2 * |a.dense| + 1) == 2 * |a.dense| + 1; }
    var x := GetArray(buf, r);
    if x.Got? {
      ArrayCounts(buf, r);
      CountsDiffer(a, x.value, GetInt(buf, r).value / 2);
    }
  }

  lemma ArrayCounts(buf: bytes, r: Cursor)
    requires GetArray(buf, r).Got?
    ensures GetInt(buf, r).Got?
    ensures var v, n := GetArray(buf, r).value, GetInt(buf, r).value / 2;
      |v.assoc| <= 1 && |v.dense| == |v.assoc| + if n > 0 then n else 0
  {
    hide GetDense, GetString, GetValue, GetInt;
  }

  lemma CountsDiffer(a: Value, b: Value, n: int)
    requires a.Array? && b.Array? && (a.assoc != [] || |a.dense| >= 0x800_0000)
    requires (n - |a.dense|) % 0x1000_0000 == 0 && (|a.dense| >= 0x800_0000 <==> n != |a.dense|)
    requires |b.assoc| <= 1 && |b.dense| == |b.assoc| + if n > 0 then n else 0
    ensures !Same(a, b)
  {
  }

  lemma CoveredElement(a: Value, i: nat)
    requires a.Array? && Covered(a) && i < |a.dense|
    ensures Covered(a.dense[i])
  {
  }

  lemma ElementDiffers(a: Value, b: Value, i: nat)
    requires a.Array? && b.Array? && i < |a.dense| && i < |b.dense| && !Same(a.dense[i], b.dense[i])
    ensures !Same(a, b)
  {
  }

  lemma CoveredParts(o: Value)
    requires o.Object? && Covered(o)
    ensures forall k | Has(o.members, k) :: Covered(o.members[Find(o.members, k)].value)
    ensures o.def.dynamic ==> forall j | 0 <= j < |o.members| :: o.members[j].key != []
  {
  }

  lemma GrowRest(m: Mode, o: Value, w: Sink, t: Sink, x: Sink)
    requires o.Object? && t == PutDef(m, o.def, w) && PutObject(m, o, w) == Wrote(true, x)
    ensures Extends(t, x)
  {
    hide PutDef, PutSealed, PutDynamic, PutValue, PutString;
    if o.def.externalizable {
      GrowValue(m, o.members[Find(o.members, INNER)].value, t);
    } else {
      var s := PutSealed(m, o, 0, t);
      GrowSealed(m, o, 0, t);
      if o.def.dynamic {
        GrowDynamic(m, o, 0, s.sink);
        GrowString(m, [], PutDynamic(m, o, 0, s.sink).sink);
      }
    }
  }

  lemma OtherDef(o: Value, buf: bytes, r: Cursor)
    requires o.Object? && (GetDef(buf, r).Got? ==> GetDef(buf, r).value != o.def)
    ensures GetObject(buf, r).Got? ==> !Same(o, GetObject(buf, r).value)
  {
    hide GetDef, GetSealed, GetDynamic, GetValue;
  }

  /** What `GetObject` does behind the class definition. */
  function Members(buf: bytes, q: Cursor, def: ClassDef): Read<seq<Member>>
  {
    match GetSealed(buf, q, def.properties, 0, [])
    case Fail => Fail
    case Got(ms, q2) => if def.dynamic then GetDynamic(buf, q2, ms) else Got(ms, q2)
  }

  lemma ObjectFrom(buf: bytes, r: Cursor, q: Cursor, def: ClassDef)
    requires GetDef(buf, r) == Got(def, q) && !def.externalizable
    ensures var x := Members(buf, q, def);
      GetObject(buf, r) == match x case Fail => Fail case Got(ms, q3) => Got(Object(def, ms), q3)
  {
    hide GetDef, GetSealed, GetDynamic, GetValue;
  }

  /** What `PutObject` does behind the class definition. */
  function PutMembers(m: Mode, o: Value, t: Sink): Wrote
    requires o.Object?
  {
    var s := PutSealed(m, o, 0, t);
    if !s.ok || !o.def.dynamic then s
    else
      var d := PutDynamic(m, o, 0, s.sink);
      if !d.ok then d else Wrote(true, PutString(m, [], d.sink))
  }

  lemma PutObjectFrom(m: Mode, o: Value, w: Sink, t: Sink)
    requires o.Object? && !o.def.externalizable && t == PutDef(m, o.def, w)
    ensures PutObject(m, o, w) == PutMembers(m, o, t)
  {
    hide PutDef, PutSealed, PutDynamic, PutString, PutValue;
  }

  lemma GrowMembers(m: Mode, o: Value, t: Sink, s: Sink, x: Sink)
    requires o.Object? && s == PutSealed(m, o, 0, t).sink && PutMembers(m, o, t) == Wrote(true, x)
    ensures Extends(s, x) && PutSealed(m, o, 0, t).ok
    ensures o.def.dynamic ==> var d := PutDynamic(m, o, 0, s); d.ok && x == PutString(m, [], d.sink)
  {
    hide PutSealed, PutDynamic, PutString;
    if o.def.dynamic {
      GrowDynamic(m, o, 0, s);
      GrowString(m, [], PutDynamic(m, o, 0, s).sink);
    }
  }

  lemma SealedThere(m: Mode, o: Value, i: nat, w: Sink)
    requires o.Object? && i < |o.def.properties| && PutSealed(m, o, i, w).ok
    ensures var k := o.def.properties[i];
      Has(o.members, k) &&
      var e := PutValue(m, o.members[Find(o.members, k)].value, w);
      e.ok && PutSealed(m, o, i, w) == PutSealed(m, o, i + 1, e.sink)
  {
    hide PutValue;
  }

  lemma {:induction false} SealedOutcomeHas(m: Mode, o: Value, i: nat, w: Sink)
    requires o.Object? && i <= |o.def.properties| && PutSealed(m, o, i, w).ok
    ensures forall j | i <= j < |o.def.properties| :: Has(o.members, o.def.properties[j])
    decreases |o.def.properties| - i
  {
    hide PutValue, Has, Find;
    if i < |o.def.properties| {
      SealedThere(m, o, i, w);
      SealedOutcomeHas(m, o, i + 1, PutValue(m, o.members[Find(o.members, o.def.properties[i])].value, w).sink);
    }
  }
}
