/** What becomes of strings, names and class definitions that do not survive being written: they are read as
    other ones, and the parser's table then differs from the writer's for good. */
module Amf3Damage {
  import opened U29
  import opened Amf3Value
  import opened Amf3Writer
  import opened Amf3Parser
  import opened Amf3RoundTrip
  import opened Amf3Tables

  /** The buffer was filled with one byte before writing. */
  ghost predicate Filled(under: nat -> byte)
  {
    forall p: nat, q: nat :: under(p) == under(q)
  }

  /** Two tables that disagree will not agree again, as they only grow. */
  ghost predicate Diverged(a: seq<bytes>, b: seq<bytes>)
  {
    exists i :: 0 <= i < |a| && i < |b| && a[i] != b[i]
  }

  lemma StaysDiverged(a: seq<bytes>, b: seq<bytes>, a2: seq<bytes>, b2: seq<bytes>)
    requires Diverged(a, b) && a <= a2 && b <= b2
    ensures Diverged(a2, b2)
  {
    var i :| 0 <= i < |a| && i < |b| && a[i] != b[i];
    assert a2[i] != b2[i];
  }

  ghost predicate GoodStrings(strs: seq<bytes>, under: nat -> byte)
  {
    forall s | s in strs :: GoodString(s, under)
  }

  lemma StrCpyFilled(s: bytes, under: nat -> byte, p: nat, q: nat)
    requires Filled(under)
    ensures StrCpy(s, under, p) == StrCpy(s, under, q)
  {
  }

  /** Folding keeps the lowest bit and misses every value from 2^28 up. */
  lemma LongLength(n: nat)
    requires n >= 0x800_0000
    ensures Rep(2 * n + 1) % 2 == 1 && Rep(2 * n + 1) / 2 != n
    ensures (Rep(2 * n + 1) / 2 - n) % 0x1000_0000 == 0
  {
    var r := Rep(2 * n + 1);
    var k := (2 * n + 1 - r) / 0x2000_0000;
    assert r == 2 * n + 1 - k * 0x2000_0000;
    var h := n - k * 0x1000_0000;
    assert r == 2 * h + 1;
    assert r / 2 == h && r % 2 == 1;
  }

  /** A string that does not survive is read as another one, which the parser's table then holds where the
      writer's holds the original. */
  lemma BadString(m: Mode, s: bytes, w: Sink, x: Sink, buf: bytes)
    requires Filled(m.under) && m.tabled && GoodStrings(w.strs, m.under) && !GoodString(s, m.under)
    requires x == PutString(m, s, w) && x.out <= buf
    ensures x.strs == w.strs + [s]
    ensures var r := GetString(buf, At(w)); r.Got? ==>
              r.value != s && (r.value == [] || r.next.strs == w.strs + [r.value])
  {
    EmptyGood(m.under);
    var h := w.out + U29.Put(2 * |s| + 1);
    var c := StrCpy(s, m.under, |h|);
    assert x == Sink(h + c, w.strs + [s], w.defs);
    if |s| < 0x800_0000 {
      assert c != s by {
        var p: nat :| StrCpy(s, m.under, p) != s;
        StrCpyFilled(s, m.under, p, |h|);
      }
      hide StrCpy, U29.Put, GetString;
      InlineBack(w, |s|, c, buf);
    } else {
      assert h <= h + c <= buf;
      LongString(w, s, h, buf);
    }
  }

  lemma LongString(w: Sink, s: bytes, h: bytes, buf: bytes)
    requires |s| >= 0x800_0000 && h == w.out + U29.Put(2 * |s| + 1) && h <= buf
    ensures var r := GetString(buf, At(w)); r.Got? ==>
              r.value != s && (r.value == [] || r.next.strs == w.strs + [r.value])
  {
    hide U29.Put;
    IntBack(w, 2 * |s| + 1, buf);
    LongLength(|s|);
  }

  lemma {:induction false} BadNames(m: Mode, names: seq<bytes>, i: nat, acc: seq<bytes>, w: Sink, x: Sink, buf: bytes)
    requires Filled(m.under) && m.tabled && GoodStrings(w.strs, m.under)
    requires i <= |names| && exists j | i <= j < |names| :: !GoodString(names[j], m.under)
    requires x == PutNames(m, names, i, w) && Bounded(m.tabled, x) && x.out <= buf
    ensures var r := GetNames(buf, At(w), |names| - i, acc); r.Got? ==> r.value != acc + names[i..]
    decreases |names| - i
  {
    hide GoodString, PutString, GetString, Filled;
    var u := PutString(m, names[i], w);
    GrowNames(m, names, i + 1, u);
    ExtendsBuffer(u, x, buf);
    if GoodString(names[i], m.under) {
      StringBack(m, names[i], w, buf);
      GoodStringsStay(m, names[i], w);
      BadNames(m, names, i + 1, acc + [names[i]], u, x, buf);
      assert acc + [names[i]] + names[i + 1..] == acc + names[i..];
    } else {
      BadString(m, names[i], w, u, buf);
      var r := GetString(buf, At(w));
      if r.Got? {
        var all := GetNames(buf, r.next, |names| - i - 1, acc + [r.value]);
        if all.Got? {
          assert all.value[|acc|] == r.value;
          assert (acc + names[i..])[|acc|] == names[i];
        }
      }
    }
  }

  lemma GoodStringsStay(m: Mode, s: bytes, w: Sink)
    requires GoodStrings(w.strs, m.under) && GoodString(s, m.under)
    ensures GoodStrings(PutString(m, s, w).strs, m.under)
  {
    hide GoodString;
  }

  /** Whether a definition can be told from the wire, its strings aside. */
  predicate Declarable(def: ClassDef)
  {
    !def.externalizable && |def.properties| < 0x100_0000
  }

  /** What is read from the flags of an inline definition. */
  datatype Flags = Flags(externalizable: bool, dynamic: bool, count: int)

  function FlagsOf(f: int): Flags
  {
    Flags(f / 4 % 2 == 1, f / 8 % 2 == 1, f / 16)
  }

  lemma FlagsBack(def: ClassDef, f: int)
    requires f == Rep(Traits(def))
    ensures f % 2 == 1 && f / 2 % 2 == 1 && FlagsOf(f).externalizable == def.externalizable
    ensures Declarable(def) ==> FlagsOf(f) == Flags(false, def.dynamic, |def.properties|)
    ensures !Declarable(def) && !def.externalizable ==>
              |def.properties| != if FlagsOf(f).count > 0 then FlagsOf(f).count else 0
  {
    TraitLow(def, f);
    if Declarable(def) { TraitBits(def); }
    hide Rep, Traits;
  }

  /** An inline definition, piece by piece. */
  lemma DefParts(buf: bytes, r: Cursor, q: Cursor, f: int, x: Flags)
    requires GetInt(buf, r) == Got(f, q) && f % 2 == 1 && f / 2 % 2 == 1 && GetDef(buf, r).Got? && x == FlagsOf(f)
    ensures GetString(buf, q).Got? && !x.externalizable
    ensures var n, g := GetString(buf, q), GetDef(buf, r);
      var p := GetNames(buf, n.next, x.count, []);
      && p.Got?
      && g.value == ClassDef(n.value, x.dynamic, false, p.value)
      && g.next == p.next.(defs := p.next.defs + [g.value])
  {
    hide GetInt, GetString, GetNames;
  }

  /** A definition that does not survive is refused or read as another one. */
  lemma BadDef(m: Mode, def: ClassDef, w: Sink, x: Sink, buf: bytes)
    requires Filled(m.under) && m.tabled && GoodTables(w, m.under) && !GoodDef(def, m.under)
    requires x == PutDef(m, def, w) && Bounded(m.tabled, x) && x.out <= buf
    ensures var r := GetDef(buf, At(w)); r.Got? ==> r.value != def
  {
    var t := Emit(w, U29.Put(Traits(def)));
    var u := PutString(m, def.name, t);
    var y := PutNames(m, def.properties, 0, u);
    hide Filled, GoodString, PutString, PutNames, Traits, U29.Put, GetDef, FlagsOf, Declarable;
    assert def !in w.defs;
    StringIgnoresDefs(m, def.name, t, w.defs + [def]);
    NamesIgnoreDefs(m, def.properties, 0, u, w.defs + [def]);
    GrowNames(m, def.properties, 0, u);
    GrowString(m, def.name, t);
    assert x == y.(defs := w.defs + [def]);
    ExtendsBuffer(u, y, buf);
    ExtendsBuffer(t, u, buf);
    IntBack(w, Traits(def), buf);
    FlagsBack(def, Rep(Traits(def)));
    if GetDef(buf, At(w)).Got? {
      DefParts(buf, At(w), At(t), Rep(Traits(def)), FlagsOf(Rep(Traits(def))));
      if Declarable(def) { BadDefNames(m, def, t, u, y, buf); }
    }
  }

  lemma BadPart(def: ClassDef, under: nat -> byte)
    requires !GoodDef(def, under) && Declarable(def) && GoodString(def.name, under)
    ensures exists j | 0 <= j < |def.properties| :: !GoodString(def.properties[j], under)
  {
    hide GoodString;
  }

  lemma BadDefNames(m: Mode, def: ClassDef, t: Sink, u: Sink, y: Sink, buf: bytes)
    requires Filled(m.under) && m.tabled && GoodStrings(t.strs, m.under) && !GoodDef(def, m.under) && Declarable(def)
    requires u == PutString(m, def.name, t) && y == PutNames(m, def.properties, 0, u)
    requires Bounded(m.tabled, y) && y.out <= buf && Bounded(m.tabled, u) && u.out <= buf
    ensures var n := GetString(buf, At(t)); n.Got? ==>
      var p := GetNames(buf, n.next, |def.properties|, []); p.Got? ==> n.value != def.name || p.value != def.properties
  {
    if GoodString(def.name, m.under) { BadPart(def, m.under); }
    hide Filled, PutString, PutNames, GetString, GetNames, GoodString, GoodStrings, GoodDef, Declarable, Bounded;
    if !GoodString(def.name, m.under) {
      BadString(m, def.name, t, u, buf);
    } else {
      StringBack(m, def.name, t, buf);
      GoodStringsStay(m, def.name, t);
      BadNames(m, def.properties, 0, [], u, y, buf);
      assert [] + def.properties[0..] == def.properties;
    }
  }

  lemma TraitLow(def: ClassDef, f: int)
    requires f == Rep(Traits(def))
    ensures f % 2 == 1 && f / 2 % 2 == 1 && (f / 4 % 2 == 1 <==> def.externalizable)
    ensures if |def.properties| < 0x100_0000 then f / 16 == |def.properties|
            else f / 16 != |def.properties| && (f / 16 < 0 ==> |def.properties| != 0)
  {
    var n := |def.properties|;
    var k := (Traits(def) - f) / 0x2000_0000;
    var h := n - k * 0x200_0000;
    var d, e := if def.dynamic then 1 else 0, if def.externalizable then 1 else 0;
    assert f == 16 * h + 8 * d + 4 * e + 3;
    Quotient(f, 16, h, 8 * d + 4 * e + 3);
    Quotient(f, 4, 4 * h + 2 * d + e, 3);
    Quotient(4 * h + 2 * d + e, 2, 2 * h + d, e);
    Quotient(f, 2, 8 * h + 4 * d + 2 * e + 1, 1);
    Quotient(8 * h + 4 * d + 2 * e + 1, 2, 4 * h + 2 * d + e, 1);
  }

  lemma Quotient(f: int, n: int, q: int, r: int)
    requires f == n * q + r && 0 <= r < n && n in {2, 4, 16}
    ensures f / n == q && f % n == r
  {
  }
}
