/** Behind a date. The date text that reads back as itself is entered into the writer's string table and not into the
    parser's, which from then on is one entry behind. As long as no new string is written both sides go on in step;
    the first new string goes to different places in the two tables, and they never agree again. */
module Amf3Gap {
  import opened U29
  import opened Amf3Value
  import opened Amf3Writer
  import opened Amf3Parser
  import opened Amf3RoundTrip
  import opened Amf3Tables
  import opened Amf3Damage
  import opened Amf3Visible

  // ---- Tables that will not agree -------------------------------------------------------------------

  /** No string of this length can be read. */
  ghost predicate Unreadable(a: seq<bytes>)
  {
    exists i :: 0 <= i < |a| && |a[i]| >= 0x800_0000
  }

  ghost predicate Apart(a: seq<bytes>, b: seq<bytes>)
  {
    Diverged(a, b) || Unreadable(a)
  }

  lemma StaysApart(a: seq<bytes>, b: seq<bytes>, a2: seq<bytes>, b2: seq<bytes>)
    requires Apart(a, b) && a <= a2 && b <= b2
    ensures Apart(a2, b2)
  {
    if Diverged(a, b) { StaysDiverged(a, b, a2, b2); }
    else {
      var i :| 0 <= i < |a| && |a[i]| >= 0x800_0000;
      assert a2[i] == a[i];
    }
  }

  lemma ApartDiffer(a: seq<bytes>, b: seq<bytes>)
    requires Apart(a, b) && Grown([], b)
    ensures a != b
  {
  }

  // ---- One entry behind -----------------------------------------------------------------------------

  /** The parser stands where the writer does, but its table lacks the date. */
  ghost predicate Lag(w: Sink, r: Cursor)
  {
    r.pos == |w.out| && w.strs == r.strs + [DATETIME] && DATETIME !in r.strs
  }

  ghost predicate Declared(defs: seq<ClassDef>)
  {
    forall i | 0 <= i < |defs| :: Declarable(defs[i])
  }

  ghost predicate Gap(w: Sink, r: Cursor)
  {
    Lag(w, r) && r.defs == w.defs && Declared(w.defs)
  }

  lemma IntAt(w: Sink, r: Cursor, n: int, buf: bytes)
    requires r.pos == |w.out| && Emit(w, U29.Put(n)).out <= buf
    ensures GetInt(buf, r) == Got(Rep(n), r.(pos := |Emit(w, U29.Put(n)).out|))
  {
    PutGet(w.out, n, buf);
  }

  lemma EmptyAt(w: Sink, r: Cursor, buf: bytes)
    requires r.pos == |w.out| && Emit(w, U29.Put(1)).out <= buf
    ensures GetString(buf, r) == Got([], r.(pos := |Emit(w, U29.Put(1)).out|))
  {
    hide U29.Put, GetInt;
    IntAt(w, r, 1, buf);
    assert Rep(1) == 1;
    var p := |Emit(w, U29.Put(1)).out|;
    assert buf[p..p] == [];
  }

  /** A reference. */
  lemma RefAt(w: Sink, r: Cursor, i: nat, buf: bytes)
    requires r.pos == |w.out| && i < 0x800_0000 && Emit(w, U29.Put(2 * i)).out <= buf
    ensures GetString(buf, r)
         == if i < |r.strs| then Got(r.strs[i], r.(pos := |Emit(w, U29.Put(2 * i)).out|)) else Fail
  {
    hide U29.Put, GetInt;
    IntAt(w, r, 2 * i, buf);
    assert Rep(2 * i) == 2 * i;
  }

  /** An inline string is read as what was copied. */
  lemma InlineAt(w: Sink, r: Cursor, c: bytes, buf: bytes)
    requires r.pos == |w.out| && 0 < |c| < 0x800_0000 && w.out + U29.Put(2 * |c| + 1) + c <= buf
    ensures GetString(buf, r) == Got(c, Cursor(|w.out + U29.Put(2 * |c| + 1) + c|, r.strs + [c], r.defs))
  {
    hide U29.Put, GetInt;
    var n := |c|;
    var h := w.out + U29.Put(2 * n + 1);
    assert h <= h + c;
    IntAt(w, r, 2 * n + 1, buf);
    assert Rep(2 * n + 1) == 2 * n + 1;
    assert buf[|h|..|h| + n] == (h + c)[|h|..|h| + n] == c;
  }

  /** A string copied over with a zero byte before its end is not the date text. */
  lemma NotDate(s: bytes, under: nat -> byte, pos: nat)
    requires s != DATETIME
    ensures StrCpy(s, under, pos) != DATETIME
  {
    var k := IndexOf(s, 0);
    if k >= 0 {
      StrCpyBytes(s, under, pos, k);
      hide StrCpy;
    }
  }

  /** Behind a date a string is read as itself, without a change to the tables, or not read, or sets them apart. */
  lemma GapString(m: Mode, s: bytes, w: Sink, r: Cursor, y: Sink, buf: bytes)
    requires m.tabled && Lag(w, r) && |w.strs| <= 0x800_0000 && y == PutString(m, s, w) && y.out <= buf
    ensures var g := GetString(buf, r); g.Got? ==>
      || Apart(y.strs, g.next.strs)
      || (g.value == s && Lag(y, g.next) && y.strs == w.strs && g.next.defs == r.defs)
  {
    var n := |r.strs|;
    if s == [] {
      hide U29.Put, GetString;
      EmptyAt(w, r, buf);
    } else if s in w.strs {
      var i := IndexOf(w.strs, s);
      hide U29.Put, GetString;
      RefAt(w, r, i, buf);
      assert w.strs[n] == DATETIME;
      if i < n { assert w.strs[i] == r.strs[i]; }
    } else {
      GapInline(m, s, w, r, y, buf);
    }
  }

  lemma GapInline(m: Mode, s: bytes, w: Sink, r: Cursor, y: Sink, buf: bytes)
    requires m.tabled && Lag(w, r) && s != [] && s !in w.strs && y == PutString(m, s, w) && y.out <= buf
    ensures var g := GetString(buf, r); g.Got? ==> Apart(y.strs, g.next.strs)
  {
    var n := |r.strs|;
    var h := w.out + U29.Put(2 * |s| + 1);
    var c := StrCpy(s, m.under, |h|);
    assert y == Sink(h + c, w.strs + [s], w.defs);
    assert w.strs[n] == DATETIME;
    if |s| < 0x800_0000 {
      NotDate(s, m.under, |h|);
      hide StrCpy, U29.Put, GetString;
      InlineAt(w, r, c, buf);
      assert y.strs[n] == DATETIME && (r.strs + [c])[n] == c;
    } else {
      assert y.strs[n + 1] == s;
    }
  }

  lemma {:induction false} GapNames(m: Mode, names: seq<bytes>, i: nat, acc: seq<bytes>, w: Sink, r: Cursor, y: Sink,
                                    buf: bytes)
    requires m.tabled && Lag(w, r) && i <= |names|
    requires y == PutNames(m, names, i, w) && |y.strs| <= 0x800_0000 && y.out <= buf
    ensures var g := GetNames(buf, r, |names| - i, acc); g.Got? ==>
      || Apart(y.strs, g.next.strs)
      || (g.value == acc + names[i..] && Lag(y, g.next) && y.strs == w.strs && g.next.defs == r.defs)
    decreases |names| - i
  {
    hide PutString, GetString, Apart, Lag;
    if i == |names| {
      assert acc + names[i..] == acc;
    } else {
      var u := PutString(m, names[i], w);
      GrowNames(m, names, i + 1, u);
      GrowString(m, names[i], w);
      ExtendsBuffer(u, y, buf);
      GapString(m, names[i], w, r, u, buf);
      var g := GetString(buf, r);
      if g.Got? {
        if Apart(u.strs, g.next.strs) {
          var all := GetNames(buf, g.next, |names| - i - 1, acc + [g.value]);
          if all.Got? { StaysApart(u.strs, g.next.strs, y.strs, all.next.strs); }
        } else {
          GapNames(m, names, i + 1, acc + [names[i]], u, g.next, y, buf);
          assert acc + [names[i]] + names[i + 1..] == acc + names[i..];
        }
      }
    }
  }
  lemma GapDef(m: Mode, def: ClassDef, w: Sink, r: Cursor, t: Sink, buf: bytes)
    requires m.tabled && Gap(w, r) && t == PutDef(m, def, w) && Bounded(true, t) && t.out <= buf
    ensures var g := GetDef(buf, r); g.Got? ==>
      || Apart(t.strs, g.next.strs)
      || (if Declarable(def) then g.value == def && Gap(t, g.next) else g.value != def)
  {
    if def in w.defs {
      GapKnownDef(m, def, w, r, t, buf);
      hide GetDef, PutDef;
    } else {
      var v := Emit(w, U29.Put(Traits(def)));
      var u := PutString(m, def.name, v);
      var y := PutNames(m, def.properties, 0, u);
      StringIgnoresDefs(m, def.name, v, w.defs + [def]);
      NamesIgnoreDefs(m, def.properties, 0, u, w.defs + [def]);
      hide PutString, PutNames, U29.Put, GetDef, Traits, Declarable;
      assert t == y.(defs := w.defs + [def]);
      GrowNames(m, def.properties, 0, u);
      GrowString(m, def.name, v);
      ExtendsBuffer(u, y, buf);
      ExtendsBuffer(v, u, buf);
      IntAt(w, r, Traits(def), buf);
      GapInlineDef(m, def, w, r, v, u, y, t, buf);
    }
  }

  lemma GapKnownDef(m: Mode, def: ClassDef, w: Sink, r: Cursor, t: Sink, buf: bytes)
    requires Gap(w, r) && def in w.defs && t == PutDef(m, def, w) && Bounded(true, t) && t.out <= buf
    ensures GetDef(buf, r) == Got(def, r.(pos := |t.out|)) && t == Sink(t.out, w.strs, w.defs) && Declarable(def)
  {
    var i := IndexOf(w.defs, def);
    hide U29.Put, GetInt;
    IntAt(w, r, 4 * i + 1, buf);
    assert Rep(4 * i + 1) == 4 * i + 1;
    RefBits(i);
    assert Declarable(w.defs[i]);
  }

  /** Name and properties of a definition, with the rest of its reading in `q`, `u` and `y`. */
  lemma GapDefNames(m: Mode, def: ClassDef, v: Sink, q: Cursor, u: Sink, y: Sink, buf: bytes)
    requires m.tabled && Lag(v, q)
    requires u == PutString(m, def.name, v) && u.out <= buf && |u.strs| <= 0x800_0000
    requires y == PutNames(m, def.properties, 0, u) && y.out <= buf && |y.strs| <= 0x800_0000 && Extends(u, y)
    ensures var n := GetString(buf, q); n.Got? ==>
      var p := GetNames(buf, n.next, |def.properties|, []); p.Got? ==>
      || Apart(y.strs, p.next.strs)
      || (n.value == def.name && p.value == def.properties && Lag(y, p.next) && p.next.defs == q.defs)
  {
    hide PutString, PutNames, GetString, GetNames, Apart, Lag;
    GrowString(m, def.name, v);
    GapString(m, def.name, v, q, u, buf);
    var n := GetString(buf, q);
    if n.Got? {
      var p := GetNames(buf, n.next, |def.properties|, []);
      if p.Got? {
        if Apart(u.strs, n.next.strs) {
          StaysApart(u.strs, n.next.strs, y.strs, p.next.strs);
        } else {
          GapNames(m, def.properties, 0, [], u, n.next, y, buf);
          assert [] + def.properties[0..] == def.properties;
        }
      }
    }
  }

  lemma GapInlineDef(m: Mode, def: ClassDef, w: Sink, r: Cursor, v: Sink, u: Sink, y: Sink, t: Sink, buf: bytes)
    requires m.tabled && Gap(w, r) && v == Emit(w, U29.Put(Traits(def)))
    requires GetInt(buf, r) == Got(Rep(Traits(def)), r.(pos := |v.out|))
    requires u == PutString(m, def.name, v) && u.out <= buf && |u.strs| <= 0x800_0000
    requires y == PutNames(m, def.properties, 0, u) && y.out <= buf && |y.strs| <= 0x800_0000 && Extends(u, y)
    requires t == y.(defs := w.defs + [def])
    ensures var g := GetDef(buf, r); g.Got? ==>
      || Apart(t.strs, g.next.strs)
      || (if Declarable(def) then g.value == def && Gap(t, g.next) else g.value != def)
  {
    var f := Rep(Traits(def));
    var q := r.(pos := |v.out|);
    hide PutString, PutNames, U29.Put, GetInt, Traits, Rep, GetString, GetNames, Apart, GetDef, FlagsOf;
    FlagsBack(def, f);
    var x := FlagsOf(f);
    if GetDef(buf, r).Got? {
      DefParts(buf, r, q, f, x);
      if Declarable(def) { GapDefNames(m, def, v, q, u, y, buf); }
    }
  }
}
