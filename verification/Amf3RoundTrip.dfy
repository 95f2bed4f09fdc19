/** Reading back what was written. Writer and parser keep their tables in step, so that a value, the
    length it occupies and both tables come out as they went in, for every value in `Plain`. */
module Amf3RoundTrip {
  import opened U29
  import opened Amf3Value
  import opened Amf3Writer
  import opened Amf3Parser

  /** The parser's side of a writer's state. */
  function At(w: Sink): Cursor
  {
    Cursor(|w.out|, w.strs, w.defs)
  }

  /** `strcpy` over this buffer content reproduces the string wherever it is written. */
  ghost predicate Survives(s: bytes, under: nat -> byte)
  {
    forall pos: nat :: StrCpy(s, under, pos) == s
  }

  /** A string whose length and bytes can be told from the wire. */
  ghost predicate GoodString(s: bytes, under: nat -> byte)
  {
    |s| < 0x800_0000 && Survives(s, under)
  }

  ghost predicate GoodDef(def: ClassDef, under: nat -> byte)
  {
    && !def.externalizable
    && |def.properties| < 0x100_0000
    && GoodString(def.name, under)
    && forall i | 0 <= i < |def.properties| :: GoodString(def.properties[i], under)
  }

  /** The trees that survive. Of an object only what its keys look up is ever written. */
  ghost predicate Plain(v: Value, under: nat -> byte)
    decreases v
  {
    match v
    case Undefined => false
    case Integer(n) => -0x1000_0000 <= n < 0x1000_0000
    case String(s) => GoodString(s, under)
    case Date(_) => false
    case Array(a, d) => a == [] && |d| < 0x800_0000 && forall i | 0 <= i < |d| :: Plain(d[i], under)
    case Object(def, ms) =>
      && GoodDef(def, under)
      && (forall i | 0 <= i < |def.properties| :: Has(ms, def.properties[i]))
      && (forall j | 0 <= j < |ms| ::
            if def.dynamic then ms[j].key != [] && GoodString(ms[j].key, under) else ms[j].key in def.properties)
      && (forall k | Has(ms, k) :: Plain(ms[Find(ms, k)].value, under))
    case _ => true
  }

  /** Table sizes up to which references are not sign-folded; without a string table there are none to strings. */
  ghost predicate Bounded(tabled: bool, w: Sink)
  {
    (tabled ==> |w.strs| <= 0x800_0000) && |w.defs| <= 0x400_0000
  }

  lemma ExtendsBuffer(w: Sink, x: Sink, buf: bytes)
    requires Extends(w, x) && x.out <= buf
    ensures w.out <= buf && forall tabled :: Bounded(tabled, x) ==> Bounded(tabled, w)
  {
  }

  /** A number is read back where it was written. */
  lemma IntBack(w: Sink, n: int, buf: bytes)
    requires Emit(w, U29.Put(n)).out <= buf
    ensures GetInt(buf, At(w)) == Got(Rep(n), At(Emit(w, U29.Put(n))))
  {
    PutGet(w.out, n, buf);
  }

  lemma StringBack(m: Mode, s: bytes, w: Sink, buf: bytes)
    requires GoodString(s, m.under)
    requires Bounded(m.tabled, PutString(m, s, w)) && PutString(m, s, w).out <= buf
    ensures GetString(buf, At(w)) == Got(s, At(PutString(m, s, w)))
  {
    var i := IndexOf(w.strs, s);
    if s == [] {
      EmptyBack(w, buf);
    } else if m.tabled && i >= 0 {
      RefBack(w, i, buf);
    } else {
      FreshBack(m, s, w, buf);
    }
  }

  lemma FreshBack(m: Mode, s: bytes, w: Sink, buf: bytes)
    requires GoodString(s, m.under) && s != [] && (m.tabled ==> s !in w.strs)
    requires PutString(m, s, w).out <= buf
    ensures GetString(buf, At(w)) == Got(s, At(PutString(m, s, w)))
  {
    hide PutString, U29.Put, GetString, Survives, StrCpy;
    var x := Sink(w.out + U29.Put(2 * |s| + 1) + s, w.strs + [s], w.defs);
    PutInline(m, s, w);
    assert PutString(m, s, w) == x;
    InlineBack(w, |s|, s, buf);
  }

  lemma PutInline(m: Mode, s: bytes, w: Sink)
    requires GoodString(s, m.under) && s != [] && (m.tabled ==> s !in w.strs)
    ensures PutString(m, s, w) == Sink(w.out + U29.Put(2 * |s| + 1) + s, w.strs + [s], w.defs)
  {
    assert StrCpy(s, m.under, |w.out + U29.Put(2 * |s| + 1)|) == s;
  }

  lemma EmptyBack(w: Sink, buf: bytes)
    requires Emit(w, U29.Put(1)).out <= buf
    ensures GetString(buf, At(w)) == Got([], At(Emit(w, U29.Put(1))))
  {
    var h := w.out + U29.Put(1);
    assert h + [] == h;
    InlineBack(w, 0, [], buf);
  }

  lemma RefBack(w: Sink, i: nat, buf: bytes)
    requires i < |w.strs| <= 0x800_0000 && Emit(w, U29.Put(2 * i)).out <= buf
    ensures GetString(buf, At(w)) == Got(w.strs[i], At(Emit(w, U29.Put(2 * i))))
  {
    IntBack(w, 2 * i, buf);
  }

  /** An inline string is read as whatever follows its header. */
  lemma InlineBack(w: Sink, n: nat, payload: bytes, buf: bytes)
    requires |payload| == n < 0x800_0000
    requires w.out + U29.Put(2 * n + 1) + payload <= buf
    ensures GetString(buf, At(w)) == Got(payload, Cursor(|w.out + U29.Put(2 * n + 1) + payload|,
                if n > 0 then w.strs + [payload] else w.strs, w.defs))
  {
    var h := w.out + U29.Put(2 * n + 1);
    assert h <= h + payload;
    assert h <= buf;
    IntBack(w, 2 * n + 1, buf);
    assert buf[|h|..|h| + n] == (h + payload)[|h|..|h| + n] == payload;
  }

  lemma {:induction false} NamesBack(m: Mode, names: seq<bytes>, i: nat, acc: seq<bytes>, w: Sink, buf: bytes)
    requires i <= |names| && forall j | i <= j < |names| :: GoodString(names[j], m.under)
    requires Bounded(m.tabled, PutNames(m, names, i, w)) && PutNames(m, names, i, w).out <= buf
    ensures GetNames(buf, At(w), |names| - i, acc) == Got(acc + names[i..], At(PutNames(m, names, i, w)))
    decreases |names| - i
  {
    hide GoodString, PutString, GetString;
    if i == |names| {
      assert acc + names[i..] == acc;
    } else {
      var x := PutString(m, names[i], w);
      NamesStep(m, names, i, acc, w, buf);
      NamesBack(m, names, i + 1, acc + [names[i]], x, buf);
      assert acc + [names[i]] + names[i + 1..] == acc + names[i..];
    }
  }

  lemma NamesStep(m: Mode, names: seq<bytes>, i: nat, acc: seq<bytes>, w: Sink, buf: bytes)
    requires i < |names| && GoodString(names[i], m.under)
    requires Bounded(m.tabled, PutNames(m, names, i, w)) && PutNames(m, names, i, w).out <= buf
    ensures var x := PutString(m, names[i], w);
      GetNames(buf, At(w), |names| - i, acc) == GetNames(buf, At(x), |names| - i - 1, acc + [names[i]])
  {
    var x := PutString(m, names[i], w);
    GrowNames(m, names, i + 1, x);
    hide GoodString, PutString, GetString;
    ExtendsBuffer(x, PutNames(m, names, i + 1, x), buf);
    StringBack(m, names[i], w, buf);
  }

  /** Class definitions come back, and both sides number them alike. */
  lemma DefBack(m: Mode, def: ClassDef, w: Sink, buf: bytes)
    requires GoodDef(def, m.under)
    requires Bounded(m.tabled, PutDef(m, def, w)) && PutDef(m, def, w).out <= buf
    ensures GetDef(buf, At(w)) == Got(def, At(PutDef(m, def, w)))
  {
    if def in w.defs {
      KnownDefBack(m, def, w, buf);
    } else {
      InlineDefBack(m, def, w, buf);
    }
  }

  lemma KnownDefBack(m: Mode, def: ClassDef, w: Sink, buf: bytes)
    requires def in w.defs && |w.defs| <= 0x400_0000 && PutDef(m, def, w).out <= buf
    ensures GetDef(buf, At(w)) == Got(def, At(PutDef(m, def, w)))
  {
    var i := IndexOf(w.defs, def);
    var x := Emit(w, U29.Put(4 * i + 1));
    assert PutDef(m, def, w) == x;
    DefRefBack(w, x, i, buf);
  }

  lemma DefRefBack(w: Sink, x: Sink, i: nat, buf: bytes)
    requires i < |w.defs| <= 0x400_0000 && x == Emit(w, U29.Put(4 * i + 1)) && x.out <= buf
    ensures GetDef(buf, At(w)) == Got(w.defs[i], At(x))
  {
    IntBack(w, 4 * i + 1, buf);
    RefBits(i);
  }

  /** The parser adds a definition to its table only when it is complete; the writer does so first. */
  lemma InlineDefBack(m: Mode, def: ClassDef, w: Sink, buf: bytes)
    requires GoodDef(def, m.under) && def !in w.defs
    requires Bounded(m.tabled, PutDef(m, def, w)) && PutDef(m, def, w).out <= buf
    ensures GetDef(buf, At(w)) == Got(def, At(PutDef(m, def, w)))
  {
    var t := Emit(w, U29.Put(Traits(def)));
    var u := PutString(m, def.name, t);
    var x := PutNames(m, def.properties, 0, u);
    StringIgnoresDefs(m, def.name, t, w.defs + [def]);
    NamesIgnoreDefs(m, def.properties, 0, u, w.defs + [def]);
    GrowNames(m, def.properties, 0, u);
    GrowString(m, def.name, t);
    hide PutString, PutNames, GetNames, GetString;
    assert PutDef(m, def, w) == x.(defs := w.defs + [def]);
    ExtendsBuffer(u, x, buf);
    ExtendsBuffer(t, u, buf);
    IntBack(w, Traits(def), buf);
    TraitBits(def);
    StringBack(m, def.name, t, buf);
    NamesBack(m, def.properties, 0, [], u, buf);
    assert [] + def.properties[0..] == def.properties;
  }

  lemma RefBits(i: nat)
    ensures (4 * i + 1) % 2 == 1 && (4 * i + 1) / 2 % 2 == 0 && (4 * i + 1) / 4 == i
  {
    var h := 2 * i;
    assert 4 * i + 1 == 2 * h + 1;
    assert (2 * h + 1) % 2 == 1 && (2 * h + 1) / 2 == h;
    assert h % 2 == 0;
  }

  lemma TraitBits(def: ClassDef)
    requires !def.externalizable && |def.properties| < 0x100_0000
    ensures var f := Rep(Traits(def));
      f % 2 == 1 && f / 2 % 2 == 1 && f / 4 % 2 == 0 && (f / 8 % 2 == 1 <==> def.dynamic) && f / 16 == |def.properties|
  {
    var n, d := |def.properties|, if def.dynamic then 1 else 0;
    var f := Traits(def);
    assert f == 16 * n + 8 * d + 3;
    assert Rep(f) == f;
    hide Rep, Traits;
    Halves(f, 8 * n + 4 * d + 1, 1);
    Halves(8 * n + 4 * d + 1, 4 * n + 2 * d, 1);
    Halves(4 * n + 2 * d, 2 * n + d, 0);
    Halves(2 * n + d, n, d);
    Quarters(f, 4 * n + 2 * d, 2 * n + d, n);
  }

  lemma Halves(f: nat, q: nat, r: nat)
    requires f == 2 * q + r && r < 2
    ensures f / 2 == q && f % 2 == r
  {
  }

  /** Division by four, eight and sixteen is halving again and again. */
  lemma Quarters(f: nat, a: nat, b: nat, c: nat)
    requires a == f / 2 / 2 && b == a / 2 && c == b / 2
    ensures f / 4 == a && f / 8 == b && f / 16 == c
  {
  }

  lemma StringIgnoresDefs(m: Mode, s: bytes, w: Sink, defs: seq<ClassDef>)
    ensures PutString(m, s, w.(defs := defs)) == PutString(m, s, w).(defs := defs)
    ensures PutString(m, s, w).defs == w.defs
  {
  }

  lemma {:induction false} NamesIgnoreDefs(m: Mode, names: seq<bytes>, i: nat, w: Sink, defs: seq<ClassDef>)
    requires i <= |names|
    ensures PutNames(m, names, i, w.(defs := defs)) == PutNames(m, names, i, w).(defs := defs)
    ensures PutNames(m, names, i, w).defs == w.defs
    decreases |names| - i
  {
    if i < |names| {
      StringIgnoresDefs(m, names[i], w, defs);
      NamesIgnoreDefs(m, names, i + 1, PutString(m, names[i], w), defs);
    }
  }

  /** The type code is what the parser sees first. */
  lemma TagBack(w: Sink, t: byte, x: Sink, buf: bytes)
    requires Extends(Emit(w, [t]), x) && x.out <= buf
    ensures |w.out| < |buf| && buf[|w.out|] == t
    ensures At(Emit(w, [t])) == At(w).(pos := |w.out| + 1)
  {
    assert buf[|w.out|] == x.out[|w.out|] == (w.out + [t])[|w.out|];
  }

  lemma NumberBack(w: Sink, bits: Bits, x: Sink, buf: bytes)
    requires x == Emit(w, Reversed(bits)) && x.out <= buf
    ensures GetNumber(buf, At(w)) == Got(bits, At(x))
  {
    var p := |w.out|;
    assert buf[p..p + 8] == x.out[p..p + 8] == Reversed(bits);
    assert Reversed(Reversed(bits)) == bits;
  }

  lemma LeafBack(m: Mode, v: Value, w: Sink, x: Sink, buf: bytes)
    requires Plain(v, m.under) && !v.Array? && !v.Object?
    requires PutValue(m, v, w) == Wrote(true, x) && Bounded(m.tabled, x) && x.out <= buf
    ensures GetValue(buf, At(w)) == Got(v, At(x))
  {
    hide GetArray, GetObject, GoodString, GetString, PutString, GetNumber, U29.Put, GetInt;
    match v
    case Null => TagBack(w, 1, x, buf);
    case False => TagBack(w, 2, x, buf);
    case True => TagBack(w, 3, x, buf);
    case Integer(n) =>
      TagBack(w, 4, x, buf);
      IntBack(Emit(w, [4]), n, buf);
    case Number(bits) =>
      TagBack(w, 5, x, buf);
      NumberBack(Emit(w, [5]), bits, x, buf);
    case String(s) =>
      GrowString(m, s, Emit(w, [6]));
      TagBack(w, 6, x, buf);
      StringBack(m, s, Emit(w, [6]), buf);
  }

  /** Everything in `Plain` is written without an exception and read back as `Reread` describes, to the
      last byte, and leaves the two sides with equal tables. */
  lemma {:induction false} ValueBack(m: Mode, v: Value, w: Sink, x: Wrote, buf: bytes)
    requires Plain(v, m.under)
    requires x == PutValue(m, v, w) && Bounded(m.tabled, x.sink) && x.sink.out <= buf
    ensures x.ok && GetValue(buf, At(w)) == Got(Reread(v), At(x.sink))
    decreases v, 1, 0
  {
    hide GetInt, GetString, GetNumber, PutString, GetArray, GetObject, PutArray, PutObject, Reread, Plain;
    if v.Array? {
      var w1 := Emit(w, [9]);
      assert x == PutArray(m, v, w1);
      GrowArray(m, v, w1);
      TagBack(w, 9, x.sink, buf);
      ArrayBack(m, v, w1, x, buf);
    } else if v.Object? {
      var w1 := Emit(w, [10]);
      assert x == PutObject(m, v, w1);
      GrowObject(m, v, w1);
      TagBack(w, 10, x.sink, buf);
      ObjectBack(m, v, w1, x, buf);
    } else {
      LeafOk(m, v, w);
      LeafBack(m, v, w, x.sink, buf);
    }
  }

  lemma LeafOk(m: Mode, v: Value, w: Sink)
    requires Plain(v, m.under) && !v.Array? && !v.Object?
    ensures PutValue(m, v, w).ok && Reread(v) == v
  {
  }

  lemma {:induction false} ArrayBack(m: Mode, a: Value, w: Sink, x: Wrote, buf: bytes)
    requires a.Array? && Plain(a, m.under)
    requires x == PutArray(m, a, w) && Bounded(m.tabled, x.sink) && x.sink.out <= buf
    ensures x.ok && GetArray(buf, At(w)) == Got(Reread(a), At(x.sink))
    decreases a, 0, |a.dense| + 1
  {
    hide PutDense, GetDense, Plain, RereadDense, U29.Put, GetString, GetInt;
    PlainArray(a, m.under);
    var n := |a.dense|;
    var w2 := Emit(w, U29.Put(2 * n + 1));
    var w3 := Emit(w2, U29.Put(1));
    PutArrayIs(m, a, w, w2, w3);
    GrowDense(m, a, 0, w3);
    ExtendsBuffer(w3, x.sink, buf);
    ExtendsBuffer(w2, x.sink, buf);
    IntBack(w, 2 * n + 1, buf);
    EmptyBack(w2, buf);
    DenseBack(m, a, 0, [], w3, x, buf);
    assert [] + RereadDense(a, 0) == RereadDense(a, 0);
  }

  lemma PutArrayIs(m: Mode, a: Value, w: Sink, w2: Sink, w3: Sink)
    requires a.Array? && a.assoc == []
    requires w2 == Emit(w, U29.Put(2 * |a.dense| + 1)) && w3 == Emit(w2, U29.Put(1))
    ensures PutArray(m, a, w) == PutDense(m, a, 0, w3)
  {
    hide PutDense, U29.Put;
  }

  lemma PlainArray(a: Value, under: nat -> byte)
    requires a.Array? && Plain(a, under)
    ensures a.assoc == [] && |a.dense| < 0x800_0000
    ensures forall i | 0 <= i < |a.dense| :: Plain(a.dense[i], under)
  {
  }

  lemma {:induction false} DenseBack(m: Mode, a: Value, i: nat, acc: seq<Value>, w: Sink, x: Wrote, buf: bytes)
    requires a.Array? && i <= |a.dense| && forall j | 0 <= j < |a.dense| :: Plain(a.dense[j], m.under)
    requires x == PutDense(m, a, i, w) && Bounded(m.tabled, x.sink) && x.sink.out <= buf
    ensures x.ok
    ensures GetDense(buf, At(w), |a.dense| - i, [], acc) == Got(Array([], acc + RereadDense(a, i)), At(x.sink))
    decreases a, 0, |a.dense| - i
  {
    hide Plain, PutValue, GetValue, Reread, Find;
    if i == |a.dense| {
      assert acc + [] == acc;
    } else {
      var v := a.dense[i];
      var e := PutValue(m, v, w);
      GrowDense(m, a, i + 1, e.sink);
      ExtendsBuffer(e.sink, x.sink, buf);
      ValueBack(m, v, w, e, buf);
      DenseBack(m, a, i + 1, acc + [Reread(v)], e.sink, x, buf);
      assert acc + [Reread(v)] + RereadDense(a, i + 1) == acc + RereadDense(a, i);
    }
  }

  lemma {:induction false} ObjectBack(m: Mode, o: Value, w: Sink, x: Wrote, buf: bytes)
    requires o.Object? && Plain(o, m.under)
    requires x == PutObject(m, o, w) && Bounded(m.tabled, x.sink) && x.sink.out <= buf
    ensures x.ok && GetObject(buf, At(w)) == Got(Reread(o), At(x.sink))
    decreases o, 0, |o.def.properties| + |o.members| + 1
  {
    hide Plain, GoodDef, PutDef, GetDef, PutSealed, GetSealed, PutDynamic, GetDynamic, PutString;
    hide Reread, RereadSealed, RereadDynamic, GetObject;
    PlainParts(o, m.under);
    var t := PutDef(m, o.def, w);
    var s := PutSealed(m, o, 0, t);
    var ms := RereadSealed(o, 0);
    GrowObjectParts(m, o, w, t, s, x, buf);
    DefBack(m, o.def, w, buf);
    SealedBack(m, o, 0, [], t, s, buf);
    assert [] + ms == ms;
    RereadObject(o);
    if o.def.dynamic {
      var d := PutDynamic(m, o, 0, s.sink);
      var all := ms + RereadDynamic(o, 0);
      DynamicBack(m, o, 0, ms, s.sink, d, x.sink, buf);
      GetObjectIs(buf, At(w), o.def, At(t), ms, At(s.sink), all, At(x.sink));
    } else {
      GetObjectIs(buf, At(w), o.def, At(t), ms, At(s.sink), ms, At(s.sink));
    }
  }

  lemma GrowObjectParts(m: Mode, o: Value, w: Sink, t: Sink, s: Wrote, x: Wrote, buf: bytes)
    requires o.Object? && !o.def.externalizable
    requires t == PutDef(m, o.def, w) && s == PutSealed(m, o, 0, t) && x == PutObject(m, o, w)
    requires Bounded(m.tabled, x.sink) && x.sink.out <= buf
    ensures Bounded(m.tabled, s.sink) && s.sink.out <= buf && Bounded(m.tabled, t) && t.out <= buf
    ensures s.ok && o.def.dynamic ==> Bounded(m.tabled, PutDynamic(m, o, 0, s.sink).sink)
  {
    hide PutDef, PutSealed, PutDynamic, PutString;
    GrowSealed(m, o, 0, t);
    if s.ok && o.def.dynamic {
      var d := PutDynamic(m, o, 0, s.sink);
      GrowDynamic(m, o, 0, s.sink);
      GrowString(m, [], d.sink);
    }
  }

  lemma RereadObject(o: Value)
    requires o.Object?
    ensures Reread(o) == Object(o.def, if o.def.dynamic then RereadSealed(o, 0) + RereadDynamic(o, 0)
            else RereadSealed(o, 0))
  {
    assert RereadSealed(o, 0) + [] == RereadSealed(o, 0);
  }

  lemma GetObjectIs(buf: bytes, r: Cursor, def: ClassDef, q: Cursor, ms: seq<Member>, q2: Cursor, all: seq<Member>,
      q3: Cursor)
    requires GetDef(buf, r) == Got(def, q) && !def.externalizable
    requires GetSealed(buf, q, def.properties, 0, []) == Got(ms, q2)
    requires if def.dynamic then GetDynamic(buf, q2, ms) == Got(all, q3) else all == ms && q3 == q2
    ensures GetObject(buf, r) == Got(Object(def, all), q3)
  {
    hide GetDef, GetSealed, GetDynamic;
  }

  lemma PlainParts(o: Value, under: nat -> byte)
    requires o.Object? && Plain(o, under)
    ensures GoodDef(o.def, under) && !o.def.externalizable
  {
  }

  lemma PlainSealed(o: Value, i: nat, under: nat -> byte)
    requires o.Object? && Plain(o, under) && i < |o.def.properties|
    ensures var k := o.def.properties[i]; Has(o.members, k) && Plain(o.members[Find(o.members, k)].value, under)
  {
  }

  lemma PlainDynamic(o: Value, i: nat, under: nat -> byte)
    requires o.Object? && Plain(o, under) && i < |o.members| && o.def.dynamic
    ensures var k := o.members[i].key;
      k != [] && GoodString(k, under) && Has(o.members, k) && Plain(o.members[Find(o.members, k)].value, under)
  {
    assert Has(o.members, o.members[i].key);
  }

  lemma {:induction false} SealedBack(m: Mode, o: Value, i: nat, acc: seq<Member>, w: Sink, x: Wrote, buf: bytes)
    requires o.Object? && i <= |o.def.properties| && Plain(o, m.under)
    requires x == PutSealed(m, o, i, w) && Bounded(m.tabled, x.sink) && x.sink.out <= buf
    ensures x.ok
    ensures GetSealed(buf, At(w), o.def.properties, i, acc) == Got(acc + RereadSealed(o, i), At(x.sink))
    decreases o, 0, |o.def.properties| - i
  {
    hide Plain, PutValue, GetValue, Reread, Find;
    if i == |o.def.properties| {
      assert acc + [] == acc;
    } else {
      var k := o.def.properties[i];
      PlainSealed(o, i, m.under);
      var v := o.members[Find(o.members, k)].value;
      var e := PutValue(m, v, w);
      GrowSealed(m, o, i + 1, e.sink);
      ExtendsBuffer(e.sink, x.sink, buf);
      ValueBack(m, v, w, e, buf);
      var next := acc + [Member(k, Reread(v))];
      SealedBack(m, o, i + 1, next, e.sink, x, buf);
      assert next + RereadSealed(o, i + 1) == acc + RereadSealed(o, i);
    }
  }

  /** The empty name behind the last member. */
  lemma DynamicEnd(m: Mode, acc: seq<Member>, w: Sink, buf: bytes)
    requires PutString(m, [], w).out <= buf
    ensures GetDynamic(buf, At(w), acc) == Got(acc, At(PutString(m, [], w)))
  {
    hide GetString, U29.Put, GetValue;
    EmptyBack(w, buf);
  }

  lemma {:induction false} DynamicBack(m: Mode, o: Value, i: nat, acc: seq<Member>, w: Sink, x: Wrote, y: Sink,
      buf: bytes)
    requires o.Object? && i <= |o.members| && Plain(o, m.under) && o.def.dynamic
    requires x == PutDynamic(m, o, i, w) && Bounded(m.tabled, x.sink)
    requires y == (if x.ok then PutString(m, [], x.sink) else x.sink) && y.out <= buf
    ensures x.ok
    ensures GetDynamic(buf, At(w), acc) == Got(acc + RereadDynamic(o, i), At(y))
    decreases o, 0, |o.members| - i
  {
    hide Plain, PutValue, GetValue, Reread, GetString, PutString, GoodString, Find;
    if i == |o.members| {
      assert acc + [] == acc;
      DynamicEnd(m, acc, w, buf);
    } else {
      var k := o.members[i].key;
      PlainDynamic(o, i, m.under);
      var v := o.members[Find(o.members, k)].value;
      var u := PutString(m, k, w);
      var e := PutValue(m, v, u);
      if x.ok { GrowString(m, [], x.sink); }
      GrowDynamic(m, o, i + 1, e.sink);
      GrowValue(m, v, u);
      ExtendsBuffer(x.sink, y, buf);
      ExtendsBuffer(e.sink, x.sink, buf);
      ExtendsBuffer(u, e.sink, buf);
      StringBack(m, k, w, buf);
      ValueBack(m, v, u, e, buf);
      var next := acc + [Member(k, Reread(v))];
      DynamicBack(m, o, i + 1, next, e.sink, x, y, buf);
      assert next + RereadDynamic(o, i + 1) == acc + RereadDynamic(o, i);
    }
  }
}
