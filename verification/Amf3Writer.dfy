/** `amf3writer` (src/amf3.cpp:1011-1337): what a value becomes on the wire, first as functions on the
    bytes and tables built so far, then as the class that fills a caller's buffer. */
module Amf3Writer {
  import opened U29
  import opened Amf3Value

  /** Everything the writer has produced: the filled part of the buffer and its two tables. */
  datatype Sink = Sink(out: bytes, strs: seq<bytes>, defs: seq<ClassDef>)

  /** `ok` is false when the writer threw; the sink then holds what it had written before. */
  datatype Wrote = Wrote(ok: bool, sink: Sink)

  /** `under(i)` is what the buffer holds at position `i` before anything is written there.
      With `tabled` false the string table is never consulted. */
  datatype Mode = Mode(tabled: bool, under: nat -> byte)

  const EMPTY := Sink([], [], [])

  const INNER: bytes := [105, 110, 110, 101, 114]

  /** Buffer content, as a mode's `under`. */
  function Content(s: bytes): nat -> byte
  {
    (i: nat) => if i < |s| then s[i] else 0
  }

  /** Output and tables only ever grow. */
  ghost predicate Extends(w: Sink, x: Sink)
  {
    w.out <= x.out && w.strs <= x.strs && w.defs <= x.defs
  }

  function Emit(w: Sink, e: bytes): (x: Sink)
  {
    w.(out := w.out + e)
  }

  /** The |s| bytes at `pos` after `strcpy` of `s`: it stops behind the first zero byte and leaves the
      rest as it was. */
  function StrCpy(s: bytes, under: nat -> byte, pos: nat): (r: bytes)
    ensures |r| == |s|
  {
    var k := IndexOf(s, 0);
    if k < 0 then s else s[..k + 1] + seq(|s| - k - 1, i requires 0 <= i => under(pos + k + 1 + i))
  }

  function PutString(m: Mode, s: bytes, w: Sink): (x: Sink)
  {
    var i := IndexOf(w.strs, s);
    if s == [] then Emit(w, U29.Put(1))
    else if m.tabled && i >= 0 then Emit(w, U29.Put(2 * i))
    else
      var h := w.out + U29.Put(2 * |s| + 1);
      Sink(h + StrCpy(s, m.under, |h|), w.strs + [s], w.defs)
  }

  function PutNames(m: Mode, names: seq<bytes>, i: nat, w: Sink): (x: Sink)
    requires i <= |names|
    decreases |names| - i
  {
    if i == |names| then w else PutNames(m, names, i + 1, PutString(m, names[i], w))
  }

  function Traits(def: ClassDef): (r: int)
  {
    3 + (if def.externalizable then 4 else 0) + (if def.dynamic then 8 else 0) + 16 * |def.properties|
  }

  /** A class definition: a reference when it was written before. */
  function PutDef(m: Mode, def: ClassDef, w: Sink): (x: Sink)
  {
    var i := IndexOf(w.defs, def);
    if i >= 0 then Emit(w, U29.Put(4 * i + 1))
    else
      var t := Emit(w, U29.Put(Traits(def))).(defs := w.defs + [def]);
      PutNames(m, def.properties, 0, PutString(m, def.name, t))
  }

  /** The type code and what belongs to it. */
  function PutValue(m: Mode, v: Value, w: Sink): (x: Wrote)
    decreases v, 1, 0
  {
    match v
    case Null => Wrote(true, Emit(w, [1]))
    case False => Wrote(true, Emit(w, [2]))
    case True => Wrote(true, Emit(w, [3]))
    case Integer(n) => Wrote(true, Emit(Emit(w, [4]), U29.Put(n)))
    case Number(bits) => Wrote(true, Emit(Emit(w, [5]), Reversed(bits)))
    case String(s) => Wrote(true, PutString(m, s, Emit(w, [6])))
    case Date(s) => Wrote(true, PutString(m, s, Emit(w, [8])))
    case Array(_, _) => PutArray(m, v, Emit(w, [9]))
    case Object(_, _) => PutObject(m, v, Emit(w, [10]))
    case Undefined => Wrote(false, w)
  }

  function PutArray(m: Mode, a: Value, w: Sink): (x: Wrote)
    requires a.Array?
    decreases a, 0, |a.dense| + |a.assoc| + 1
  {
    var d := PutAssoc(m, a, 0, Emit(w, U29.Put(2 * |a.dense| + 1)));
    if !d.ok then d else PutDense(m, a, 0, PutString(m, [], d.sink))
  }

  function PutObject(m: Mode, o: Value, w: Sink): (x: Wrote)
    requires o.Object?
    decreases o, 0, |o.def.properties| + |o.members| + 1
  {
    var t := PutDef(m, o.def, w);
    if o.def.externalizable then
      if Has(o.members, INNER) then PutValue(m, o.members[Find(o.members, INNER)].value, t) else Wrote(false, t)
    else
      var s := PutSealed(m, o, 0, t);
      if !s.ok || !o.def.dynamic then s
      else
        var d := PutDynamic(m, o, 0, s.sink);
        if !d.ok then d else Wrote(true, PutString(m, [], d.sink))
  }

  /** `WriteDictionary`, without its end mark. */
  function PutAssoc(m: Mode, a: Value, i: nat, w: Sink): (x: Wrote)
    requires a.Array? && i <= |a.assoc|
    decreases a, 0, |a.assoc| - i
  {
    if i == |a.assoc| then Wrote(true, w)
    else
      var e := PutValue(m, a.assoc[i].value, PutString(m, a.assoc[i].key, w));
      if !e.ok then e else PutAssoc(m, a, i + 1, e.sink)
  }

  function PutDense(m: Mode, a: Value, i: nat, w: Sink): (x: Wrote)
    requires a.Array? && i <= |a.dense|
    decreases a, 0, |a.dense| - i
  {
    if i == |a.dense| then Wrote(true, w)
    else
      var e := PutValue(m, a.dense[i], w);
      if !e.ok then e else PutDense(m, a, i + 1, e.sink)
  }

  /** The members that the class definition names, in its order; throws when one is missing. */
  function PutSealed(m: Mode, o: Value, i: nat, w: Sink): (x: Wrote)
    requires o.Object? && i <= |o.def.properties|
    decreases o, 0, |o.def.properties| - i
  {
    if i == |o.def.properties| then Wrote(true, w)
    else
      var j := Find(o.members, o.def.properties[i]);
      if j < 0 then Wrote(false, w)
      else
        var e := PutValue(m, o.members[j].value, w);
        if !e.ok then e else PutSealed(m, o, i + 1, e.sink)
  }

  /** Every member by name, sealed or not, each with the value that its key looks up. */
  function PutDynamic(m: Mode, o: Value, i: nat, w: Sink): (x: Wrote)
    requires o.Object? && i <= |o.members|
    decreases o, 0, |o.members| - i
  {
    if i == |o.members| then Wrote(true, w)
    else
      var k := o.members[i].key;
      var e := PutValue(m, o.members[Find(o.members, k)].value, PutString(m, k, w));
      if !e.ok then e else PutDynamic(m, o, i + 1, e.sink)
  }

  /** What a value is written as, apart from the tables: bytes as they are, strings, class definitions,
      and the point where the writer throws. */
  datatype Token = Raw(e: bytes) | Text(s: bytes) | Class(def: ClassDef) | Throw

  function PutToken(m: Mode, t: Token, w: Sink): (x: Sink)
  {
    match t
    case Raw(e) => Emit(w, e)
    case Text(s) => PutString(m, s, w)
    case Class(def) => PutDef(m, def, w)
    case Throw => w
  }

  function PutTokens(m: Mode, ts: seq<Token>, w: Sink): (x: Wrote)
  {
    if ts == [] then Wrote(true, w)
    else if ts[0].Throw? then Wrote(false, w)
    else PutTokens(m, ts[1..], PutToken(m, ts[0], w))
  }

  function Tokens(v: Value): seq<Token>
    decreases v, 1, 0
  {
    match v
    case Null => [Raw([1])]
    case False => [Raw([2])]
    case True => [Raw([3])]
    case Integer(n) => [Raw([4]), Raw(U29.Put(n))]
    case Number(bits) => [Raw([5]), Raw(Reversed(bits))]
    case String(s) => [Raw([6]), Text(s)]
    case Date(s) => [Raw([8]), Text(s)]
    case Array(_, dense) =>
      [Raw([9]), Raw(U29.Put(2 * |dense| + 1))] + (AssocTokens(v, 0) + ([Text([])] + DenseTokens(v, 0)))
    case Object(def, ms) =>
      [Raw([10]), Class(def)] +
      if def.externalizable then (if Has(ms, INNER) then Tokens(ms[Find(ms, INNER)].value) else [Throw])
      else SealedTokens(v, 0) + if def.dynamic then DynamicTokens(v, 0) + [Text([])] else []
    case Undefined => [Throw]
  }

  function AssocTokens(a: Value, i: nat): seq<Token>
    requires a.Array? && i <= |a.assoc|
    decreases a, 0, |a.assoc| - i
  {
    if i == |a.assoc| then [] else [Text(a.assoc[i].key)] + (Tokens(a.assoc[i].value) + AssocTokens(a, i + 1))
  }

  function DenseTokens(a: Value, i: nat): seq<Token>
    requires a.Array? && i <= |a.dense|
    decreases a, 0, |a.dense| - i
  {
    if i == |a.dense| then [] else Tokens(a.dense[i]) + DenseTokens(a, i + 1)
  }

  function SealedTokens(o: Value, i: nat): seq<Token>
    requires o.Object? && i <= |o.def.properties|
    decreases o, 0, |o.def.properties| - i
  {
    if i == |o.def.properties| then []
    else
      var j := Find(o.members, o.def.properties[i]);
      if j < 0 then [Throw] else Tokens(o.members[j].value) + SealedTokens(o, i + 1)
  }

  function DynamicTokens(o: Value, i: nat): seq<Token>
    requires o.Object? && i <= |o.members|
    decreases o, 0, |o.members| - i
  {
    if i == |o.members| then []
    else
      var k := o.members[i].key;
      [Text(k)] + (Tokens(o.members[Find(o.members, k)].value) + DynamicTokens(o, i + 1))
  }

  lemma {:induction false} PutConcat(m: Mode, a: seq<Token>, b: seq<Token>, w: Sink)
    ensures PutTokens(m, a + b, w) ==
            var x := PutTokens(m, a, w); if x.ok then PutTokens(m, b, x.sink) else x
  {
    hide PutToken;
    if a == [] {
      assert a + b == b;
    } else if !a[0].Throw? {
      assert (a + b)[1..] == a[1..] + b;
      PutConcat(m, a[1..], b, PutToken(m, a[0], w));
    }
  }

  lemma PutCons(m: Mode, t: Token, b: seq<Token>, w: Sink)
    ensures PutTokens(m, [t] + b, w) == if t.Throw? then Wrote(false, w) else PutTokens(m, b, PutToken(m, t, w))
  {
    hide PutToken;
    assert ([t] + b)[1..] == b;
  }

  /** The writer's recursion over the tree does what its token list says, one token after the other. */
  lemma {:induction false} ValueTokens(m: Mode, v: Value, w: Sink)
    ensures PutValue(m, v, w) == PutTokens(m, Tokens(v), w)
    decreases v, 1, 0
  {
    match v
    case Array(_, _) => ArrayTokens(m, v, w);
    case Object(_, _) => ObjectTokens(m, v, w);
    case _ => LeafTokens(m, v, w);
  }

  lemma LeafTokens(m: Mode, v: Value, w: Sink)
    requires !v.Array? && !v.Object?
    ensures PutValue(m, v, w) == PutTokens(m, Tokens(v), w)
  {
    hide U29.Put, PutString, Reversed;
    var ts := Tokens(v);
    assert ts == [ts[0]] + ts[1..];
    PutCons(m, ts[0], ts[1..], w);
    if |ts| == 2 { PutCons(m, ts[1], [], PutToken(m, ts[0], w)); assert ts[1..] == [ts[1]] + []; }
  }

  lemma {:induction false} ArrayTokens(m: Mode, v: Value, w: Sink)
    requires v.Array?
    ensures PutValue(m, v, w) == PutTokens(m, Tokens(v), w)
    decreases v, 0, |v.dense| + |v.assoc| + 1
  {
    hide U29.Put, PutString, PutAssoc, PutDense, AssocTokens, DenseTokens, PutTokens;
    var h := Raw(U29.Put(2 * |v.dense| + 1));
    var w1 := Emit(w, [9]);
    var w2 := Emit(w1, h.e);
    var b := [Text([])] + DenseTokens(v, 0);
    assert Tokens(v) == [Raw([9])] + ([h] + (AssocTokens(v, 0) + b));
    PutCons(m, Raw([9]), [h] + (AssocTokens(v, 0) + b), w);
    PutCons(m, h, AssocTokens(v, 0) + b, w1);
    PutConcat(m, AssocTokens(v, 0), b, w2);
    AssocAsTokens(m, v, 0, w2);
    var d := PutAssoc(m, v, 0, w2);
    if d.ok {
      PutCons(m, Text([]), DenseTokens(v, 0), d.sink);
      DenseAsTokens(m, v, 0, PutString(m, [], d.sink));
    }
  }

  lemma {:induction false} AssocAsTokens(m: Mode, a: Value, i: nat, w: Sink)
    requires a.Array? && i <= |a.assoc|
    ensures PutAssoc(m, a, i, w) == PutTokens(m, AssocTokens(a, i), w)
    decreases a, 0, |a.assoc| - i
  {
    hide PutString, PutValue, Tokens;
    if i < |a.assoc| {
      var k, v := a.assoc[i].key, a.assoc[i].value;
      var u := PutString(m, k, w);
      var e := PutValue(m, v, u);
      PutCons(m, Text(k), Tokens(v) + AssocTokens(a, i + 1), w);
      PutConcat(m, Tokens(v), AssocTokens(a, i + 1), u);
      ValueTokens(m, v, u);
      if e.ok { AssocAsTokens(m, a, i + 1, e.sink); }
    }
  }

  lemma {:induction false} DenseAsTokens(m: Mode, a: Value, i: nat, w: Sink)
    requires a.Array? && i <= |a.dense|
    ensures PutDense(m, a, i, w) == PutTokens(m, DenseTokens(a, i), w)
    decreases a, 0, |a.dense| - i
  {
    hide PutValue, Tokens;
    if i < |a.dense| {
      var e := PutValue(m, a.dense[i], w);
      PutConcat(m, Tokens(a.dense[i]), DenseTokens(a, i + 1), w);
      ValueTokens(m, a.dense[i], w);
      if e.ok { DenseAsTokens(m, a, i + 1, e.sink); }
    }
  }

  lemma {:induction false} ObjectTokens(m: Mode, v: Value, w: Sink)
    requires v.Object?
    ensures PutValue(m, v, w) == PutTokens(m, Tokens(v), w)
    decreases v, 0, |v.def.properties| + |v.members| + 2
  {
    hide PutString, PutDef, PutSealed, PutDynamic, SealedTokens, DynamicTokens, PutTokens;
    var w1 := Emit(w, [10]);
    var t := PutDef(m, v.def, w1);
    var rest := Tokens(v)[2..];
    assert Tokens(v) == [Raw([10])] + ([Class(v.def)] + rest);
    PutCons(m, Raw([10]), [Class(v.def)] + rest, w);
    PutCons(m, Class(v.def), rest, w1);
    if v.def.externalizable {
      if Has(v.members, INNER) {
        ValueTokens(m, v.members[Find(v.members, INNER)].value, t);
      } else {
        PutCons(m, Throw, [], t);
        assert rest == [Throw] + [];
      }
    } else {
      var b := if v.def.dynamic then DynamicTokens(v, 0) + [Text([])] else [];
      assert rest == SealedTokens(v, 0) + b;
      PutConcat(m, SealedTokens(v, 0), b, t);
      SealedAsTokens(m, v, 0, t);
      var s := PutSealed(m, v, 0, t);
      if s.ok { RestOfObject(m, v, b, s.sink); }
    }
  }

  lemma {:induction false} RestOfObject(m: Mode, v: Value, b: seq<Token>, w: Sink)
    requires v.Object? && b == if v.def.dynamic then DynamicTokens(v, 0) + [Text([])] else []
    ensures PutTokens(m, b, w) ==
            if !v.def.dynamic then Wrote(true, w)
            else var d := PutDynamic(m, v, 0, w); if !d.ok then d else Wrote(true, PutString(m, [], d.sink))
    decreases v, 0, |v.def.properties| + |v.members| + 1
  {
    hide PutString, PutDynamic, DynamicTokens;
    if v.def.dynamic {
      PutConcat(m, DynamicTokens(v, 0), [Text([])], w);
      DynamicAsTokens(m, v, 0, w);
      var d := PutDynamic(m, v, 0, w);
      PutCons(m, Text([]), [], d.sink);
      assert [Text([])] == [Text([])] + [];
    }
  }

  lemma {:induction false} SealedAsTokens(m: Mode, o: Value, i: nat, w: Sink)
    requires o.Object? && i <= |o.def.properties|
    ensures PutSealed(m, o, i, w) == PutTokens(m, SealedTokens(o, i), w)
    decreases o, 0, |o.def.properties| - i
  {
    hide PutValue, Tokens;
    if i < |o.def.properties| && Has(o.members, o.def.properties[i]) {
      var v := o.members[Find(o.members, o.def.properties[i])].value;
      var e := PutValue(m, v, w);
      PutConcat(m, Tokens(v), SealedTokens(o, i + 1), w);
      ValueTokens(m, v, w);
      if e.ok { SealedAsTokens(m, o, i + 1, e.sink); }
    }
  }

  lemma {:induction false} DynamicAsTokens(m: Mode, o: Value, i: nat, w: Sink)
    requires o.Object? && i <= |o.members|
    ensures PutDynamic(m, o, i, w) == PutTokens(m, DynamicTokens(o, i), w)
    decreases o, 0, |o.members| - i
  {
    hide PutString, PutValue, Tokens;
    if i < |o.members| {
      var k := o.members[i].key;
      var v := o.members[Find(o.members, k)].value;
      var u := PutString(m, k, w);
      var e := PutValue(m, v, u);
      PutCons(m, Text(k), Tokens(v) + DynamicTokens(o, i + 1), w);
      PutConcat(m, Tokens(v), DynamicTokens(o, i + 1), u);
      ValueTokens(m, v, u);
      if e.ok { DynamicAsTokens(m, o, i + 1, e.sink); }
    }
  }

  lemma GrowString(m: Mode, s: bytes, w: Sink)
    ensures Extends(w, PutString(m, s, w)) && |w.out| < |PutString(m, s, w).out|
  {
  }

  lemma {:induction false} GrowNames(m: Mode, names: seq<bytes>, i: nat, w: Sink)
    requires i <= |names|
    ensures Extends(w, PutNames(m, names, i, w))
    decreases |names| - i
  {
    if i < |names| {
      GrowString(m, names[i], w);
      GrowNames(m, names, i + 1, PutString(m, names[i], w));
    }
  }

  lemma GrowDef(m: Mode, def: ClassDef, w: Sink)
    ensures Extends(w, PutDef(m, def, w)) && |w.out| < |PutDef(m, def, w).out|
  {
    if def !in w.defs {
      var t := Emit(w, U29.Put(Traits(def))).(defs := w.defs + [def]);
      var u := PutString(m, def.name, t);
      GrowString(m, def.name, t);
      GrowNames(m, def.properties, 0, u);
    }
  }

  /** Whatever is written, output and tables only grow. */
  lemma {:induction false} GrowTokens(m: Mode, ts: seq<Token>, w: Sink)
    ensures Extends(w, PutTokens(m, ts, w).sink)
  {
    hide PutString, PutDef;
    if ts != [] && !ts[0].Throw? {
      match ts[0] {
        case Text(s) => GrowString(m, s, w);
        case Class(def) => GrowDef(m, def, w);
        case _ =>
      }
      GrowTokens(m, ts[1..], PutToken(m, ts[0], w));
    }
  }

  lemma GrowValue(m: Mode, v: Value, w: Sink)
    ensures Extends(w, PutValue(m, v, w).sink)
  {
    hide PutValue, Tokens, PutTokens;
    ValueTokens(m, v, w);
    GrowTokens(m, Tokens(v), w);
  }

  lemma GrowArray(m: Mode, a: Value, w: Sink)
    requires a.Array?
    ensures Extends(w, PutArray(m, a, w).sink)
  {
    hide PutAssoc, PutDense;
    var w2 := Emit(w, U29.Put(2 * |a.dense| + 1));
    var d := PutAssoc(m, a, 0, w2);
    GrowAssoc(m, a, 0, w2);
    GrowString(m, [], d.sink);
    GrowDense(m, a, 0, PutString(m, [], d.sink));
  }

  lemma GrowAssoc(m: Mode, a: Value, i: nat, w: Sink)
    requires a.Array? && i <= |a.assoc|
    ensures Extends(w, PutAssoc(m, a, i, w).sink)
  {
    hide PutAssoc, AssocTokens, PutTokens;
    AssocAsTokens(m, a, i, w);
    GrowTokens(m, AssocTokens(a, i), w);
  }

  lemma GrowDense(m: Mode, a: Value, i: nat, w: Sink)
    requires a.Array? && i <= |a.dense|
    ensures Extends(w, PutDense(m, a, i, w).sink)
  {
    hide PutDense, DenseTokens, PutTokens;
    DenseAsTokens(m, a, i, w);
    GrowTokens(m, DenseTokens(a, i), w);
  }

  lemma GrowObject(m: Mode, o: Value, w: Sink)
    requires o.Object?
    ensures Extends(w, PutObject(m, o, w).sink)
  {
    hide PutDef, PutSealed, PutDynamic, PutValue, PutString;
    var t := PutDef(m, o.def, w);
    GrowDef(m, o.def, w);
    if o.def.externalizable {
      if Has(o.members, INNER) { GrowValue(m, o.members[Find(o.members, INNER)].value, t); }
    } else {
      var s := PutSealed(m, o, 0, t);
      GrowSealed(m, o, 0, t);
      if s.ok && o.def.dynamic {
        GrowDynamic(m, o, 0, s.sink);
        GrowString(m, [], PutDynamic(m, o, 0, s.sink).sink);
      }
    }
  }

  lemma GrowSealed(m: Mode, o: Value, i: nat, w: Sink)
    requires o.Object? && i <= |o.def.properties|
    ensures Extends(w, PutSealed(m, o, i, w).sink)
  {
    hide PutSealed, SealedTokens, PutTokens;
    SealedAsTokens(m, o, i, w);
    GrowTokens(m, SealedTokens(o, i), w);
  }

  lemma GrowDynamic(m: Mode, o: Value, i: nat, w: Sink)
    requires o.Object? && i <= |o.members|
    ensures Extends(w, PutDynamic(m, o, i, w).sink)
  {
    hide PutDynamic, DynamicTokens, PutTokens;
    DynamicAsTokens(m, o, i, w);
    GrowTokens(m, DynamicTokens(o, i), w);
  }

  /** What remains to be written covers what is written next: the room a caller grants for the whole
      is room for each part. */
  lemma GrowStepAssoc(m: Mode, a: Value, i: nat, w: Sink)
    requires a.Array? && i < |a.assoc|
    ensures var u := PutString(m, a.assoc[i].key, w);
      var e := PutValue(m, a.assoc[i].value, u).sink;
      |u.out| <= |e.out| <= |PutAssoc(m, a, i, w).sink.out|
  {
    var u := PutString(m, a.assoc[i].key, w);
    var e := PutValue(m, a.assoc[i].value, u);
    GrowValue(m, a.assoc[i].value, u);
    GrowAssoc(m, a, i + 1, e.sink);
  }

  lemma GrowStepDense(m: Mode, a: Value, i: nat, w: Sink)
    requires a.Array? && i < |a.dense|
    ensures |PutValue(m, a.dense[i], w).sink.out| <= |PutDense(m, a, i, w).sink.out|
  {
    GrowDense(m, a, i + 1, PutValue(m, a.dense[i], w).sink);
  }

  lemma GrowStepArray(m: Mode, a: Value, w: Sink)
    requires a.Array?
    ensures var w2 := Emit(w, U29.Put(2 * |a.dense| + 1));
      var d := PutAssoc(m, a, 0, w2);
      var all := |PutArray(m, a, w).sink.out|;
      |w2.out| <= |d.sink.out| <= all && (d.ok ==> |PutString(m, [], d.sink).out| <= all)
  {
    var w2 := Emit(w, U29.Put(2 * |a.dense| + 1));
    var d := PutAssoc(m, a, 0, w2);
    GrowAssoc(m, a, 0, w2);
    GrowString(m, [], d.sink);
    GrowDense(m, a, 0, PutString(m, [], d.sink));
  }

  lemma GrowStepSealed(m: Mode, o: Value, i: nat, w: Sink)
    requires o.Object? && i < |o.def.properties| && Has(o.members, o.def.properties[i])
    ensures var v := o.members[Find(o.members, o.def.properties[i])].value;
      |PutValue(m, v, w).sink.out| <= |PutSealed(m, o, i, w).sink.out|
  {
    var v := o.members[Find(o.members, o.def.properties[i])].value;
    GrowSealed(m, o, i + 1, PutValue(m, v, w).sink);
  }

  lemma GrowStepDynamic(m: Mode, o: Value, i: nat, w: Sink)
    requires o.Object? && i < |o.members|
    ensures var k := o.members[i].key;
      var u := PutString(m, k, w);
      var e := PutValue(m, o.members[Find(o.members, k)].value, u).sink;
      |u.out| <= |e.out| <= |PutDynamic(m, o, i, w).sink.out|
  {
    var k := o.members[i].key;
    var u := PutString(m, k, w);
    var e := PutValue(m, o.members[Find(o.members, k)].value, u);
    GrowValue(m, o.members[Find(o.members, k)].value, u);
    GrowDynamic(m, o, i + 1, e.sink);
  }

  lemma GrowStepObject(m: Mode, o: Value, w: Sink)
    requires o.Object?
    ensures var t := PutDef(m, o.def, w);
      var all := |PutObject(m, o, w).sink.out|;
      && |t.out| <= all
      && (!o.def.externalizable ==>
            var s := PutSealed(m, o, 0, t);
            |s.sink.out| <= all
            && (s.ok && o.def.dynamic ==> |PutDynamic(m, o, 0, s.sink).sink.out| <= all))
  {
    var t := PutDef(m, o.def, w);
    if o.def.externalizable {
      if Has(o.members, INNER) { GrowValue(m, o.members[Find(o.members, INNER)].value, t); }
    } else {
      var s := PutSealed(m, o, 0, t);
      GrowSealed(m, o, 0, t);
      if s.ok && o.def.dynamic {
        GrowDynamic(m, o, 0, s.sink);
        GrowString(m, [], PutDynamic(m, o, 0, s.sink).sink);
      }
    }
  }

  /** Byte order reversed. */
  function Reversed(s: bytes): (r: bytes)
    ensures |r| == |s| && forall i | 0 <= i < |s| :: r[i] == s[|s| - 1 - i]
  {
    seq(|s|, i requires 0 <= i < |s| => s[|s| - 1 - i])
  }

  /** `ByteSwap5` of src/funcs.cpp: swaps the ends and moves inwards. */
  method ByteSwap5(b: array<byte>)
    modifies b
    ensures b[..] == Reversed(old(b[..]))
  {
    var i, j := 0, b.Length - 1;
    while i < j
      invariant 0 <= i <= j + 1 && i + j == b.Length - 1
      invariant forall k | 0 <= k < i :: b[k] == old(b[b.Length - 1 - k]) && b[b.Length - 1 - k] == old(b[k])
      invariant forall k | i <= k <= j :: b[k] == old(b[k])
    {
      b[i], b[j] := b[j], b[i];
      i, j := i + 1, j - 1;
    }
    ghost var was := old(b[..]);
    assert forall k | 0 <= k < b.Length :: b[..][k] == was[b.Length - 1 - k];
  }

  /** The table lookups: a loop that stops at the first hit. */
  method Search<T(==)>(s: seq<T>, x: T) returns (r: int)
    ensures r == IndexOf(s, x)
  {
    for i := 0 to |s|
      invariant x !in s[..i]
    {
      if s[i] == x {
        return i;
      }
      assert s[..i + 1] == s[..i] + [s[i]];
    }
    assert s[..|s|] == s;
    r := -1;
  }

  class Writer {
    const stream: array<byte>
    var position: nat
    var stringTable: seq<bytes>
    var classdefTable: seq<ClassDef>
    ghost const blank: bytes

    /** Nothing behind the write position has been touched, but for the byte at it: `strcpy` ends
        a string with a zero byte that the next write covers. */
    ghost predicate Valid()
      reads this, stream
    {
      && position <= stream.Length == |blank|
      && forall i | position < i < stream.Length :: stream[i] == blank[i]
    }

    /** The byte at the write position is still the caller's. */
    ghost predicate Untouched()
      reads this, stream
      requires Valid()
    {
      position < stream.Length ==> stream[position] == blank[position]
    }

    ghost function State(): Sink
      reads this, stream
      requires Valid()
    {
      Sink(stream[..position], stringTable, classdefTable)
    }

    ghost function How(): Mode
    {
      Mode(true, Content(blank))
    }

    constructor (stream: array<byte>)
      ensures Valid() && State() == EMPTY
      ensures this.stream == stream && blank == stream[..]
    {
      this.stream := stream;
      position := 0;
      stringTable, classdefTable := [], [];
      blank := stream[..];
    }

    method WriteByte(b: byte)
      requires Valid() && position < stream.Length
      modifies this`position, stream
      ensures Valid() && State() == Emit(old(State()), [b])
      ensures Untouched()
    {
      stream[position] := b;
      position := position + 1;
      assert stream[..position] == old(stream[..position]) + [b];
    }

    /** `TypelessWrite(int)`. Only the low 29 bits of the argument matter, so the narrowing
        to `int` that its callers apply to sizes needs no mention. */
    method TypelessWriteInt(n: int)
      requires Valid() && position + |U29.Put(n)| <= stream.Length
      modifies this`position, stream
      ensures Valid() && State() == Emit(old(State()), U29.Put(n))
      ensures Untouched()
    {
      var integer := n % 0x2000_0000;
      Shifts(integer);
      hide U29.Masked;
      if integer / 0x20_0000 % 256 != 0 {
        TypelessWriteLong(integer);
      } else {
        TypelessWriteShort(integer);
      }
    }

    method TypelessWriteShort(integer: int)
      requires 0 <= integer < 0x20_0000
      requires Valid() && position + |U29.Masked(integer)| <= stream.Length
      modifies this`position, stream
      ensures Valid() && State() == Emit(old(State()), U29.Masked(integer))
      ensures Untouched()
    {
      ShortShape(integer);
      hide U29.Masked;
      ghost var e := U29.Masked(integer);
      var force := false;
      if integer / 0x4000 % 128 != 0 {
        stream[position] := integer / 0x4000 % 128 + 128;
        position := position + 1;
        force := true;
      }
      if force || integer / 0x80 % 128 != 0 {
        stream[position] := integer / 0x80 % 128 + 128;
        position := position + 1;
      }
      stream[position] := integer % 128;
      position := position + 1;
      assert stream[..position] == old(stream[..position]) + e;
    }

    method TypelessWriteLong(integer: int)
      requires 0x20_0000 <= integer < 0x2000_0000
      requires Valid() && position + 4 <= stream.Length
      modifies this`position, stream
      ensures Valid() && State() == Emit(old(State()), U29.Masked(integer))
      ensures Untouched()
    {
      Shifts(integer);
      ghost var e := U29.Masked(integer);
      assert e == [integer / 0x40_0000 % 128 + 128, integer / 0x8000 % 128 + 128, integer / 0x100 % 128 + 128,
          integer % 256];
      hide U29.Masked;
      stream[position] := integer / 0x40_0000 % 128 + 128;
      stream[position + 1] := integer / 0x8000 % 128 + 128;
      stream[position + 2] := integer / 0x100 % 128 + 128;
      stream[position + 3] := integer % 256;
      position := position + 4;
      assert stream[..position] == old(stream[..position]) + e;
    }

    /** `TypelessWrite(double)`: most significant byte first. */
    method TypelessWriteNumber(bits: Bits)
      requires Valid() && position + 8 <= stream.Length
      modifies this`position, stream
      ensures Valid() && State() == Emit(old(State()), Reversed(bits))
    {
      var num := new byte[8](i requires 0 <= i < 8 => bits[i]);
      assert num[..] == bits;
      ByteSwap5(num);
      ghost var was := State();
      for i := 0 to 8
        invariant num[..] == Reversed(bits)
        invariant Valid() && State() == Emit(was, num[..i])
        invariant position == old(position) + i
        modifies this`position, stream
      {
        WriteByte(num[i]);
        assert num[..i + 1] == num[..i] + [num[i]];
      }
      assert num[..8] == num[..];
    }

    /** `strcpy` to the write position. */
    method CopyString(s: bytes)
      requires Valid() && position + |s| < stream.Length
      requires Untouched()
      modifies stream
      ensures forall i | 0 <= i < position :: stream[i] == old(stream[i])
      ensures forall i | 0 <= i < |s| :: stream[position + i] == StrCpy(s, How().under, position)[i]
      ensures forall i | position + |s| < i < stream.Length :: stream[i] == blank[i]
    {
      hide StrCpy, IndexOf;
      var j := 0;
      while j < |s| && s[j] != 0
        invariant 0 <= j <= |s| && 0 !in s[..j]
        invariant forall i | 0 <= i < position :: stream[i] == old(stream[i])
        invariant forall i | 0 <= i < j :: stream[position + i] == s[i]
        invariant forall i | position + j <= i < stream.Length :: stream[i] == blank[i]
      {
        stream[position + j] := s[j];
        j := j + 1;
      }
      stream[position + j] := 0;
      StrCpyBytes(s, How().under, position, j);
    }

    /** `TypelessWrite(string)`. */
    method TypelessWriteString(s: bytes)
      requires Valid() && |PutString(How(), s, State()).out| < stream.Length
      modifies this`position, this`stringTable, stream
      ensures Valid() && State() == PutString(How(), s, old(State()))
    {
      hide U29.Put, StrCpy;
      if s == [] {
        TypelessWriteInt(1);
        return;
      }
      var i := Search(stringTable, s);
      if i >= 0 {
        TypelessWriteInt(i * 2);
        return;
      }
      TypelessWriteInt(|s| * 2 + 1);
      ghost var h := stream[..position];
      CopyString(s);
      position := position + |s|;
      assert stream[..position] == h + StrCpy(s, How().under, |h|);
      stringTable := stringTable + [s];
    }

    method WriteNames(names: seq<bytes>)
      requires Valid() && |PutNames(How(), names, 0, State()).out| < stream.Length
      modifies this`position, this`stringTable, stream
      ensures Valid() && State() == PutNames(How(), names, 0, old(State()))
    {
      for i := 0 to |names|
        invariant Valid() && PutNames(How(), names, i, State()) == PutNames(How(), names, 0, old(State()))
      {
        GrowNames(How(), names, i + 1, PutString(How(), names[i], State()));
        TypelessWriteString(names[i]);
      }
    }

    /** The first half of `TypelessWrite(amf3objectmap *, ...)`. */
    method WriteClassdef(def: ClassDef)
      requires Valid() && |PutDef(How(), def, State()).out| < stream.Length
      modifies this, stream
      ensures Valid() && State() == PutDef(How(), def, old(State()))
    {
      hide U29.Put;
      var i := Search(classdefTable, def);
      if i >= 0 {
        TypelessWriteInt(i * 4 + 1);
        return;
      }
      classdefTable := classdefTable + [def];
      var flags := 3;
      if def.externalizable { flags := flags + 4; }
      if def.dynamic { flags := flags + 8; }
      ghost var t := Emit(State(), U29.Put(Traits(def)));
      ghost var u := PutString(How(), def.name, t);
      GrowNames(How(), def.properties, 0, u);
      GrowString(How(), def.name, t);
      TypelessWriteInt(flags + |def.properties| * 16);
      TypelessWriteString(def.name);
      WriteNames(def.properties);
    }

    /** `Write(const amf3object &)`. Returns false where the source throws. */
    method Write(v: Value) returns (ok: bool)
      requires Valid() && |PutValue(How(), v, State()).sink.out| < stream.Length
      modifies this, stream
      ensures Valid() && Wrote(ok, State()) == PutValue(How(), v, old(State()))
      decreases v, 1, 0
    {
      hide U29.Put, PutString, PutArray, PutObject, Reversed, Content;
      ok := true;
      match v
      case Null => WriteByte(1);
      case True => WriteByte(3);
      case False => WriteByte(2);
      case Integer(n) =>
        WriteByte(4);
        TypelessWriteInt(n);
      case Number(bits) =>
        WriteByte(5);
        TypelessWriteNumber(bits);
      case String(s) =>
        GrowString(How(), s, Emit(State(), [6]));
        WriteByte(6);
        TypelessWriteString(s);
      case Date(s) =>
        GrowString(How(), s, Emit(State(), [8]));
        WriteByte(8);
        TypelessWriteString(s);
      case Array(_, _) =>
        GrowArray(How(), v, Emit(State(), [9]));
        WriteByte(9);
        ok := TypelessWriteArray(v);
      case Object(_, _) =>
        GrowObject(How(), v, Emit(State(), [10]));
        WriteByte(10);
        ok := TypelessWriteObject(v);
      case Undefined => ok := false;
    }

    /** `WriteDictionary`. */
    method WriteDictionary(v: Value) returns (ok: bool)
      requires v.Array? && Valid()
      requires |PutAssoc(How(), v, 0, State()).sink.out| < stream.Length
      modifies this, stream
      ensures Valid() && Wrote(ok, State()) == PutAssoc(How(), v, 0, old(State()))
      decreases v, 0, |v.assoc|
    {
      ok := true;
      ghost var x := PutAssoc(How(), v, 0, State());
      for i := 0 to |v.assoc|
        invariant Valid() && PutAssoc(How(), v, i, State()) == x && ok
      {
        GrowStepAssoc(How(), v, i, State());
        TypelessWriteString(v.assoc[i].key);
        ok := Write(v.assoc[i].value);
        if !ok { return; }
      }
    }

    method WriteDense(v: Value) returns (ok: bool)
      requires v.Array? && Valid()
      requires |PutDense(How(), v, 0, State()).sink.out| < stream.Length
      modifies this, stream
      ensures Valid() && Wrote(ok, State()) == PutDense(How(), v, 0, old(State()))
      decreases v, 0, |v.dense|
    {
      ok := true;
      ghost var x := PutDense(How(), v, 0, State());
      for i := 0 to |v.dense|
        invariant Valid() && PutDense(How(), v, i, State()) == x && ok
      {
        GrowStepDense(How(), v, i, State());
        ok := Write(v.dense[i]);
        if !ok { return; }
      }
    }

    method TypelessWriteArray(v: Value) returns (ok: bool)
      requires v.Array? && Valid()
      requires |PutArray(How(), v, State()).sink.out| < stream.Length
      modifies this, stream
      ensures Valid() && Wrote(ok, State()) == PutArray(How(), v, old(State()))
      decreases v, 0, |v.dense| + |v.assoc| + 1
    {
      GrowStepArray(How(), v, State());
      TypelessWriteInt(|v.dense| * 2 + 1);
      ok := WriteDictionary(v);
      if !ok { return; }
      TypelessWriteString([]);
      ok := WriteDense(v);
    }

    method WriteSealed(v: Value) returns (ok: bool)
      requires v.Object? && Valid()
      requires |PutSealed(How(), v, 0, State()).sink.out| < stream.Length
      modifies this, stream
      ensures Valid() && Wrote(ok, State()) == PutSealed(How(), v, 0, old(State()))
      decreases v, 0, |v.def.properties|
    {
      ok := true;
      ghost var x := PutSealed(How(), v, 0, State());
      for i := 0 to |v.def.properties|
        invariant Valid() && PutSealed(How(), v, i, State()) == x && ok
      {
        var j := Find(v.members, v.def.properties[i]);
        if j < 0 { return false; }
        GrowStepSealed(How(), v, i, State());
        ok := Write(v.members[j].value);
        if !ok { return; }
      }
    }

    method WriteDynamic(v: Value) returns (ok: bool)
      requires v.Object? && Valid()
      requires |PutDynamic(How(), v, 0, State()).sink.out| < stream.Length
      modifies this, stream
      ensures Valid() && Wrote(ok, State()) == PutDynamic(How(), v, 0, old(State()))
      decreases v, 0, |v.members|
    {
      hide PutString, PutValue, Content;
      ok := true;
      ghost var x := PutDynamic(How(), v, 0, State());
      for i := 0 to |v.members|
        invariant Valid() && PutDynamic(How(), v, i, State()) == x && ok
      {
        var k := v.members[i].key;
        GrowStepDynamic(How(), v, i, State());
        TypelessWriteString(k);
        ok := Write(v.members[Find(v.members, k)].value);
        if !ok { return; }
      }
    }

    method TypelessWriteObject(v: Value) returns (ok: bool)
      requires v.Object? && Valid()
      requires |PutObject(How(), v, State()).sink.out| < stream.Length
      modifies this, stream
      ensures Valid() && Wrote(ok, State()) == PutObject(How(), v, old(State()))
      decreases v, 0, |v.def.properties| + |v.members| + 1
    {
      GrowStepObject(How(), v, State());
      WriteClassdef(v.def);
      if v.def.externalizable {
        var j := Find(v.members, INNER);
        if j < 0 { return false; }
        ok := Write(v.members[j].value);
        return;
      }
      ok := WriteSealed(v);
      if !ok || !v.def.dynamic { return; }
      ok := WriteDynamic(v);
      if !ok { return; }
      TypelessWriteString([]);
    }
  }

  lemma StrCpyBytes(s: bytes, under: nat -> byte, pos: nat, j: nat)
    requires j <= |s| && 0 !in s[..j] && (j < |s| ==> s[j] == 0)
    ensures forall i | 0 <= i < j :: StrCpy(s, under, pos)[i] == s[i]
    ensures j < |s| ==> StrCpy(s, under, pos)[j] == 0
    ensures forall i | j < i < |s| :: StrCpy(s, under, pos)[i] == under(pos + i)
  {
  }

  lemma ShortShape(m: int)
    requires 0 <= m < 0x20_0000
    ensures m / 0x4000 < 128 && (m / 0x4000 == 0 ==> m / 128 < 128)
    ensures U29.Masked(m) ==
            if m / 0x4000 % 128 != 0 then [m / 0x4000 % 128 + 128, m / 0x80 % 128 + 128, m % 128]
            else if m / 0x80 % 128 != 0 then [m / 0x80 % 128 + 128, m % 128]
            else [m % 128]
  {
    var q := m / 128;
    Shifts(m);
    assert m / 0x4000 == q / 128;
    if q < 128 { assert q % 128 == q && q / 128 == 0; }
    else { assert q / 128 % 128 == q / 128; }
  }

  /** The source shifts once by the whole distance; `U29.Put` divides step by step. */
  lemma Shifts(m: int)
    requires 0 <= m < 0x2000_0000
    ensures m / 0x8000 == m / 0x100 / 128 && m / 0x40_0000 == m / 0x100 / 128 / 128 < 128
    ensures m / 0x4000 == m / 128 / 128
    ensures m / 0x20_0000 % 256 != 0 <==> m >= 0x20_0000
    ensures m < 0x20_0000 ==> m / 0x4000 < 128
    ensures m < 0x4000 ==> m / 0x4000 == 0 && m / 128 < 128
  {
  }
}
