/** The limits on lengths, counts and table sizes in `Plain` and `Bounded` take care of themselves
    when the output is short, as it is in the server's own buffers. */
module Amf3Limits {
  import opened U29
  import opened Amf3Value
  import opened Amf3Writer
  import opened Amf3RoundTrip
  import opened Amf3Codec

  /** `Plain` without its length limits and for any buffer. */
  ghost predicate Simple(v: Value)
    decreases v
  {
    match v
    case Undefined => false
    case Integer(n) => -0x1000_0000 <= n < 0x1000_0000
    case String(s) => Clean(s)
    case Date(_) => false
    case Array(a, d) => a == [] && forall i | 0 <= i < |d| :: Simple(d[i])
    case Object(def, ms) =>
      && !def.externalizable
      && Clean(def.name)
      && (forall i | 0 <= i < |def.properties| :: Clean(def.properties[i]) && Has(ms, def.properties[i]))
      && (forall j | 0 <= j < |ms| ::
            if def.dynamic then ms[j].key != [] && Clean(ms[j].key) else ms[j].key in def.properties)
      && (forall k | Has(ms, k) :: Simple(ms[Find(ms, k)].value))
    case _ => true
  }

  /** No length exceeds `n`. */
  predicate SizedDef(def: ClassDef, n: nat)
  {
    && |def.name| <= n
    && |def.properties| <= n
    && forall i | 0 <= i < |def.properties| :: |def.properties[i]| <= n
  }

  predicate SizedToken(t: Token, n: nat)
  {
    match t
    case Text(s) => |s| <= n
    case Class(def) => SizedDef(def, n)
    case _ => true
  }

  ghost predicate SizedTokens(ts: seq<Token>, n: nat)
  {
    |ts| <= n && forall i | 0 <= i < |ts| :: SizedToken(ts[i], n)
  }

  /** The tables hold no more than the output accounts for. */
  ghost predicate SizedSink(w: Sink)
  {
    && |w.strs| <= |w.out|
    && |w.defs| <= |w.out|
    && (forall s | s in w.strs :: |s| <= |w.out|)
    && (forall d | d in w.defs :: SizedDef(d, |w.out|))
  }

  lemma SizedString(m: Mode, s: bytes, w: Sink)
    requires |w.strs| <= |w.out| && forall s | s in w.strs :: |s| <= |w.out|
    ensures var x := PutString(m, s, w);
      && |w.out| < |x.out| && |s| <= |x.out| && |x.strs| <= |x.out| && x.defs == w.defs
      && (forall s | s in x.strs :: |s| <= |x.out|)
  {
    var i := IndexOf(w.strs, s);
    if s != [] && m.tabled && i >= 0 { assert s in w.strs; }
    hide StrCpy, IndexOf;
  }

  lemma {:induction false} SizedNames(m: Mode, names: seq<bytes>, i: nat, w: Sink)
    requires i <= |names|
    requires |w.strs| <= |w.out| && forall s | s in w.strs :: |s| <= |w.out|
    ensures var x := PutNames(m, names, i, w);
      && |w.out| + |names| - i <= |x.out| && |x.strs| <= |x.out| && x.defs == w.defs
      && (forall s | s in x.strs :: |s| <= |x.out|)
      && (forall j | i <= j < |names| :: |names[j]| <= |x.out|)
    decreases |names| - i
  {
    hide PutString;
    if i < |names| {
      SizedString(m, names[i], w);
      SizedNames(m, names, i + 1, PutString(m, names[i], w));
    }
  }

  lemma SizedPutDef(m: Mode, def: ClassDef, w: Sink)
    requires SizedSink(w)
    ensures var x := PutDef(m, def, w);
      |w.out| < |x.out| && SizedDef(def, |x.out|) && SizedSink(x)
  {
    hide PutString, PutNames, U29.Put;
    if def in w.defs {
      assert SizedDef(def, |w.out|);
    } else {
      var t := Emit(w, U29.Put(Traits(def))).(defs := w.defs + [def]);
      SizedString(m, def.name, t);
      SizedNames(m, def.properties, 0, PutString(m, def.name, t));
    }
  }

  predicate WritesBytes(ts: seq<Token>)
  {
    forall i | 0 <= i < |ts| :: ts[i].Raw? ==> ts[i].e != []
  }

  lemma {:induction false} SizedPut(m: Mode, ts: seq<Token>, w: Sink)
    requires SizedSink(w) && WritesBytes(ts) && PutTokens(m, ts, w).ok
    ensures var x := PutTokens(m, ts, w).sink;
      |w.out| + |ts| <= |x.out| && SizedSink(x) && SizedTokens(ts, |x.out|)
  {
    hide PutString, PutDef, SizedDef;
    if ts != [] {
      var y := PutToken(m, ts[0], w);
      SizedFirst(m, ts[0], w);
      SizedPut(m, ts[1..], y);
      var n := |PutTokens(m, ts, w).sink.out|;
      SizedMore(ts[0], |y.out|, n);
      forall i | 0 <= i < |ts| ensures SizedToken(ts[i], n) {
        if i > 0 { assert ts[i] == ts[1..][i - 1]; }
      }
    }
  }

  lemma SizedFirst(m: Mode, t: Token, w: Sink)
    requires SizedSink(w) && (t.Raw? ==> t.e != []) && !t.Throw?
    ensures var y := PutToken(m, t, w); |w.out| < |y.out| && SizedSink(y) && SizedToken(t, |y.out|)
  {
    hide PutString, PutDef;
    match t
    case Raw(e) =>
      assert forall d | d in w.defs :: SizedDef(d, |w.out + e|);
    case Text(s) =>
      SizedString(m, s, w);
      assert forall d | d in w.defs :: SizedDef(d, |PutString(m, s, w).out|);
    case Class(def) => SizedPutDef(m, def, w);
  }

  lemma SizedMore(t: Token, n: nat, k: nat)
    requires SizedToken(t, n) && n <= k
    ensures SizedToken(t, k)
  {
  }

  lemma BytesConcat(a: seq<Token>, b: seq<Token>)
    ensures WritesBytes(a + b) <==> WritesBytes(a) && WritesBytes(b)
  {
    if WritesBytes(a + b) {
      assert forall i | 0 <= i < |a| :: a[i] == (a + b)[i];
      assert forall i | 0 <= i < |b| :: b[i] == (a + b)[|a| + i];
    }
  }

  lemma SizedConcat(a: seq<Token>, b: seq<Token>, n: nat)
    requires SizedTokens(a + b, n)
    ensures SizedTokens(a, n) && SizedTokens(b, n)
  {
    assert forall i | 0 <= i < |a| :: a[i] == (a + b)[i];
    assert forall i | 0 <= i < |b| :: b[i] == (a + b)[|a| + i];
  }

  /** Every token of a simple tree takes at least one byte. */
  lemma {:induction false} SimpleBytes(v: Value)
    requires Simple(v)
    ensures WritesBytes(Tokens(v)) && Tokens(v) != []
    decreases v, 1, 0
  {
    hide Find, DenseTokens, SealedTokens, DynamicTokens, WritesBytes;
    match v
    case Array(_, _) =>
      DenseBytes(v, 0);
      OneByte(Text([]));
      BytesConcat([Text([])], DenseTokens(v, 0));
      var h := [Raw([9]), Raw(U29.Put(2 * |v.dense| + 1))];
      assert WritesBytes(h) by { PairBytes(h[0], h[1]); }
      BytesConcat(h, [Text([])] + DenseTokens(v, 0));
      assert AssocTokens(v, 0) + ([Text([])] + DenseTokens(v, 0)) == [Text([])] + DenseTokens(v, 0);
    case Object(def, _) =>
      SealedBytes(v, 0);
      var b := if def.dynamic then DynamicTokens(v, 0) + [Text([])] else [];
      if def.dynamic {
        DynamicBytes(v, 0);
        OneByte(Text([]));
        BytesConcat(DynamicTokens(v, 0), [Text([])]);
      } else {
        NoBytes();
      }
      BytesConcat(SealedTokens(v, 0), b);
      var h := [Raw([10]), Class(def)];
      assert WritesBytes(h) by { PairBytes(h[0], h[1]); }
      BytesConcat(h, SealedTokens(v, 0) + b);
    case _ => LeafBytes(v);
  }

  lemma LeafBytes(v: Value)
    requires Simple(v) && !v.Array? && !v.Object?
    ensures WritesBytes(Tokens(v)) && Tokens(v) != []
  {
    hide U29.Put;
  }

  lemma OneByte(t: Token)
    requires t.Raw? ==> t.e != []
    ensures WritesBytes([t])
  {
  }

  lemma PairBytes(t: Token, u: Token)
    requires (t.Raw? ==> t.e != []) && (u.Raw? ==> u.e != [])
    ensures WritesBytes([t, u])
  {
  }

  lemma NoBytes()
    ensures WritesBytes([])
  {
  }

  lemma {:induction false} DenseBytes(a: Value, i: nat)
    requires a.Array? && i <= |a.dense| && forall j | 0 <= j < |a.dense| :: Simple(a.dense[j])
    ensures WritesBytes(DenseTokens(a, i)) && |DenseTokens(a, i)| >= |a.dense| - i
    decreases a, 0, |a.dense| - i
  {
    hide Simple, Tokens, WritesBytes;
    if i == |a.dense| {
      NoBytes();
    } else {
      SimpleBytes(a.dense[i]);
      DenseBytes(a, i + 1);
      BytesConcat(Tokens(a.dense[i]), DenseTokens(a, i + 1));
    }
  }

  lemma {:induction false} SealedBytes(o: Value, i: nat)
    requires o.Object? && i <= |o.def.properties| && Simple(o)
    ensures WritesBytes(SealedTokens(o, i))
    decreases o, 0, |o.def.properties| - i
  {
    hide Tokens, WritesBytes;
    if i == |o.def.properties| {
      NoBytes();
    } else {
      SimpleSealed(o, i);
      hide Simple;
      var v := o.members[Find(o.members, o.def.properties[i])].value;
      SimpleBytes(v);
      SealedBytes(o, i + 1);
      BytesConcat(Tokens(v), SealedTokens(o, i + 1));
    }
  }

  lemma SimpleSealed(o: Value, i: nat)
    requires o.Object? && Simple(o) && i < |o.def.properties|
    ensures var k := o.def.properties[i]; Has(o.members, k) && Simple(o.members[Find(o.members, k)].value)
  {
  }

  lemma SimpleDynamic(o: Value, i: nat)
    requires o.Object? && Simple(o) && i < |o.members|
    ensures var k := o.members[i].key; Has(o.members, k) && Simple(o.members[Find(o.members, k)].value)
  {
    assert Has(o.members, o.members[i].key);
  }

  lemma {:induction false} DynamicBytes(o: Value, i: nat)
    requires o.Object? && i <= |o.members| && Simple(o)
    ensures WritesBytes(DynamicTokens(o, i))
    decreases o, 0, |o.members| - i
  {
    hide Tokens, WritesBytes, Simple;
    if i == |o.members| {
      NoBytes();
    } else {
      SimpleDynamic(o, i);
      var k := o.members[i].key;
      var v := o.members[Find(o.members, k)].value;
      SimpleBytes(v);
      DynamicBytes(o, i + 1);
      OneByte(Text(k));
      BytesConcat(Tokens(v), DynamicTokens(o, i + 1));
      BytesConcat([Text(k)], Tokens(v) + DynamicTokens(o, i + 1));
    }
  }

  lemma CleanGood(s: bytes, under: nat -> byte)
    requires Clean(s) && |s| < 0x800_0000
    ensures GoodString(s, under)
  {
    hide Survives, Clean;
    CleanExact(s);
  }

  /** A simple tree without a long part is in `Plain`. */
  lemma {:induction false} SimplePlain(v: Value, under: nat -> byte, n: nat)
    requires Simple(v) && n < 0x100_0000 && SizedTokens(Tokens(v), n)
    ensures Plain(v, under)
    decreases v, 1, 0
  {
    match v
    case Array(_, _) => SimplePlainArray(v, under, n);
    case Object(_, _) => SimplePlainObject(v, under, n);
    case String(s) => assert SizedToken(Tokens(v)[1], n); CleanGood(s, under);
    case _ =>
  }

  lemma {:induction false} SimplePlainArray(v: Value, under: nat -> byte, n: nat)
    requires v.Array? && Simple(v) && n < 0x100_0000 && SizedTokens(Tokens(v), n)
    ensures Plain(v, under)
    decreases v, 0, |v.dense| + 1
  {
    hide DenseTokens, SizedTokens;
    var h := [Raw([9]), Raw(U29.Put(2 * |v.dense| + 1))];
    var d := DenseTokens(v, 0);
    assert Tokens(v) == (h + [Text([])]) + d;
    SizedConcat(h + [Text([])], d, n);
    DenseBytes(v, 0);
    assert |d| <= n by { SizedCount(d, n); }
    SimplePlainDense(v, 0, under, n);
  }

  lemma SizedCount(ts: seq<Token>, n: nat)
    requires SizedTokens(ts, n)
    ensures |ts| <= n
  {
  }

  lemma {:induction false} SimplePlainDense(a: Value, i: nat, under: nat -> byte, n: nat)
    requires a.Array? && i <= |a.dense| && n < 0x100_0000 && SizedTokens(DenseTokens(a, i), n)
    requires forall j | 0 <= j < |a.dense| :: Simple(a.dense[j])
    ensures forall j | i <= j < |a.dense| :: Plain(a.dense[j], under)
    decreases a, 0, |a.dense| - i
  {
    hide Simple, Plain, SizedTokens, Tokens;
    if i < |a.dense| {
      SizedConcat(Tokens(a.dense[i]), DenseTokens(a, i + 1), n);
      SimplePlain(a.dense[i], under, n);
      SimplePlainDense(a, i + 1, under, n);
    }
  }

  lemma {:induction false} SimplePlainObject(v: Value, under: nat -> byte, n: nat)
    requires v.Object? && Simple(v) && n < 0x100_0000 && SizedTokens(Tokens(v), n)
    ensures Plain(v, under)
    decreases v, 0, |v.def.properties| + |v.members| + 1
  {
    hide SealedTokens, DynamicTokens, SizedTokens, GoodString, SizedDef, GoodDef;
    var h := [Raw([10]), Class(v.def)];
    var s := SealedTokens(v, 0);
    var b := if v.def.dynamic then DynamicTokens(v, 0) + [Text([])] else [];
    assert Tokens(v) == h + (s + b);
    hide Tokens;
    SizedConcat(h, s + b, n);
    SizedConcat(s, b, n);
    SizedHead(v.def, n);
    SimpleDef(v, under, n);
    SimplePlainSealed(v, 0, under, n);
    if v.def.dynamic {
      SizedConcat(DynamicTokens(v, 0), [Text([])], n);
      SimplePlainDynamic(v, 0, under, n);
    }
    MembersPlain(v, under);
  }

  lemma SizedHead(def: ClassDef, n: nat)
    requires SizedTokens([Raw([10]), Class(def)], n)
    ensures SizedDef(def, n)
  {
    assert SizedToken([Raw([10]), Class(def)][1], n);
  }

  lemma SimpleDef(v: Value, under: nat -> byte, n: nat)
    requires v.Object? && Simple(v) && n < 0x100_0000 && SizedDef(v.def, n)
    ensures GoodDef(v.def, under)
  {
    hide GoodString;
    CleanGood(v.def.name, under);
    forall i | 0 <= i < |v.def.properties| ensures GoodString(v.def.properties[i], under) {
      CleanGood(v.def.properties[i], under);
    }
  }

  lemma MembersPlain(v: Value, under: nat -> byte)
    requires v.Object? && Simple(v) && GoodDef(v.def, under)
    requires forall j | 0 <= j < |v.def.properties| ::
               Has(v.members, v.def.properties[j])
                   && Plain(v.members[Find(v.members, v.def.properties[j])].value, under)
    requires v.def.dynamic ==> forall j | 0 <= j < |v.members| ::
               GoodString(v.members[j].key, under)
               && Has(v.members, v.members[j].key)
               && Plain(v.members[Find(v.members, v.members[j].key)].value, under)
    ensures Plain(v, under)
  {
    hide GoodDef, GoodString;
    forall k | Has(v.members, k)
      ensures Plain(v.members[Find(v.members, k)].value, under)
    {
      var j := Find(v.members, k);
      assert v.members[j].key == k;
      if !v.def.dynamic { assert v.members[j].key in v.def.properties; }
    }
  }

  lemma {:induction false} SimplePlainSealed(o: Value, i: nat, under: nat -> byte, n: nat)
    requires o.Object? && i <= |o.def.properties| && Simple(o) && n < 0x100_0000 && SizedTokens(SealedTokens(o, i), n)
    ensures forall j | i <= j < |o.def.properties| ::
              Has(o.members, o.def.properties[j]) && Plain(o.members[Find(o.members, o.def.properties[j])].value, under)
    decreases o, 0, |o.def.properties| - i
  {
    hide Simple, Plain, SizedTokens, Tokens, Find;
    if i < |o.def.properties| {
      SimpleSealed(o, i);
      var v := o.members[Find(o.members, o.def.properties[i])].value;
      SizedConcat(Tokens(v), SealedTokens(o, i + 1), n);
      SimplePlain(v, under, n);
      SimplePlainSealed(o, i + 1, under, n);
    }
  }

  lemma {:induction false} SimplePlainDynamic(o: Value, i: nat, under: nat -> byte, n: nat)
    requires o.Object? && i <= |o.members| && Simple(o) && o.def.dynamic
    requires n < 0x100_0000 && SizedTokens(DynamicTokens(o, i), n)
    ensures forall j | i <= j < |o.members| ::
              GoodString(o.members[j].key, under)
              && Has(o.members, o.members[j].key) && Plain(o.members[Find(o.members, o.members[j].key)].value, under)
    decreases o, 0, |o.members| - i
  {
    hide Plain, SizedTokens, Tokens, Find, GoodString, Clean;
    if i < |o.members| {
      SimpleDynamic(o, i);
      var k := o.members[i].key;
      var v := o.members[Find(o.members, k)].value;
      assert Clean(k);
      hide Simple;
      SizedConcat([Text(k)], Tokens(v) + DynamicTokens(o, i + 1), n);
      SizedConcat(Tokens(v), DynamicTokens(o, i + 1), n);
      SizedText(k, n);
      CleanGood(k, under);
      SimplePlain(v, under, n);
      SimplePlainDynamic(o, i + 1, under, n);
    }
  }

  lemma SizedText(s: bytes, n: nat)
    requires SizedTokens([Text(s)], n)
    ensures |s| <= n
  {
    assert SizedToken([Text(s)][0], n);
  }

  /** In outputs below 16 MB every simple tree makes the round trip, whatever the buffer held. The server
      writes into 15000 bytes, four of which are the length header. */
  lemma ShortRoundTrip(v: Value, under: nat -> byte)
    requires Simple(v)
    requires Written(v, under).ok && |Written(v, under).sink.out| < 0x100_0000
    ensures RoundTrips(v, under)
  {
    hide PutValue, Tokens, PutTokens, Plain, Simple, SizedTokens, RoundTrips;
    var m := Mode(true, under);
    var x := Written(v, under).sink;
    ValueTokens(m, v, EMPTY);
    SimpleBytes(v);
    SizedPut(m, Tokens(v), EMPTY);
    SimplePlain(v, under, |x.out|);
    RoundTrip(v, under);
  }
}
