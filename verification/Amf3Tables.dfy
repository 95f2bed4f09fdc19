/** What happens to the writer's reference tables: they stay free of duplicates and, while it writes trees
    in `Plain`, hold nothing that a reference could not bring back. */
module Amf3Tables {
  import opened Sequences
  import opened U29
  import opened Amf3Value
  import opened Amf3Writer
  import opened Amf3RoundTrip

  ghost predicate NoDuplicates(w: Sink)
  {
    Distinct(w.strs) && Distinct(w.defs)
  }

  lemma DistinctString(m: Mode, s: bytes, w: Sink)
    requires m.tabled && NoDuplicates(w)
    ensures NoDuplicates(PutString(m, s, w))
  {
  }

  lemma {:induction false} DistinctNames(m: Mode, names: seq<bytes>, i: nat, w: Sink)
    requires i <= |names| && m.tabled && NoDuplicates(w)
    ensures NoDuplicates(PutNames(m, names, i, w))
    decreases |names| - i
  {
    hide NoDuplicates, PutString;
    if i < |names| {
      DistinctString(m, names[i], w);
      DistinctNames(m, names, i + 1, PutString(m, names[i], w));
    }
  }

  lemma DistinctDef(m: Mode, def: ClassDef, w: Sink)
    requires m.tabled && NoDuplicates(w)
    ensures NoDuplicates(PutDef(m, def, w))
  {
    hide PutString, PutNames;
    if def !in w.defs {
      var t := Emit(w, U29.Put(Traits(def))).(defs := w.defs + [def]);
      DistinctString(m, def.name, t);
      DistinctNames(m, def.properties, 0, PutString(m, def.name, t));
    }
  }

  lemma {:induction false} DistinctTokens(m: Mode, ts: seq<Token>, w: Sink)
    requires m.tabled && NoDuplicates(w)
    ensures NoDuplicates(PutTokens(m, ts, w).sink)
  {
    hide PutString, PutDef, Distinct;
    if ts != [] && !ts[0].Throw? {
      match ts[0] {
        case Text(s) => DistinctString(m, s, w);
        case Class(def) => DistinctDef(m, def, w);
        case _ =>
      }
      DistinctTokens(m, ts[1..], PutToken(m, ts[0], w));
    }
  }

  /** No table ever holds an entry twice, whatever is written and even when writing throws. */
  lemma DistinctValue(m: Mode, v: Value, w: Sink)
    requires m.tabled && NoDuplicates(w)
    ensures NoDuplicates(PutValue(m, v, w).sink)
  {
    hide NoDuplicates, PutValue, Tokens, PutTokens;
    ValueTokens(m, v, w);
    DistinctTokens(m, Tokens(v), w);
  }

  /** Every entry of the writer's tables survives a round trip. */
  ghost predicate GoodTables(w: Sink, under: nat -> byte)
  {
    && (forall s | s in w.strs :: GoodString(s, under))
    && (forall d | d in w.defs :: GoodDef(d, under))
  }

  ghost predicate GoodToken(t: Token, under: nat -> byte)
  {
    match t
    case Raw(_) => true
    case Text(s) => GoodString(s, under)
    case Class(def) => GoodDef(def, under)
    case Throw => true
  }

  ghost predicate GoodTokens(ts: seq<Token>, under: nat -> byte)
  {
    forall i | 0 <= i < |ts| :: GoodToken(ts[i], under)
  }

  lemma GoodPutString(m: Mode, s: bytes, w: Sink)
    requires GoodTables(w, m.under) && GoodString(s, m.under)
    ensures GoodTables(PutString(m, s, w), m.under)
  {
    hide GoodString, GoodDef, U29.Put, StrCpy;
  }

  lemma {:induction false} GoodPutNames(m: Mode, names: seq<bytes>, i: nat, w: Sink)
    requires i <= |names| && GoodTables(w, m.under)
    requires forall j | i <= j < |names| :: GoodString(names[j], m.under)
    ensures GoodTables(PutNames(m, names, i, w), m.under)
    decreases |names| - i
  {
    hide GoodTables, GoodString, PutString;
    if i < |names| {
      GoodPutString(m, names[i], w);
      GoodPutNames(m, names, i + 1, PutString(m, names[i], w));
    }
  }

  lemma GoodPutDef(m: Mode, def: ClassDef, w: Sink)
    requires GoodTables(w, m.under) && GoodDef(def, m.under)
    ensures GoodTables(PutDef(m, def, w), m.under)
  {
    hide GoodString, PutString, PutNames, U29.Put;
    if def !in w.defs {
      var t := Emit(w, U29.Put(Traits(def))).(defs := w.defs + [def]);
      GoodPutString(m, def.name, t);
      GoodPutNames(m, def.properties, 0, PutString(m, def.name, t));
    }
  }

  lemma {:induction false} GoodPutTokens(m: Mode, ts: seq<Token>, w: Sink)
    requires GoodTables(w, m.under) && GoodTokens(ts, m.under)
    ensures GoodTables(PutTokens(m, ts, w).sink, m.under)
  {
    hide PutString, PutDef, GoodString, GoodDef;
    if ts != [] && !ts[0].Throw? {
      assert GoodToken(ts[0], m.under);
      match ts[0] {
        case Text(s) => GoodPutString(m, s, w);
        case Class(def) => GoodPutDef(m, def, w);
        case _ =>
      }
      GoodPutTokens(m, ts[1..], PutToken(m, ts[0], w));
    }
  }

  lemma GoodConcat(a: seq<Token>, b: seq<Token>, under: nat -> byte)
    requires GoodTokens(a, under) && GoodTokens(b, under)
    ensures GoodTokens(a + b, under)
  {
    hide GoodToken;
  }

  lemma GoodOne(t: Token, under: nat -> byte)
    requires GoodToken(t, under)
    ensures GoodTokens([t], under)
  {
    hide GoodToken;
  }

  /** Trees in `Plain` are written in strings and definitions that survive. */
  lemma {:induction false} PlainTokens(v: Value, under: nat -> byte)
    requires Plain(v, under)
    ensures GoodTokens(Tokens(v), under)
    decreases v, 1, 0
  {
    hide GoodString, GoodDef, U29.Put, Find, DenseTokens, SealedTokens, DynamicTokens;
    match v
    case Array(_, dense) =>
      hide Plain;
      PlainArray(v, under);
      DensePlainTokens(v, 0, under);
      EmptyGood(under);
      assert AssocTokens(v, 0) == [];
      GoodConcat([Text([])], DenseTokens(v, 0), under);
      assert [] + ([Text([])] + DenseTokens(v, 0)) == [Text([])] + DenseTokens(v, 0);
    case Object(def, _) =>
      hide Plain;
      PlainParts(v, under);
      SealedPlainTokens(v, 0, under);
      var b := if def.dynamic then DynamicTokens(v, 0) + [Text([])] else [];
      if def.dynamic {
        DynamicPlainTokens(v, 0, under);
        EmptyGood(under);
        GoodConcat(DynamicTokens(v, 0), [Text([])], under);
      }
      GoodConcat(SealedTokens(v, 0), b, under);
    case _ =>
  }

  lemma EmptyGood(under: nat -> byte)
    ensures GoodString([], under) && GoodTokens([Text([])], under)
  {
  }

  lemma {:induction false} DensePlainTokens(a: Value, i: nat, under: nat -> byte)
    requires a.Array? && i <= |a.dense| && Plain(a, under)
    ensures GoodTokens(DenseTokens(a, i), under)
    decreases a, 0, |a.dense| - i
  {
    hide Plain, GoodTokens, Tokens;
    if i == |a.dense| {
      NoTokens(under);
    } else {
      PlainArray(a, under);
      PlainTokens(a.dense[i], under);
      DensePlainTokens(a, i + 1, under);
      GoodConcat(Tokens(a.dense[i]), DenseTokens(a, i + 1), under);
    }
  }

  lemma NoTokens(under: nat -> byte)
    ensures GoodTokens([], under)
  {
  }

  lemma {:induction false} SealedPlainTokens(o: Value, i: nat, under: nat -> byte)
    requires o.Object? && i <= |o.def.properties| && Plain(o, under)
    ensures GoodTokens(SealedTokens(o, i), under)
    decreases o, 0, |o.def.properties| - i
  {
    hide Plain, GoodTokens, Tokens;
    if i == |o.def.properties| {
      NoTokens(under);
    } else {
      PlainSealed(o, i, under);
      var v := o.members[Find(o.members, o.def.properties[i])].value;
      PlainTokens(v, under);
      SealedPlainTokens(o, i + 1, under);
      GoodConcat(Tokens(v), SealedTokens(o, i + 1), under);
    }
  }

  lemma {:induction false} DynamicPlainTokens(o: Value, i: nat, under: nat -> byte)
    requires o.Object? && i <= |o.members| && Plain(o, under) && o.def.dynamic
    ensures GoodTokens(DynamicTokens(o, i), under)
    decreases o, 0, |o.members| - i
  {
    hide Plain, GoodTokens, Tokens, GoodString;
    if i == |o.members| {
      NoTokens(under);
    } else {
      PlainDynamic(o, i, under);
      var k := o.members[i].key;
      var v := o.members[Find(o.members, k)].value;
      PlainTokens(v, under);
      DynamicPlainTokens(o, i + 1, under);
      GoodConcat(Tokens(v), DynamicTokens(o, i + 1), under);
      GoodOne(Text(k), under);
      GoodConcat([Text(k)], Tokens(v) + DynamicTokens(o, i + 1), under);
    }
  }

  lemma GoodPutValue(m: Mode, v: Value, w: Sink)
    requires GoodTables(w, m.under) && Plain(v, m.under)
    ensures GoodTables(PutValue(m, v, w).sink, m.under)
  {
    hide GoodTables, PutValue, Tokens, PutTokens, Plain;
    ValueTokens(m, v, w);
    PlainTokens(v, m.under);
    GoodPutTokens(m, Tokens(v), w);
  }
}
