/** What the parser builds cannot be told apart from what was written, although an object comes back
    with its members in another order and, for a dynamic class, with the sealed ones twice. */
module Amf3Same {
  import opened U29
  import opened Amf3Value
  import opened Amf3RoundTrip

  /** Every member answers for its key as `o` does. */
  ghost predicate Answers(o: Value, ms: seq<Member>)
    requires o.Object?
  {
    forall j | 0 <= j < |ms| ::
      Has(o.members, ms[j].key) && ms[j].value == Reread(o.members[Find(o.members, ms[j].key)].value)
  }

  lemma AnswersConcat(o: Value, a: seq<Member>, b: seq<Member>)
    requires o.Object? && Answers(o, a) && Answers(o, b)
    ensures Answers(o, a + b)
  {
    hide Reread, Has, Find;
  }

  lemma HasKey(ms: seq<Member>, i: nat)
    requires i < |ms|
    ensures Has(ms, ms[i].key)
  {
  }

  lemma {:induction false} SealedAnswers(o: Value, i: nat)
    requires o.Object? && i <= |o.def.properties|
    requires forall j | 0 <= j < |o.def.properties| :: Has(o.members, o.def.properties[j])
    ensures Answers(o, RereadSealed(o, i))
    ensures forall j | i <= j < |o.def.properties| ::
              exists p | 0 <= p < |RereadSealed(o, i)| :: RereadSealed(o, i)[p].key == o.def.properties[j]
    decreases |o.def.properties| - i
  {
    hide Reread, Find;
    if i < |o.def.properties| {
      SealedAnswers(o, i + 1);
      var rest := RereadSealed(o, i + 1);
      var k := o.def.properties[i];
      assert Has(o.members, k);
      var first := Member(k, Reread(o.members[Find(o.members, k)].value));
      var all := RereadSealed(o, i);
      assert all == [first] + rest;
      AnswersConcat(o, [first], rest);
      forall j | i <= j < |o.def.properties|
        ensures exists p | 0 <= p < |all| :: all[p].key == o.def.properties[j]
      {
        if j == i {
          assert all[0].key == k;
        } else {
          var p :| 0 <= p < |rest| && rest[p].key == o.def.properties[j];
          assert all[p + 1] == rest[p];
        }
      }
    }
  }

  lemma {:induction false} DynamicAnswers(o: Value, i: nat)
    requires o.Object? && i <= |o.members|
    ensures Answers(o, RereadDynamic(o, i))
    ensures |RereadDynamic(o, i)| == |o.members| - i
    ensures forall j | i <= j < |o.members| :: RereadDynamic(o, i)[j - i].key == o.members[j].key
    decreases |o.members| - i
  {
    hide Reread, Has, Find;
    if i < |o.members| {
      DynamicAnswers(o, i + 1);
      var rest := RereadDynamic(o, i + 1);
      var k := o.members[i].key;
      HasKey(o.members, i);
      var first := Member(k, Reread(o.members[Find(o.members, k)].value));
      assert RereadDynamic(o, i) == [first] + rest;
      AnswersConcat(o, [first], rest);
    }
  }

  /** The reread object has the keys of the original, no more and no fewer. */
  lemma SameKeys(o: Value, under: nat -> byte, all: seq<Member>)
    requires o.Object? && Plain(o, under) && Reread(o) == Object(o.def, all)
    ensures Answers(o, all)
    ensures forall k :: Has(o.members, k) <==> Has(all, k)
  {
    hide Plain, Find, Has, RereadSealed, RereadDynamic;
    var sealedPart := RereadSealed(o, 0);
    var dynamicPart := if o.def.dynamic then RereadDynamic(o, 0) else [];
    SealedPresent(o, under);
    SealedAnswers(o, 0);
    DynamicAnswers(o, 0);
    AnswersConcat(o, sealedPart, dynamicPart);
    assert all == sealedPart + dynamicPart;
    forall k
      ensures Has(o.members, k) <==> Has(all, k)
    {
      if Has(o.members, k) {
        var j := KeyFound(o.members, k);
        var p := KeyKept(o, under, all, sealedPart, j);
        HasKey(all, p);
      }
      if Has(all, k) {
        var p := KeyFound(all, k);
      }
    }
  }

  lemma KeyFound(ms: seq<Member>, k: bytes) returns (j: nat)
    requires Has(ms, k)
    ensures j < |ms| && ms[j].key == k
  {
    j := Find(ms, k);
  }

  lemma KeyKept(o: Value, under: nat -> byte, all: seq<Member>, sealedPart: seq<Member>, j: nat) returns (p: nat)
    requires o.Object? && Plain(o, under) && j < |o.members| && sealedPart == RereadSealed(o, 0)
    requires all == sealedPart + if o.def.dynamic then RereadDynamic(o, 0) else []
    ensures p < |all| && all[p].key == o.members[j].key
  {
    hide Plain, Find, Has, RereadSealed, RereadDynamic;
    if o.def.dynamic {
      DynamicAnswers(o, 0);
      p := |sealedPart| + j;
      assert all[p] == RereadDynamic(o, 0)[j];
    } else {
      SealedPresent(o, under);
      KeysCovered(o, under);
      SealedAnswers(o, 0);
      var i :| 0 <= i < |o.def.properties| && o.def.properties[i] == o.members[j].key;
      p :| 0 <= p < |sealedPart| && sealedPart[p].key == o.def.properties[i];
      assert all[p] == sealedPart[p];
    }
  }

  lemma SealedPresent(o: Value, under: nat -> byte)
    requires o.Object? && Plain(o, under)
    ensures forall j | 0 <= j < |o.def.properties| :: Has(o.members, o.def.properties[j])
  {
  }

  lemma KeysCovered(o: Value, under: nat -> byte)
    requires o.Object? && Plain(o, under)
    ensures forall j | 0 <= j < |o.members| :: o.def.dynamic || o.members[j].key in o.def.properties
  {
  }

  lemma PlainMembers(o: Value, under: nat -> byte, k: bytes)
    requires o.Object? && Plain(o, under) && Has(o.members, k)
    ensures Plain(o.members[Find(o.members, k)].value, under)
  {
  }

  lemma {:induction false} RereadDenseAt(a: Value, i: nat, j: nat)
    requires a.Array? && i <= j < |a.dense|
    ensures RereadDense(a, i)[j - i] == Reread(a.dense[j])
    decreases j - i
  {
    hide Reread;
    if i < j { RereadDenseAt(a, i + 1, j); }
  }

  lemma {:induction false} RereadSame(v: Value, under: nat -> byte)
    requires Plain(v, under)
    ensures Same(v, Reread(v))
    decreases v
  {
    match v
    case Array(_, dense) => RereadSameArray(v, under);
    case Object(_, _) => RereadSameObject(v, under);
    case _ =>
  }

  lemma {:induction false} RereadSameArray(v: Value, under: nat -> byte)
    requires v.Array? && Plain(v, under)
    ensures Same(v, Reread(v))
    decreases v, 0
  {
    hide Plain;
    PlainArray(v, under);
    forall i | 0 <= i < |v.dense|
      ensures Same(v.dense[i], RereadDense(v, 0)[i])
    {
      hide Same, Reread;
      RereadSame(v.dense[i], under);
      RereadDenseAt(v, 0, i);
    }
  }

  lemma {:induction false} RereadSameObject(v: Value, under: nat -> byte)
    requires v.Object? && Plain(v, under)
    ensures Same(v, Reread(v))
    decreases v, 0
  {
    hide Plain, Reread, RereadSealed, RereadDynamic, Find;
    RereadObject(v);
    var w := Reread(v);
    SameKeys(v, under, w.members);
    forall k | Has(v.members, k) && Has(w.members, k)
      ensures Same(v.members[Find(v.members, k)].value, w.members[Find(w.members, k)].value)
    {
      hide Same;
      PlainMembers(v, under, k);
      RereadSame(v.members[Find(v.members, k)].value, under);
    }
    SameObjects(v, w);
  }

  lemma SameObjects(v: Value, w: Value)
    requires v.Object? && w.Object? && v.def == w.def
    requires forall k :: Has(v.members, k) <==> Has(w.members, k)
    requires forall k | Has(v.members, k) && Has(w.members, k) ::
               Same(v.members[Find(v.members, k)].value, w.members[Find(w.members, k)].value)
    ensures Same(v, w)
  {
    hide Find, Has;
  }
}
