/** The codec as a whole: what `amf3writer` and `amf3parser` promise each other. */
module Amf3Codec {
  import opened U29
  import opened Amf3Value
  import opened Amf3Writer
  import opened Amf3Parser
  import opened Amf3RoundTrip
  import opened Amf3Same
  import opened Amf3Tables
  import opened Amf3Damage
  import opened Amf3Visible
  import opened Amf3Gap
  import opened Amf3GapValue
  import opened Amf3Exact

  /** What a fresh writer makes of `v` in a buffer that held `under`. */
  function Written(v: Value, under: nat -> byte): Wrote
  {
    PutValue(Mode(true, under), v, EMPTY)
  }

  /** A fresh parser finds `v` again in front of any further bytes, stops exactly behind it, and ends up
      with the writer's tables. */
  ghost predicate RoundTrips(v: Value, under: nat -> byte)
  {
    var x := Written(v, under);
    x.ok && forall tail: bytes ::
      var r := GetValue(x.sink.out + tail, START);
      r.Got? && Same(v, r.value) && r.next == At(x.sink)
  }

  /** Every tree in `Plain` makes the round trip, whatever the buffer held and whatever follows. */
  lemma RoundTrip(v: Value, under: nat -> byte)
    requires Plain(v, under) && Bounded(true, Written(v, under).sink)
    ensures RoundTrips(v, under)
  {
    hide Plain, PutValue, GetValue, Same, Reread;
    var m := Mode(true, under);
    var x := Written(v, under);
    forall tail: bytes
      ensures var r := GetValue(x.sink.out + tail, START);
        x.ok && r.Got? && Same(v, r.value) && r.next == At(x.sink)
    {
      var buf := x.sink.out + tail;
      assert x.sink.out <= buf;
      ValueBack(m, v, EMPTY, x, buf);
      RereadSame(v, under);
    }
    assert x.ok by { ValueBack(m, v, EMPTY, x, x.sink.out); }
  }

  /** On a buffer filled with one byte, of the trees in `Covered` those in `Plain` make the round trip and no others. */
  lemma RoundTripExact(v: Value, under: nat -> byte)
    requires Filled(under) && Covered(v) && Bounded(true, Written(v, under).sink)
    ensures RoundTrips(v, under) <==> Plain(v, under)
  {
    hide Filled, Covered, Plain, PutValue, GetValue, Same, Apart, Gap, Tame;
    if Plain(v, under) {
      RoundTrip(v, under);
    } else {
      var m := Mode(true, under);
      var x := Written(v, under);
      if x.ok {
        assert GoodTables(EMPTY, under);
        BadValue(m, v, EMPTY, x.sink, x.sink.out);
        var r := GetValue(x.sink.out, START);
        assert x.sink.out + [] == x.sink.out;
        if r.Got? && Same(v, r.value) { Unequal(x.sink, r.next); }
      }
    }
  }

  /** A parser that started afresh has no string in its table that cannot be read, so that tables apart differ. */
  lemma Unequal(x: Sink, q: Cursor)
    requires Grown([], q.strs) && (Apart(x.strs, q.strs) || Gap(x, q))
    ensures x.strs != q.strs
  {
    if Apart(x.strs, q.strs) { ApartDiffer(x.strs, q.strs); }
  }

  /** A string is copied whole exactly when the buffer already held whatever follows its first zero byte;
      whatever the buffer held, exactly when no zero byte stands before its last. */
  lemma CopyExact(s: bytes, under: nat -> byte, pos: nat)
    ensures StrCpy(s, under, pos) == s <==> forall i | 0 <= IndexOf(s, 0) < i < |s| :: s[i] == under(pos + i)
  {
    var k := IndexOf(s, 0);
    if k >= 0 {
      StrCpyBytes(s, under, pos, k);
      hide StrCpy, IndexOf;
      var c := StrCpy(s, under, pos);
      if forall i | k < i < |s| :: s[i] == under(pos + i) {
        assert forall i | 0 <= i < |s| :: c[i] == s[i];
      }
    }
  }

  /** No zero byte before the last one. */
  predicate Clean(s: bytes)
  {
    forall i | 0 <= i < |s| - 1 :: s[i] != 0
  }

  lemma CleanExact(s: bytes)
    ensures (forall under: nat -> byte :: Survives(s, under)) <==> Clean(s)
  {
    hide StrCpy;
    var k := IndexOf(s, 0);
    if 0 <= k < |s| - 1 {
      var other: byte := if s[k + 1] == 0 then 1 else 0;
      var under: nat -> byte := _ => other;
      CopyExact(s, under, 0);
      assert s[k + 1] != under(0 + (k + 1));
      assert !Survives(s, under);
    } else {
      forall under: nat -> byte, pos: nat
        ensures StrCpy(s, under, pos) == s
      {
        CopyExact(s, under, pos);
      }
    }
    CleanIndex(s);
  }

  lemma CleanIndex(s: bytes)
    ensures Clean(s) <==> !(0 <= IndexOf(s, 0) < |s| - 1)
  {
    var k := IndexOf(s, 0);
    if k < 0 {
      assert forall i | 0 <= i < |s| :: s[i] in s;
    } else {
      forall i | 0 <= i < k ensures s[i] != 0 { assert s[..k][i] in s[..k]; }
    }
  }

  /** Dates are written as strings and read as something else: the value comes back only for one text, and
      even then the parser's string table lacks the entry that the writer's has. */
  lemma DateExact(date: bytes, under: nat -> byte, tail: bytes)
    ensures var r := GetValue(Written(Date(date), under).sink.out + tail, START);
      r.Got? && r.value == Date(date) <==> date == DATETIME
    ensures !RoundTrips(Date(date), under)
  {
    hide PutString, GetValue;
    var x := PutString(Mode(true, under), date, Emit(EMPTY, [8]));
    assert Written(Date(date), under) == Wrote(true, x);
    DateRead(date, under, x, []);
    forall tail: bytes
      ensures var r := GetValue(x.out + tail, START);
        (r.Got? && r.value == Date(date) <==> date == DATETIME)
            && !(r.Got? && Same(Date(date), r.value) && r.next == At(x))
    {
      DateRead(date, under, x, tail);
    }
  }

  lemma DateRead(date: bytes, under: nat -> byte, x: Sink, tail: bytes)
    requires x == PutString(Mode(true, under), date, Emit(EMPTY, [8]))
    ensures var r := GetValue(x.out + tail, START);
      (r.Got? && r.value == Date(date) <==> date == DATETIME) && (r.Got? && r.value == Date(date) ==> r.next != At(x))
  {
    hide PutString, GetArray, GetObject, GetString, GetNumber, U29.Put;
    var w := Emit(EMPTY, [8]);
    var buf := x.out + tail;
    GrowString(Mode(true, under), date, w);
    assert x.out <= buf;
    TagBack(EMPTY, 8, x, buf);
    DateReadsFixed(buf, At(w));
    if date == DATETIME { DateInline(Mode(true, under), w, x, buf); }
  }

  /** Behind a member with an empty name the parser takes the object to be finished. */
  lemma {:induction false} EmptyKeyStops(m: Mode, o: Value, i: nat, j: nat, acc: seq<Member>, w: Sink, x: Sink,
      y: Sink, buf: bytes)
    requires o.Object? && o.def.dynamic && i <= j < |o.members| && o.members[j].key == []
    requires forall p | i <= p < j :: o.members[p].key != [] && GoodMember(o, p, m.under)
    requires PutDynamic(m, o, i, w) == Wrote(true, x)
    requires y == PutString(m, [], x) && Bounded(m.tabled, y) && y.out <= buf
    ensures var r := GetDynamic(buf, At(w), acc); r.Got? && r.next.pos < |y.out|
    decreases j - i
  {
    hide PutValue, GetValue, PutString, GetString, Plain, GoodString, Find, Reread;
    var k := o.members[i].key;
    HasKey(o.members, i);
    var v := o.members[Find(o.members, k)].value;
    var u := PutString(m, k, w);
    var e := PutValue(m, v, u);
    GrowString(m, [], x);
    GrowDynamic(m, o, i + 1, e.sink);
    GrowValue(m, v, u);
    ExtendsBuffer(x, y, buf);
    ExtendsBuffer(e.sink, x, buf);
    ExtendsBuffer(u, e.sink, buf);
    if i == j {
      EmptyGood(m.under);
      StringBack(m, [], w, buf);
    } else {
      assert GoodMember(o, i, m.under);
      StringBack(m, k, w, buf);
      ValueBack(m, v, u, e, buf);
      EmptyKeyStops(m, o, i + 1, j, acc + [Member(k, Reread(v))], e.sink, x, y, buf);
    }
  }

  /** The plain objects that the server builds itself, of a dynamic class without sealed members, do not make the
      round trip with an empty name among their own members; nested ones sometimes do, as in module Amf3Nested. */
  lemma EmptyKeyExcluded(o: Value, j: nat, under: nat -> byte)
    requires o.Object? && o.def.dynamic && o.def.properties == [] && GoodDef(o.def, under)
    requires j < |o.members| && o.members[j].key == []
    requires forall p | 0 <= p < j :: o.members[p].key != [] && GoodMember(o, p, under)
    requires Bounded(true, Written(o, under).sink)
    ensures !RoundTrips(o, under)
  {
    hide PutDef, PutString, PutDynamic, GetDef, GetDynamic, GoodDef, GoodMember, GetArray, GetObject;
    var m := Mode(true, under);
    var y := Written(o, under);
    if y.ok {
      var w := Emit(EMPTY, [10]);
      var t := PutDef(m, o.def, w);
      GoodDefParts(o.def, under);
      assert y == PutObject(m, o, w);
      PutObjectFrom(m, o, w, t);
      assert PutSealed(m, o, 0, t) == Wrote(true, t);
      GrowMembers(m, o, t, t, y.sink);
      var x := PutDynamic(m, o, 0, t).sink;
      GrowDef(m, o.def, w);
      GrowDynamic(m, o, 0, t);
      GrowString(m, [], x);
      var buf := y.sink.out;
      ExtendsBuffer(t, y.sink, buf);
      TagBack(EMPTY, 10, y.sink, buf);
      DefBack(m, o.def, w, buf);
      EmptyKeyStops(m, o, 0, j, [], t, x, y.sink, buf);
      ObjectFrom(buf, At(w), At(t), o.def);
      assert GetSealed(buf, At(t), [], 0, []) == Got([], At(t));
      assert buf + [] == buf;
      assert GetValue(buf, START) == GetObject(buf, At(w));
      assert GetValue(buf, START).next.pos < |buf|;
    }
  }

  /** The two classes at work on one buffer: the parser hands out what was put into the writer, having read
      exactly what was written. The buffer needs room for one byte more, the zero that `strcpy` appends. */
  method Transfer(stream: array<byte>, v: Value) returns (ok: bool, w: Value)
    requires var x := Written(v, Content(stream[..]));
      Plain(v, Content(stream[..])) && Bounded(true, x.sink) && |x.sink.out| < stream.Length
    modifies stream
    ensures ok && Same(v, w)
    ensures stream[..|old(Written(v, Content(stream[..]))).sink.out|] == old(Written(v, Content(stream[..]))).sink.out
  {
    hide Plain, PutValue, GetValue, Same, Content;
    ghost var under := Content(stream[..]);
    RoundTrip(v, under);
    var writer := new Writer(stream);
    var wrote := writer.Write(v);
    var parser := new Parser(stream);
    ghost var n := writer.position;
    assert stream[..] == stream[..n] + stream[n..];
    ok, w := parser.ReadNextObject();
  }
}
