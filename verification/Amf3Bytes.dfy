/** What the parser makes of bytes that no writer of this server has produced, such as those of a client. */
module Amf3Bytes {
  import opened U29
  import opened Amf3Value
  import opened Amf3Writer
  import opened Amf3Parser
  import opened Amf3RoundTrip
  import opened Amf3Visible

  /** What each type code stands for that needs no further bytes, and that every code that is not known reads as the
      integer 0; at the end of the buffer there is nothing to be read. */
  lemma CodeTable(buf: bytes, r: Cursor)
    ensures r.pos >= |buf| ==> GetValue(buf, r) == Fail
    ensures r.pos < |buf| ==>
      var b, next := buf[r.pos], Cursor(r.pos + 1, r.strs, r.defs);
      && (b == 0 ==> GetValue(buf, r) == Got(Undefined, next))
      && (b == 1 ==> GetValue(buf, r) == Got(Null, next))
      && (b == 2 ==> GetValue(buf, r) == Got(False, next))
      && (b == 3 ==> GetValue(buf, r) == Got(True, next))
      && (b == 7 || b > 10 ==> GetValue(buf, r) == Got(Integer(0), next))
  {
    hide GetArray, GetObject, GetInt, GetString, GetNumber, GetDate;
  }

  lemma OneByte(buf: bytes, r: Cursor)
    requires r.pos < |buf| && buf[r.pos] < 128
    ensures GetInt(buf, r) == Got(buf[r.pos] as int, Cursor(r.pos + 1, r.strs, r.defs))
  {
    ScanBytes(buf, r.pos);
    hide U29.Get;
  }

  /** Code 4 and a byte below 128 are that number. */
  lemma SmallInteger(buf: bytes, r: Cursor)
    requires r.pos + 1 < |buf| && buf[r.pos] == 4 && buf[r.pos + 1] < 128
    ensures GetValue(buf, r) == Got(Integer(buf[r.pos + 1] as int), Cursor(r.pos + 2, r.strs, r.defs))
  {
    hide GetInt, GetString, GetArray, GetObject, GetNumber, GetDate;
    OneByte(buf, Cursor(r.pos + 1, r.strs, r.defs));
  }

  /** Code 5 and eight bytes, the last one first in memory. */
  lemma NumberBytes(buf: bytes, r: Cursor)
    requires r.pos < |buf| && buf[r.pos] == 5
    ensures var g := GetValue(buf, r);
      if r.pos + 9 <= |buf| then
        && g.Got? && g.next == Cursor(r.pos + 9, r.strs, r.defs) && g.value.Number?
        && forall i | 0 <= i < 8 :: g.value.bits[i] == buf[r.pos + 8 - i]
      else g == Fail
  {
    hide GetInt, GetString, GetArray, GetObject, GetDate;
    if r.pos + 9 <= |buf| {
      var s := buf[r.pos + 1..r.pos + 9];
      assert GetNumber(buf, r.(pos := r.pos + 1)).value == Reversed(s);
      Backwards(s);
    }
  }

  lemma Backwards(s: bytes)
    ensures |Reversed(s)| == |s| && forall i | 0 <= i < |s| :: Reversed(s)[i] == s[|s| - 1 - i]
  {
  }

  /** Code 6 and an even byte below 128 refer to the table of strings, and are refused if that has no such entry. */
  lemma StringReference(buf: bytes, r: Cursor, n: nat)
    requires r.pos + 1 < |buf| && buf[r.pos] == 6 && n < 64 && buf[r.pos + 1] == 2 * n
    ensures GetValue(buf, r) ==
            if n < |r.strs| then Got(String(r.strs[n]), Cursor(r.pos + 2, r.strs, r.defs)) else Fail
  {
    hide GetInt, GetString, GetArray, GetObject, GetNumber, GetDate;
    ReferenceAt(buf, Cursor(r.pos + 1, r.strs, r.defs), n);
  }

  lemma ReferenceAt(buf: bytes, r: Cursor, n: nat)
    requires r.pos < |buf| && n < 64 && buf[r.pos] == 2 * n
    ensures GetString(buf, r) == if n < |r.strs| then Got(r.strs[n], Cursor(r.pos + 1, r.strs, r.defs)) else Fail
  {
    hide GetInt;
    OneByte(buf, r);
    Halves(2 * n, n, 0);
  }

  /** Behind an odd one stand the bytes of the string, which enters the table unless it is empty. */
  lemma StringInline(buf: bytes, r: Cursor, n: nat)
    requires r.pos + 1 < |buf| && buf[r.pos] == 6 && n < 64 && buf[r.pos + 1] == 2 * n + 1
    ensures r.pos + 2 + n > |buf| ==> GetValue(buf, r) == Fail
    ensures r.pos + 2 + n <= |buf| ==>
              var s := buf[r.pos + 2..r.pos + 2 + n];
              GetValue(buf, r)
                == Got(String(s), Cursor(r.pos + 2 + n, if n > 0 then r.strs + [s] else r.strs, r.defs))
  {
    hide GetInt, GetString, GetArray, GetObject, GetNumber, GetDate;
    InlineString(buf, Cursor(r.pos + 1, r.strs, r.defs), n);
  }

  lemma InlineString(buf: bytes, r: Cursor, n: nat)
    requires r.pos < |buf| && n < 64 && buf[r.pos] == 2 * n + 1
    ensures r.pos + 1 + n > |buf| ==> GetString(buf, r) == Fail
    ensures r.pos + 1 + n <= |buf| ==>
              var s := buf[r.pos + 1..r.pos + 1 + n];
              GetString(buf, r) == Got(s, Cursor(r.pos + 1 + n, if n > 0 then r.strs + [s] else r.strs, r.defs))
  {
    hide GetInt;
    OneByte(buf, r);
    Halves(2 * n + 1, n, 1);
  }

  /** Code 8, an odd byte below 128 and eight more: the date reads as the same text whatever they are, and enters no
      table. An even byte, a reference, is refused, as are fewer bytes. */
  lemma DateBytes(buf: bytes, r: Cursor)
    requires r.pos + 1 < |buf| && buf[r.pos] == 8 && buf[r.pos + 1] < 128
    ensures GetValue(buf, r) ==
            if buf[r.pos + 1] % 2 == 1 && r.pos + 10 <= |buf|
            then Got(Date([100, 97, 116, 101, 116, 105, 109, 101]), Cursor(r.pos + 10, r.strs, r.defs)) else Fail
  {
    hide GetInt, GetArray, GetObject, GetString;
    OneByte(buf, Cursor(r.pos + 1, r.strs, r.defs));
  }

  /** Values of one byte. */
  predicate Lone(b: byte)
  {
    b <= 3 || b == 7 || b > 10
  }

  function LoneValue(b: byte): Value
  {
    if b == 0 then Undefined else if b == 1 then Null else if b == 2 then False else if b == 3 then True else Integer(0)
  }

  function LoneValues(codes: bytes): (r: seq<Value>)
    ensures |r| == |codes| && forall i | 0 <= i < |codes| :: r[i] == LoneValue(codes[i])
  {
    seq(|codes|, i requires 0 <= i < |codes| => LoneValue(codes[i]))
  }

  /** Code 9, the odd byte that stands for a length, a byte 1 for no named entries, and the elements. */
  lemma ArrayBytes(buf: bytes, r: Cursor, codes: bytes)
    requires |codes| < 64 && forall i | 0 <= i < |codes| :: Lone(codes[i])
    requires r.pos + 3 + |codes| <= |buf| && buf[r.pos + 3..r.pos + 3 + |codes|] == codes
    requires buf[r.pos] == 9 && buf[r.pos + 1] == 2 * |codes| + 1 && buf[r.pos + 2] == 1
    ensures GetValue(buf, r) == Got(Array([], LoneValues(codes)), Cursor(r.pos + 3 + |codes|, r.strs, r.defs))
  {
    hide GetInt, GetString, GetNumber, GetDate, GetObject, GetDense, GetArray, LoneValue, Lone;
    var q, q2, q3 := Cursor(r.pos + 1, r.strs, r.defs), Cursor(r.pos + 2, r.strs, r.defs),
        Cursor(r.pos + 3, r.strs, r.defs);
    ArrayHead(buf, q, q2, q3, |codes|);
    assert codes[..0] == [] && LoneValues([]) == [];
    forall k | 0 <= k < |codes| ensures buf[q3.pos + k] == codes[k] {
      assert buf[q3.pos..q3.pos + |codes|][k] == codes[k];
    }
    LoneRead(buf, q3, codes, 0);
  }

  lemma ArrayHead(buf: bytes, q: Cursor, q2: Cursor, q3: Cursor, n: nat)
    requires q.pos + 2 <= |buf| && q2 == q.(pos := q.pos + 1) && q3 == q.(pos := q.pos + 2)
    requires n < 64 && buf[q.pos] == 2 * n + 1 && buf[q2.pos] == 1
    ensures GetArray(buf, q) == GetDense(buf, q3, n, [], [])
  {
    hide GetInt, GetString, GetDense, GetArray;
    OneByte(buf, q);
    InlineString(buf, q2, 0);
    assert buf[q3.pos..q3.pos] == [];
    ArrayFrom(buf, q, q2, q3, n);
  }

  lemma {:induction false} LoneRead(buf: bytes, r: Cursor, codes: bytes, i: nat)
    requires i <= |codes| && r.pos + |codes| - i <= |buf| && forall k | 0 <= k < |codes| :: Lone(codes[k])
    requires forall k | i <= k < |codes| :: buf[r.pos - i + k] == codes[k]
    ensures GetDense(buf, r, |codes| - i, [], LoneValues(codes[..i]))
         == Got(Array([], LoneValues(codes)), Cursor(r.pos + |codes| - i, r.strs, r.defs))
    decreases |codes| - i
  {
    hide GetValue, Lone, LoneValues;
    if i == |codes| {
      assert codes[..i] == codes;
    } else {
      assert buf[r.pos - i + i] == codes[i];
      LoneAt(buf, r, codes[i]);
      LoneNext(codes, i);
      LoneRead(buf, Cursor(r.pos + 1, r.strs, r.defs), codes, i + 1);
    }
  }

  lemma LoneAt(buf: bytes, r: Cursor, b: byte)
    requires r.pos < |buf| && buf[r.pos] == b && Lone(b)
    ensures GetValue(buf, r) == Got(LoneValue(b), Cursor(r.pos + 1, r.strs, r.defs))
  {
    hide GetValue;
    CodeTable(buf, r);
  }

  lemma LoneNext(codes: bytes, i: nat)
    requires i < |codes|
    ensures LoneValues(codes[..i + 1]) == LoneValues(codes[..i]) + [LoneValue(codes[i])]
  {
    hide LoneValue;
  }

  /** References to arrays are refused. */
  lemma ArrayReference(buf: bytes, r: Cursor)
    requires r.pos + 1 < |buf| && buf[r.pos] == 9 && buf[r.pos + 1] < 128 && buf[r.pos + 1] % 2 == 0
    ensures GetValue(buf, r) == Fail
  {
    hide GetInt, GetString, GetNumber, GetDate, GetObject, GetDense;
    OneByte(buf, Cursor(r.pos + 1, r.strs, r.defs));
  }

  /** So are references to objects, and to class definitions that are not there, and classes that write themselves. */
  lemma ObjectRefused(buf: bytes, r: Cursor)
    requires r.pos + 1 < |buf| && buf[r.pos] == 10 && buf[r.pos + 1] < 128
    requires var h := buf[r.pos + 1] as int; h % 2 == 0 || (h % 4 == 1 && h / 4 >= |r.defs|) || h % 8 == 7
    ensures GetValue(buf, r) == Fail
  {
    hide GetInt, GetString, GetNumber, GetDate, GetArray, GetDef, GetSealed, GetDynamic;
    DefRefused(buf, Cursor(r.pos + 1, r.strs, r.defs));
  }

  lemma DefRefused(buf: bytes, r: Cursor)
    requires r.pos < |buf| && buf[r.pos] < 128
    requires var h := buf[r.pos] as int; h % 2 == 0 || (h % 4 == 1 && h / 4 >= |r.defs|) || h % 8 == 7
    ensures GetDef(buf, r) == Fail
  {
    hide GetInt, GetString, GetNames;
    OneByte(buf, r);
  }

  /** Within the table they are read. */
  lemma DefReference(buf: bytes, r: Cursor, i: nat)
    requires r.pos < |buf| && i < 32 && i < |r.defs| && buf[r.pos] == 4 * i + 1
    ensures GetDef(buf, r) == Got(r.defs[i], Cursor(r.pos + 1, r.strs, r.defs))
  {
    hide GetInt, GetString, GetNames;
    OneByte(buf, r);
    RefBits(i);
  }

  // ---- An array with one named entry ----------------------------------------------------------------

  lemma {:induction false} NamedDense(buf: bytes, r: Cursor, n: int, named: seq<Member>, acc: seq<Value>)
    ensures GetDense(buf, r, n, named, acc) ==
            match GetDense(buf, r, n, [], acc)
            case Fail => Fail
            case Got(v, q) => Got(Array(named, v.dense), q)
    decreases n
  {
    hide GetValue;
    if n > 0 && GetValue(buf, r).Got? {
      NamedDense(buf, GetValue(buf, r).next, n - 1, named, acc + [GetValue(buf, r).value]);
    }
  }

  /** What `GetArray` does with one named entry. */
  lemma NamedFrom(buf: bytes, r: Cursor, n: nat, q: Cursor, k: bytes, q2: Cursor, v: Value, q3: Cursor, q4: Cursor)
    requires GetInt(buf, r) == Got(2 * n + 1, q) && GetString(buf, q) == Got(k, q2) && k != []
    requires GetValue(buf, q2) == Got(v, q3) && GetString(buf, q3) == Got([], q4)
    ensures GetArray(buf, r) == GetDense(buf, q4, n, [Member(k, v)], [v])
  {
    hide GetInt, GetString, GetValue, GetDense;
  }

  lemma NamedPut(m: Mode, a: Value, w: Sink, u: Sink, e: Sink)
    requires a.Array? && |a.assoc| == 1 && u == PutString(m, a.assoc[0].key, Emit(w, U29.Put(2 * |a.dense| + 1)))
    requires PutValue(m, a.assoc[0].value, u) == Wrote(true, e)
    ensures PutArray(m, a, w) == PutDense(m, a, 0, Emit(e, U29.Put(1)))
  {
    hide PutString, PutValue, PutDense, U29.Put;
    var t := Emit(w, U29.Put(2 * |a.dense| + 1));
    assert PutAssoc(m, a, 1, e) == Wrote(true, e);
    assert PutAssoc(m, a, 0, t) == Wrote(true, e);
    PutNothing(m, e);
  }

  lemma PutNothing(m: Mode, w: Sink)
    ensures PutString(m, [], w) == Emit(w, U29.Put(1))
  {
  }

  ghost predicate PlainNamed(a: Value, under: nat -> byte)
  {
    && a.Array? && |a.assoc| == 1 && |a.dense| < 0x800_0000
    && a.assoc[0].key != [] && GoodString(a.assoc[0].key, under) && Plain(a.assoc[0].value, under)
    && forall i | 0 <= i < |a.dense| :: Plain(a.dense[i], under)
  }

  /** An array with one named entry, from any state of the tables: the entry is read under its key, and once more as
      the first of the elements, in front of those there were. */
  lemma NamedArray(m: Mode, a: Value, w: Sink, x: Sink, buf: bytes)
    requires a.Array? && PlainNamed(a, m.under)
    requires PutValue(m, a, w) == Wrote(true, x) && Bounded(m.tabled, x) && x.out <= buf
    ensures var v := Reread(a.assoc[0].value);
      GetValue(buf, At(w)) == Got(Array([Member(a.assoc[0].key, v)], [v] + RereadDense(a, 0)), At(x))
  {
    hide PlainNamed, PutArray, GetArray, GetObject, GetString, GetInt, GetNumber, GetDate, Reread, Bounded;
    var w1 := Emit(w, [9]);
    GrowArray(m, a, w1);
    TagBack(w, 9, x, buf);
    NamedBack(m, a, w1, x, buf);
  }

  lemma NamedBack(m: Mode, a: Value, w: Sink, x: Sink, buf: bytes)
    requires PlainNamed(a, m.under)
    requires PutArray(m, a, w) == Wrote(true, x) && Bounded(m.tabled, x) && x.out <= buf
    ensures var v := Reread(a.assoc[0].value);
      GetArray(buf, At(w)) == Got(Array([Member(a.assoc[0].key, v)], [v] + RereadDense(a, 0)), At(x))
  {
    hide PutString, PutValue, PutDense, GetDense, GetValue, GetString, GetInt, U29.Put, Reread, RereadDense, Plain;
    hide GoodString, GetArray, Bounded, Rep;
    var n, k, v := |a.dense|, a.assoc[0].key, a.assoc[0].value;
    var t := Emit(w, U29.Put(2 * n + 1));
    var u := PutString(m, k, t);
    NamedWritten(m, a, w, t, u, x);
    var e := PutValue(m, v, u);
    var z := Emit(e.sink, U29.Put(1));
    NamedPut(m, a, w, u, e.sink);
    GrowDense(m, a, 0, z);
    GrowValue(m, v, u);
    GrowString(m, k, t);
    ExtendsBuffer(z, x, buf);
    ExtendsBuffer(e.sink, z, buf);
    ExtendsBuffer(u, e.sink, buf);
    ExtendsBuffer(t, u, buf);
    IntBack(w, 2 * n + 1, buf);
    assert Rep(2 * n + 1) == 2 * n + 1;
    StringBack(m, k, t, buf);
    ValueBack(m, v, u, e, buf);
    EmptyBack(e.sink, buf);
    NamedFrom(buf, At(w), n, At(t), k, At(u), Reread(v), At(e.sink), At(z));
    DenseBack(m, a, 0, [Reread(v)], z, Wrote(true, x), buf);
    NamedDense(buf, At(z), n, [Member(k, Reread(v))], [Reread(v)]);
  }

  lemma NamedWritten(m: Mode, a: Value, w: Sink, t: Sink, u: Sink, x: Sink)
    requires a.Array? && |a.assoc| == 1 && PutArray(m, a, w) == Wrote(true, x)
    requires t == Emit(w, U29.Put(2 * |a.dense| + 1)) && u == PutString(m, a.assoc[0].key, t)
    ensures PutValue(m, a.assoc[0].value, u).ok
  {
    hide PutString, PutValue, PutDense, U29.Put;
  }
}
