/** The variable-length integers of AMF 3 (section 1.3.1, "Variable Length Unsigned 29-bit
    Integer Encoding") as src/amf3.cpp writes and reads them. */
module U29 {

  type byte = x: int | 0 <= x < 256

  type bytes = seq<byte>

  /** A C++ `int`. */
  type int32 = x: int | -0x8000_0000 <= x < 0x8000_0000

  /** A number read from a buffer and the position just behind it; `End` when the buffer stops
      in the middle of it. */
  datatype Num = Num(value: int, next: nat) | End

  /** The bytes of the low 29 bits of `n`: seven bits a byte, most significant first, the high bit
      of a byte set when another one follows; a fourth byte carries eight bits. */
  function Put(n: int): (r: bytes)
    ensures 1 <= |r| <= 4
  {
    Masked(n % 0x2000_0000)
  }

  function Masked(m: int): (r: bytes)
    requires 0 <= m < 0x2000_0000
    ensures 1 <= |r| <= 4
  {
    if m >= 0x20_0000 then Four(m)
    else
      var q := m / 128;
      if q >= 128 then [q / 128 + 128, q % 128 + 128, m % 128]
      else if q > 0 then [q + 128, m % 128]
      else [m]
  }

  function Four(m: int): (r: bytes)
    requires 0 <= m < 0x2000_0000
    ensures |r| == 4
  {
    var q := m / 256;
    [q / 128 / 128 + 128, q / 128 % 128 + 128, q % 128 + 128, m % 256]
  }

  /** Sign folding of a 29-bit pattern. */
  function Fold(x: nat): (r: int)
  {
    if x > 0x0FFF_FFFF then x - 0x2000_0000 else x
  }

  /** The rest of a number, when `seen` continuation bytes have contributed `acc`. */
  function Scan(buf: bytes, pos: nat, seen: nat, acc: nat): (r: Num)
    requires seen <= 3
    ensures r.Num? ==> pos < r.next <= |buf|
    ensures r.Num? ==> r.next <= pos + 4 - seen
    decreases 3 - seen
  {
    if pos >= |buf| then End
    else
      var b := buf[pos];
      if seen == 3 then Num(Fold(acc * 256 + b), pos + 1)
      else if b >= 128 then Scan(buf, pos + 1, seen + 1, acc * 128 + (b - 128))
      else Num(Fold(acc * 128 + b), pos + 1)
  }

  /** One step of the reading loop. */
  lemma ScanStep(buf: bytes, pos: nat, seen: nat, acc: nat)
    requires seen <= 3
    ensures pos >= |buf| ==> Scan(buf, pos, seen, acc) == End
    ensures pos < |buf| && seen == 3 ==> Scan(buf, pos, seen, acc) == Num(Fold(acc * 256 + buf[pos]), pos + 1)
    ensures pos < |buf| && seen < 3 && buf[pos] < 128 ==>
              Scan(buf, pos, seen, acc) == Num(Fold(acc * 128 + buf[pos] % 128), pos + 1)
    ensures pos < |buf| && seen < 3 && buf[pos] >= 128 ==>
              Scan(buf, pos, seen, acc) == Scan(buf, pos + 1, seen + 1, acc * 128 + buf[pos] % 128)
  {
  }

  function Get(buf: bytes, pos: nat): (r: Num)
    ensures r.Num? ==> pos < r.next <= |buf| && r.next <= pos + 4
  {
    Scan(buf, pos, 0, 0)
  }

  /** The member of n's residue class modulo 2^29 that lies in [-2^28, 2^28). */
  function Rep(n: int): (r: int)
    ensures -0x1000_0000 <= r < 0x1000_0000
    ensures (n - r) % 0x2000_0000 == 0
    ensures r == n <==> -0x1000_0000 <= n < 0x1000_0000
  {
    Fold(n % 0x2000_0000)
  }

  /** Reading one, two, three or four bytes. */
  lemma ScanBytes(buf: bytes, pos: nat)
    requires pos < |buf|
    ensures buf[pos] < 128 ==> Get(buf, pos) == Num(buf[pos], pos + 1)
    ensures pos + 1 < |buf| && buf[pos] >= 128 > buf[pos + 1] ==>
              Get(buf, pos) == Num(Two(buf, pos), pos + 2)
    ensures pos + 2 < |buf| && buf[pos] >= 128 && buf[pos + 1] >= 128 > buf[pos + 2] ==>
              Get(buf, pos) == Num(Three(buf, pos), pos + 3)
    ensures pos + 3 < |buf| && buf[pos] >= 128 && buf[pos + 1] >= 128 && buf[pos + 2] >= 128 ==>
              Get(buf, pos) == Num(Fold((Three(buf, pos) - 128) * 256 + buf[pos + 3]), pos + 4)
  {
    if pos + 1 < |buf| && buf[pos] >= 128 {
      var two: nat := buf[pos] as int - 128;
      assert Get(buf, pos) == Scan(buf, pos + 1, 1, two);
      if pos + 2 < |buf| && buf[pos + 1] >= 128 {
        assert Get(buf, pos) == Scan(buf, pos + 2, 2, Two(buf, pos) - 128);
        if pos + 3 < |buf| && buf[pos + 2] >= 128 {
          assert Get(buf, pos) == Scan(buf, pos + 3, 3, Three(buf, pos) - 128);
        }
      }
    }
  }

  /** The number of a two-byte encoding. */
  function Two(e: bytes, pos: nat): int
    requires pos + 1 < |e|
  {
    (e[pos] as int - 128) * 128 + e[pos + 1] as int
  }

  /** The number of a three-byte encoding. */
  function Three(e: bytes, pos: nat): int
    requires pos + 2 < |e|
  {
    (Two(e, pos) - 128) * 128 + e[pos + 2] as int
  }

  /** Whatever is written is read back as its representative, and to its last byte. */
  lemma PutGet(out: bytes, n: int, buf: bytes)
    requires out + Put(n) <= buf
    ensures Get(buf, |out|) == Num(Rep(n), |out + Put(n)|)
  {
    var p := |out|;
    var e := Put(n);
    assert forall i | 0 <= i < |e| :: buf[p + i] == (out + e)[p + i] == e[i];
    ScanBytes(buf, p);
    assert buf[p] == e[0];
    if |e| > 1 {
      assert buf[p + 1] == e[1];
      if |e| > 2 {
        assert buf[p + 2] == e[2];
        if |e| > 3 { assert buf[p + 3] == e[3]; }
      }
    }
    Digits(n, buf, p);
  }

  lemma Digits(n: int, buf: bytes, p: nat)
    requires p + |Put(n)| <= |buf| && forall i | 0 <= i < |Put(n)| :: buf[p + i] == Put(n)[i]
    ensures var m := n % 0x2000_0000; var e := Put(n);
      && (|e| == 1 ==> e[0] == m)
      && (|e| == 2 ==> Two(buf, p) == m)
      && (|e| == 3 ==> Three(buf, p) == m)
      && (|e| == 4 ==> (Three(buf, p) - 128) * 256 + buf[p + 3] == m)
  {
    var e := Put(n);
    if |e| > 1 {
      assert buf[p] == e[0] && buf[p + 1] == e[1];
      if |e| > 2 {
        assert buf[p + 2] == e[2];
        if |e| > 3 { assert buf[p + 3] == e[3]; }
      }
    }
  }

  /** The integers that survive a round trip are exactly those of 29-bit two's complement. */
  lemma ExactRange(n: int32)
    ensures Get(Put(n), 0) == Num(n, |Put(n)|) <==> -0x1000_0000 <= n < 0x1000_0000
  {
    assert [] + Put(n) == Put(n);
    PutGet([], n, Put(n));
  }

  /** No encoding is a proper prefix of another; only congruent integers share one. */
  lemma PrefixFree(a: int, b: int)
    requires Put(a) <= Put(b)
    ensures Put(a) == Put(b) && Rep(a) == Rep(b)
  {
    assert [] + Put(a) == Put(a) && [] + Put(b) == Put(b);
    PutGet([], a, Put(b));
    PutGet([], b, Put(b));
  }

  /** What a byte string that is read to its end stands for. */
  lemma Meaning(e: bytes)
    requires Get(e, 0).Num? && Get(e, 0).next == |e|
    ensures 1 <= |e| <= 4
    ensures forall i | 0 <= i < |e| - 1 :: e[i] >= 128
    ensures |e| < 4 ==> e[|e| - 1] < 128
    ensures Get(e, 0).value ==
            if |e| == 1 then e[0] else if |e| == 2 then Two(e, 0) else if |e| == 3 then Three(e, 0)
            else Fold((Three(e, 0) - 128) * 256 + e[3])
  {
    ScanBytes(e, 0);
  }

  /** Every byte string that is read as n's representative is at least as long as n's encoding. */
  lemma Minimal(n: int, e: bytes)
    requires Get(e, 0) == Num(Rep(n), |e|)
    ensures |Put(n)| <= |e|
  {
    Meaning(e);
  }

  /** No leading byte without content: what a writer of shortest encodings never emits. */
  predicate Canonical(e: bytes)
  {
    && (|e| == 2 || |e| == 3 ==> e[0] > 128)
    && (|e| == 4 ==> e[0] > 128 || e[1] >= 192)
  }

  /** Writing again what was read gives the same bytes back exactly for canonical input. */
  lemma GetPut(e: bytes)
    requires Get(e, 0).Num? && Get(e, 0).next == |e|
    ensures Put(Get(e, 0).value) == e <==> Canonical(e)
  {
    Meaning(e);
    var v := Get(e, 0).value;
    if |e| == 1 {
      assert e == [v];
    } else if |e| == 2 {
      PairDigits(e, e[0] as int - 128, e[1]);
    } else if |e| == 3 {
      ShortDigits(e, e[0] as int - 128, e[1] as int - 128, e[2]);
    } else {
      LongDigits(e, e[0] as int - 128, e[1] as int - 128, e[2] as int - 128, e[3]);
    }
  }

  lemma PairDigits(e: bytes, a: int, b: int)
    requires 0 <= a < 128 && 0 <= b < 128 && e == [a + 128, b]
    ensures Put(a * 128 + b) == e <==> a > 0
  {
    assert (a * 128 + b) / 128 == a;
  }

  lemma ShortDigits(e: bytes, a: int, b: int, c: int)
    requires 0 <= a < 128 && 0 <= b < 128 && 0 <= c < 128 && e == [a + 128, b + 128, c]
    ensures Put((a * 128 + b) * 128 + c) == e <==> a > 0
  {
    var q := a * 128 + b;
    var m := q * 128 + c;
    Divide(m, q, c, 128);
    Divide(q, a, b, 128);
    assert m % 0x2000_0000 == m;
    if a == 0 { ShortMasked(m, q, c); } else { LongerMasked(m, q, a, b, c); }
  }

  lemma ShortMasked(m: int, q: int, c: int)
    requires m == q * 128 + c && 0 <= q < 128 && 0 <= c < 128 && m / 128 == q
    ensures |Masked(m)| < 3
  {
  }

  lemma LongerMasked(m: int, q: int, a: int, b: int, c: int)
    requires m == q * 128 + c && q == a * 128 + b && 0 < a < 128 && 0 <= b < 128 && 0 <= c < 128
    requires m / 128 == q && m % 128 == c && q / 128 == a && q % 128 == b
    ensures Masked(m) == [a + 128, b + 128, c]
  {
  }

  lemma LongDigits(e: bytes, a: int, b: int, c: int, d: int)
    requires 0 <= a < 128 && 0 <= b < 128 && 0 <= c < 128 && 0 <= d < 256
    requires e == [a + 128, b + 128, c + 128, d]
    ensures Put(Fold(((a * 128 + b) * 128 + c) * 256 + d)) == e <==> a > 0 || b >= 64
  {
    var p := a * 128 + b;
    var q := p * 128 + c;
    var m := q * 256 + d;
    assert Fold(m) % 0x2000_0000 == m;
    assert m >= 0x20_0000 <==> a > 0 || b >= 64;
    if m >= 0x20_0000 {
      Divide(m, q, d, 256);
      Divide(q, p, c, 128);
      Divide(p, a, b, 128);
      assert Four(m) == e;
    } else {
      assert |Put(m)| < 4;
    }
  }

  lemma Divide(m: int, q: int, r: int, n: int)
    requires m == q * n + r && 0 <= r < n && (n == 128 || n == 256)
    ensures m / n == q && m % n == r
  {
  }
}
