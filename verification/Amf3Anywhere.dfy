/** Which trees make the round trip wherever they are written: the real buffer is not initialised, and so may hold
    anything. */
module Amf3Anywhere {
  import opened U29
  import opened Amf3Value
  import opened Amf3Writer
  import opened Amf3RoundTrip
  import opened Amf3Damage
  import opened Amf3Visible
  import opened Amf3Exact
  import opened Amf3Codec
  import opened Amf3Limits

  /** The length limits of `Plain`. */
  ghost predicate Short(v: Value)
    decreases v
  {
    match v
    case String(s) => |s| < 0x800_0000
    case Array(_, d) => |d| < 0x800_0000 && forall i | 0 <= i < |d| :: Short(d[i])
    case Object(def, ms) =>
      && |def.name| < 0x800_0000 && |def.properties| < 0x100_0000
      && (forall i | 0 <= i < |def.properties| :: |def.properties[i]| < 0x800_0000)
      && (def.dynamic ==> forall j | 0 <= j < |ms| :: |ms[j].key| < 0x800_0000)
      && (forall k | Has(ms, k) :: Short(ms[Find(ms, k)].value))
    case _ => true
  }

  function Fill(b: byte): nat -> byte
  {
    (_: nat) => b
  }

  lemma FillFilled(b: byte)
    ensures Filled(Fill(b))
  {
  }

  /** A string that is not clean is spoilt by some byte behind it. */
  lemma Spoils(s: bytes) returns (b: byte)
    requires !Clean(s)
    ensures !GoodString(s, Fill(b))
  {
    hide StrCpy;
    var k := IndexOf(s, 0);
    CleanIndex(s);
    b := if s[k + 1] == 0 then 1 else 0;
    CopyExact(s, Fill(b), 0);
    assert s[k + 1] != Fill(b)(0 + (k + 1));
    assert StrCpy(s, Fill(b), 0) != s;
  }

  /** A string that is not good for every buffer is not good for some filled one. */
  lemma NotGood(s: bytes) returns (b: byte)
    requires !(Clean(s) && |s| < 0x800_0000)
    ensures !GoodString(s, Fill(b))
  {
    b := 0;
    if !Clean(s) { b := Spoils(s); }
  }

  lemma {:induction false} SimpleIsPlain(v: Value, under: nat -> byte)
    requires Simple(v) && Short(v)
    ensures Plain(v, under)
    decreases v
  {
    hide GoodString, Clean, Find;
    match v
    case String(s) => CleanGood(s, under);
    case Array(_, d) =>
      forall i | 0 <= i < |d| ensures Plain(d[i], under) { SimpleIsPlain(d[i], under); }
    case Object(def, ms) =>
      CleanGood(def.name, under);
      forall i | 0 <= i < |def.properties| ensures GoodString(def.properties[i], under) {
        CleanGood(def.properties[i], under);
      }
      if def.dynamic {
        forall j | 0 <= j < |ms| ensures GoodString(ms[j].key, under) { CleanGood(ms[j].key, under); }
      }
      forall k | Has(ms, k) ensures Plain(ms[Find(ms, k)].value, under) { SimpleIsPlain(ms[Find(ms, k)].value, under); }
    case _ =>
  }

  /** And every other tree is outside `Plain` for some byte that the buffer may be filled with. */
  lemma {:induction false} SomewhereNot(v: Value) returns (b: byte)
    requires !(Simple(v) && Short(v))
    ensures !Plain(v, Fill(b))
    decreases v
  {
    hide GoodString, Clean, Find;
    b := 0;
    match v
    case String(s) => b := NotGood(s);
    case Array(_, d) =>
      if i :| 0 <= i < |d| && !(Simple(d[i]) && Short(d[i])) { b := SomewhereNot(d[i]); }
    case Object(def, ms) =>
      if !(Clean(def.name) && |def.name| < 0x800_0000) { b := NotGood(def.name); }
      else if i :| 0 <= i < |def.properties| && !(Clean(def.properties[i]) && |def.properties[i]| < 0x800_0000) {
        b := NotGood(def.properties[i]);
      } else if j :| 0 <= j < |ms| && def.dynamic && !(Clean(ms[j].key) && |ms[j].key| < 0x800_0000) {
        b := NotGood(ms[j].key);
      } else if k :| Has(ms, k) && !(Simple(ms[Find(ms, k)].value) && Short(ms[Find(ms, k)].value)) {
        b := SomewhereNot(ms[Find(ms, k)].value);
      }
    case _ =>
  }

  /** The tables stay within what references can name. */
  ghost predicate Fits(v: Value)
  {
    forall under: nat -> byte :: Bounded(true, Written(v, under).sink)
  }

  /** A tree makes the round trip from every buffer exactly when it is simple and within the length limits: no
      undefined value, date, or large integer in it, no named entry in an array, no missing or undeclared member, and
      no zero byte before the last of a string. */
  lemma EverywhereExact(v: Value)
    requires Covered(v) && Fits(v)
    ensures (forall under: nat -> byte :: RoundTrips(v, under)) <==> Simple(v) && Short(v)
  {
    hide Covered, Simple, Short, Plain, RoundTrips, Bounded, Filled;
    if Simple(v) && Short(v) {
      forall under: nat -> byte ensures RoundTrips(v, under) {
        SimpleIsPlain(v, under);
        RoundTrip(v, under);
      }
    } else {
      var b := SomewhereNot(v);
      FillFilled(b);
      RoundTripExact(v, Fill(b));
    }
  }
}
