/** The values that src/amf3.h declares: `amf3object`, `amf3array`, `amf3objectmap`, `amf3classdef`. */
module Amf3Value {
  import opened Sequences
  import opened U29

  /** `amf3classdef`; equality of values is `amf3classdef::IsEqual`. */
  datatype ClassDef = ClassDef(name: bytes, dynamic: bool, externalizable: bool, properties: seq<bytes>)

  /** One entry of an `amf3reflist<amf3object>`: `propnames[i]` with `properties[i]`. */
  datatype Member = Member(key: bytes, value: Value)

  /** The eight bytes of a `double` in memory order. */
  type Bits = s: bytes | |s| == 8 witness [0, 0, 0, 0, 0, 0, 0, 0]

  /** `amf3object`; the type codes 7, 11 and 12, which neither side implements, are left out. */
  datatype Value =
    | Undefined
    | Null
    | False
    | True
    | Integer(n: int32)
    | Number(bits: Bits)
    | String(text: bytes)
    | Date(date: bytes)
    | Array(assoc: seq<Member>, dense: seq<Value>)
    | Object(def: ClassDef, members: seq<Member>)

  /** Position of the first occurrence, or -1. */
  function IndexOf<T(==)>(s: seq<T>, x: T): (r: int)
    ensures -1 <= r < |s|
    ensures r >= 0 ==> s[r] == x && x !in s[..r]
    ensures r < 0 <==> x !in s
  {
    First(s, (y: T) => y == x)
  }

  /** `amf3reflist::Exists`: position of the first member with this key, or -1. */
  function Find(ms: seq<Member>, k: bytes): (r: int)
    ensures -1 <= r < |ms|
    ensures r >= 0 ==> ms[r].key == k && forall j | 0 <= j < r :: ms[j].key != k
    ensures r < 0 ==> forall j | 0 <= j < |ms| :: ms[j].key != k
  {
    First(ms, (m: Member) => m.key == k)
  }

  predicate Has(ms: seq<Member>, k: bytes)
  {
    Find(ms, k) >= 0
  }

  /** The two trees cannot be told apart: equal leaves, arrays element by element, objects of the
      same class answering every key lookup alike, at every depth. */
  ghost predicate Same(v: Value, w: Value)
    decreases v
  {
    match v
    case Array(a, d) =>
      && w.Array?
      && |a| == |w.assoc|
      && |d| == |w.dense|
      && (forall i | 0 <= i < |a| :: a[i].key == w.assoc[i].key && Same(a[i].value, w.assoc[i].value))
      && (forall i | 0 <= i < |d| :: Same(d[i], w.dense[i]))
    case Object(def, ms) =>
      && w.Object?
      && def == w.def
      && (forall k :: Has(ms, k) <==> Has(w.members, k))
      && (forall k | Has(ms, k) && Has(w.members, k) ::
            Same(ms[Find(ms, k)].value, w.members[Find(w.members, k)].value))
    case _ => v == w
  }

  /** The tree that the parser builds from what the writer emits: an object lists its sealed members
      first and then, if its class is dynamic, every member once more. */
  function Reread(v: Value): Value
    decreases v, 1, 0
  {
    match v
    case Array(a, d) => Array([], RereadDense(v, 0))
    case Object(def, ms) => Object(def, RereadSealed(v, 0) + if def.dynamic then RereadDynamic(v, 0) else [])
    case _ => v
  }

  function RereadDense(a: Value, i: nat): (r: seq<Value>)
    requires a.Array? && i <= |a.dense|
    ensures |r| == |a.dense| - i
    decreases a, 0, |a.dense| - i
  {
    if i == |a.dense| then [] else [Reread(a.dense[i])] + RereadDense(a, i + 1)
  }

  function RereadSealed(o: Value, i: nat): (r: seq<Member>)
    requires o.Object? && i <= |o.def.properties|
    decreases o, 0, |o.def.properties| - i
  {
    if i == |o.def.properties| then []
    else
      var k := o.def.properties[i];
      var j := Find(o.members, k);
      (if j >= 0 then [Member(k, Reread(o.members[j].value))] else []) + RereadSealed(o, i + 1)
  }

  function RereadDynamic(o: Value, i: nat): (r: seq<Member>)
    requires o.Object? && i <= |o.members|
    decreases o, 0, |o.members| - i
  {
    if i == |o.members| then []
    else
      var k := o.members[i].key;
      [Member(k, Reread(o.members[Find(o.members, k)].value))] + RereadDynamic(o, i + 1)
  }
}
