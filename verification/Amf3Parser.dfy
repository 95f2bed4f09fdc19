/** `amf3parser` (src/amf3.cpp:676-1007): what a byte buffer is read as, first as functions, then as the
    class that advances through the buffer. The end of the buffer, which the source does not test,
    counts as a failure, as do all its exceptions. */
module Amf3Parser {
  import opened U29
  import opened Amf3Value
  import Amf3Writer

  /** Where the parser stands and what it can refer back to. Its `objectlist` is never filled. */
  datatype Cursor = Cursor(pos: nat, strs: seq<bytes>, defs: seq<ClassDef>)

  datatype Read<+T> = Got(value: T, next: Cursor) | Fail

  const START := Cursor(0, [], [])

  /** What `ReadDate` returns whatever it reads. */
  const DATETIME: bytes := [100, 97, 116, 101, 116, 105, 109, 101]

  /** A table with more in it, all of it of a length that an inline string can have. */
  ghost predicate Grown(a: seq<bytes>, b: seq<bytes>)
  {
    a <= b && forall i | |a| <= i < |b| :: |b[i]| < 0x800_0000
  }

  ghost predicate Reached(buf: bytes, r: Cursor, x: Cursor)
  {
    r.pos <= x.pos <= |buf| && Grown(r.strs, x.strs)
  }

  /** Reached by reading at least one byte. */
  ghost predicate Past(buf: bytes, r: Cursor, x: Cursor)
  {
    Reached(buf, r, x) && r.pos < x.pos
  }

  function GetInt(buf: bytes, r: Cursor): (x: Read<int>)
    ensures x.Got? ==> Past(buf, r, x.next)
    ensures x.Got? ==> x.next == r.(pos := x.next.pos)
  {
    match U29.Get(buf, r.pos)
    case Num(n, next) => Got(n, r.(pos := next))
    case End => Fail
  }

  function GetNumber(buf: bytes, r: Cursor): (x: Read<Bits>)
    ensures x.Got? ==> Past(buf, r, x.next)
  {
    if r.pos + 8 <= |buf| then Got(Amf3Writer.Reversed(buf[r.pos..r.pos + 8]), r.(pos := r.pos + 8)) else Fail
  }

  /** A reference must hit the table; an inline string must have a length that is not negative. */
  function GetString(buf: bytes, r: Cursor): (x: Read<bytes>)
    ensures x.Got? ==> Past(buf, r, x.next)
  {
    match GetInt(buf, r)
    case Fail => Fail
    case Got(num, q) =>
      var n := num / 2;
      if num % 2 == 0 then
        if 0 <= n < |q.strs| then Got(q.strs[n], q) else Fail
      else if n < 0 || q.pos + n > |buf| then Fail
      else
        var s := buf[q.pos..q.pos + n];
        Got(s, Cursor(q.pos + n, if n > 0 then q.strs + [s] else q.strs, q.defs))
  }

  function GetDate(buf: bytes, r: Cursor): (x: Read<bytes>)
    ensures x.Got? ==> Past(buf, r, x.next)
  {
    match GetInt(buf, r)
    case Fail => Fail
    case Got(num, q) =>
      if num % 2 == 0 then Fail
      else
        match GetNumber(buf, q)
        case Fail => Fail
        case Got(_, q2) => Got(DATETIME, q2)
  }

  function GetNames(buf: bytes, r: Cursor, n: int, acc: seq<bytes>): (x: Read<seq<bytes>>)
    ensures x.Got? ==> Reached(buf, r, x.next) && acc <= x.value
    ensures x.Got? ==> |x.value| == |acc| + if n > 0 then n else 0
    decreases n
  {
    if n <= 0 then (if r.pos <= |buf| then Got(acc, r) else Fail)
    else
      match GetString(buf, r)
      case Fail => Fail
      case Got(s, q) => GetNames(buf, q, n - 1, acc + [s])
  }

  /** A class definition or a reference to one; references to whole objects always throw. */
  function GetDef(buf: bytes, r: Cursor): (x: Read<ClassDef>)
    ensures x.Got? ==> Past(buf, r, x.next)
  {
    match GetInt(buf, r)
    case Fail => Fail
    case Got(flags, q) =>
      if flags % 2 == 0 then Fail
      else if flags / 2 % 2 == 0 then
        var i := flags / 4;
        if 0 <= i < |q.defs| then Got(q.defs[i], q) else Fail
      else
        match GetString(buf, q)
        case Fail => Fail
        case Got(name, q2) =>
          if flags / 4 % 2 == 1 then Fail
          else
            match GetNames(buf, q2, flags / 16, [])
            case Fail => Fail
            case Got(names, q3) =>
              var def := ClassDef(name, flags / 8 % 2 == 1, false, names);
              Got(def, q3.(defs := q3.defs + [def]))
  }

  /** `ReadNextObject`. An unknown type code reads as the integer 0. */
  function GetValue(buf: bytes, r: Cursor): (x: Read<Value>)
    ensures x.Got? ==> Past(buf, r, x.next)
    decreases if r.pos < |buf| then |buf| - r.pos else 0, 3, 0
  {
    if r.pos >= |buf| then Fail
    else
      var q := r.(pos := r.pos + 1);
      match buf[r.pos]
      case 0 => Got(Undefined, q)
      case 1 => Got(Null, q)
      case 2 => Got(False, q)
      case 3 => Got(True, q)
      case 4 => (match GetInt(buf, q) case Fail => Fail case Got(n, q2) => Got(Integer(n), q2))
      case 5 => (match GetNumber(buf, q) case Fail => Fail case Got(b, q2) => Got(Number(b), q2))
      case 6 => (match GetString(buf, q) case Fail => Fail case Got(s, q2) => Got(String(s), q2))
      case 8 => (match GetDate(buf, q) case Fail => Fail case Got(s, q2) => Got(Date(s), q2))
      case 9 => GetArray(buf, q)
      case 10 => GetObject(buf, q)
      case _ => Got(Integer(0), q)
  }

  /** `ReadArray`: at most one associative entry, which also becomes a dense one. */
  function GetArray(buf: bytes, r: Cursor): (x: Read<Value>)
    ensures x.Got? ==> Past(buf, r, x.next) && x.value.Array?
    decreases if r.pos < |buf| then |buf| - r.pos else 0, 2, 0
  {
    match GetInt(buf, r)
    case Fail => Fail
    case Got(num, q) =>
      if num % 2 == 0 then Fail
      else
        match GetString(buf, q)
        case Fail => Fail
        case Got(key, q2) =>
          if key == [] then GetDense(buf, q2, num / 2, [], [])
          else
            match GetValue(buf, q2)
            case Fail => Fail
            case Got(v, q3) =>
              match GetString(buf, q3)
              case Fail => Fail
              case Got(_, q4) => GetDense(buf, q4, num / 2, [Member(key, v)], [v])
  }

  function GetDense(buf: bytes, r: Cursor, n: int, assoc: seq<Member>, acc: seq<Value>): (x: Read<Value>)
    ensures x.Got? ==> Reached(buf, r, x.next) && x.value.Array? && x.value.assoc == assoc && acc <= x.value.dense
    ensures x.Got? ==> |x.value.dense| == |acc| + if n > 0 then n else 0
    decreases if r.pos < |buf| then |buf| - r.pos else 0, 4, n
  {
    if n <= 0 then (if r.pos <= |buf| then Got(Array(assoc, acc), r) else Fail)
    else
      match GetValue(buf, r)
      case Fail => Fail
      case Got(v, q) => GetDense(buf, q, n - 1, assoc, acc + [v])
  }

  function GetObject(buf: bytes, r: Cursor): (x: Read<Value>)
    ensures x.Got? ==> Past(buf, r, x.next) && x.value.Object?
    decreases if r.pos < |buf| then |buf| - r.pos else 0, 2, 0
  {
    match GetDef(buf, r)
    case Fail => Fail
    case Got(def, q) =>
      if def.externalizable then
        match GetValue(buf, q)
        case Fail => Fail
        case Got(v, q2) => Got(Object(def, [Member(Amf3Writer.INNER, v)]), q2)
      else
        match GetSealed(buf, q, def.properties, 0, [])
        case Fail => Fail
        case Got(ms, q2) =>
          if !def.dynamic then Got(Object(def, ms), q2)
          else
            match GetDynamic(buf, q2, ms)
            case Fail => Fail
            case Got(all, q3) => Got(Object(def, all), q3)
  }

  function GetSealed(buf: bytes, r: Cursor, names: seq<bytes>, i: nat, acc: seq<Member>): (x: Read<seq<Member>>)
    requires i <= |names|
    ensures x.Got? ==> Reached(buf, r, x.next) && acc <= x.value
    decreases if r.pos < |buf| then |buf| - r.pos else 0, 4, |names| - i
  {
    if i == |names| then (if r.pos <= |buf| then Got(acc, r) else Fail)
    else
      match GetValue(buf, r)
      case Fail => Fail
      case Got(v, q) => GetSealed(buf, q, names, i + 1, acc + [Member(names[i], v)])
  }

  /** Members by name, up to the first empty name. */
  function GetDynamic(buf: bytes, r: Cursor, acc: seq<Member>): (x: Read<seq<Member>>)
    ensures x.Got? ==> Past(buf, r, x.next) && acc <= x.value
    decreases if r.pos < |buf| then |buf| - r.pos else 0, 4, 0
  {
    match GetString(buf, r)
    case Fail => Fail
    case Got(key, q) =>
      if key == [] then Got(acc, q)
      else
        match GetValue(buf, q)
        case Fail => Fail
        case Got(v, q2) => GetDynamic(buf, q2, acc + [Member(key, v)])
  }

  function FoldSign(integer: nat): (r: int)
    ensures r == Fold(integer)
  {
    if integer > 0x7FFF_FFFF / 8 then integer - 0x2000_0000 else integer
  }

  class Parser {
    const stream: array<byte>
    var position: nat
    var strlist: seq<bytes>
    var deflist: seq<ClassDef>

    ghost function State(): Cursor
      reads this
    {
      Cursor(position, strlist, deflist)
    }

    /** The method succeeded exactly when the function does, with its value and its next state. */
    ghost predicate Agrees<T>(x: Read<T>, ok: bool, value: T)
      reads this
    {
      ok == x.Got? && (ok ==> x == Got(value, State()))
    }

    constructor (stream: array<byte>)
      ensures this.stream == stream && State() == START
    {
      this.stream := stream;
      position := 0;
      strlist, deflist := [], [];
    }

    method ReadInteger() returns (ok: bool, integer: int)
      modifies this`position
      ensures Agrees(GetInt(stream[..], old(State())), ok, integer)
    {
      hide Scan, Fold;
      ghost var buf := stream[..];
      ghost var x := U29.Get(buf, position);
      var seen: nat, acc: nat := 0, 0;
      while true
        invariant seen <= 3 && State() == old(State()).(pos := position)
        invariant Scan(buf, position, seen, acc) == x
        decreases 3 - seen
      {
        ScanStep(buf, position, seen, acc);
        if position >= stream.Length { return false, 0; }
        var b := stream[position];
        position := position + 1;
        if seen == 3 {
          acc := acc * 256 + b;
          break;
        }
        acc := acc * 128 + b % 128;
        if b < 128 { break; }
        seen := seen + 1;
      }
      assert x == Num(Fold(acc), position);
      return true, FoldSign(acc);
    }

    method ReadNumber() returns (ok: bool, bits: Bits)
      modifies this`position
      ensures Agrees(GetNumber(stream[..], old(State())), ok, bits)
    {
      if position + 8 > stream.Length { return false, [0, 0, 0, 0, 0, 0, 0, 0]; }
      var num := new byte[8](i requires 0 <= i < 8 && position + 8 <= stream.Length reads stream, this =>
        stream[position + i]);
      assert num[..] == stream[..][position..position + 8];
      position := position + 8;
      Amf3Writer.ByteSwap5(num);
      return true, num[..];
    }

    method ReadString() returns (ok: bool, str: bytes)
      modifies this`position, this`strlist
      ensures Agrees(GetString(stream[..], old(State())), ok, str)
    {
      str := [];
      var num;
      ok, num := ReadInteger();
      if !ok { return; }
      if num % 2 == 0 {
        if num / 2 < 0 || num / 2 >= |strlist| { return false, []; }
        return true, strlist[num / 2];
      }
      var len := num / 2;
      if len < 0 || position + len > stream.Length { return false, []; }
      str := stream[position..position + len];
      assert str == stream[..][position..position + len];
      position := position + len;
      if |str| > 0 { strlist := strlist + [str]; }
    }

    method ReadDate() returns (ok: bool, date: bytes)
      modifies this`position
      ensures Agrees(GetDate(stream[..], old(State())), ok, date)
    {
      date := DATETIME;
      var num;
      ok, num := ReadInteger();
      if !ok { return; }
      if num % 2 == 0 { return false, date; }
      var val;
      ok, val := ReadNumber();
    }

    method ReadNames(members: int) returns (ok: bool, properties: seq<bytes>)
      modifies this`position, this`strlist
      ensures Agrees(GetNames(stream[..], old(State()), members, []), ok, properties)
    {
      properties := [];
      var i := 0;
      while i < members
        invariant 0 <= i && (members > 0 ==> i <= members)
        invariant deflist == old(deflist)
        invariant GetNames(stream[..], State(), members - i, properties)
                  == GetNames(stream[..], old(State()), members, [])
      {
        var str;
        ok, str := ReadString();
        if !ok { return; }
        properties := properties + [str];
        i := i + 1;
      }
      ok := position <= stream.Length;
    }

    /** The first half of `ReadAMF3Object`. */
    method ReadClassdef() returns (ok: bool, classdef: ClassDef)
      modifies this
      ensures Agrees(GetDef(stream[..], old(State())), ok, classdef)
    {
      classdef := ClassDef([], true, false, []);
      var flags;
      ok, flags := ReadInteger();
      if !ok { return; }
      if flags % 2 == 0 { return false, classdef; }
      if flags / 2 % 2 == 0 {
        if flags / 4 < 0 || flags / 4 >= |deflist| { return false, classdef; }
        return true, deflist[flags / 4];
      }
      var name;
      ok, name := ReadString();
      if !ok { return; }
      if flags / 4 % 2 == 1 { return false, classdef; }
      var properties;
      ok, properties := ReadNames(flags / 16);
      if !ok { return; }
      classdef := ClassDef(name, flags / 8 % 2 == 1, false, properties);
      deflist := deflist + [classdef];
    }

    /** What is left of the buffer; it bounds the nesting. */
    ghost function Left(): nat
      reads this
    {
      if position < stream.Length then stream.Length - position else 0
    }

    method ReadNextObject() returns (ok: bool, obj: Value)
      modifies this
      ensures Agrees(GetValue(stream[..], old(State())), ok, obj)
      decreases Left(), 3, 0
    {
      hide GetString, GetNumber, GetDate, GetArray, GetObject, Past, Grown;
      obj := Null;
      if position >= stream.Length { return false, obj; }
      var b := stream[position];
      position := position + 1;
      ok := true;
      match b
      case 0 => obj := Undefined;
      case 1 =>
      case 2 => obj := False;
      case 3 => obj := True;
      case 4 =>
        var n;
        ok, n := ReadInteger();
        if ok { obj := Integer(n); }
      case 5 =>
        var bits;
        ok, bits := ReadNumber();
        obj := Number(bits);
      case 6 =>
        var str;
        ok, str := ReadString();
        obj := String(str);
      case 8 =>
        var date;
        ok, date := ReadDate();
        obj := Date(date);
      case 9 => ok, obj := ReadArray();
      case 10 => ok, obj := ReadAMF3Object();
      case _ => obj := Integer(0);
    }

    method ReadArray() returns (ok: bool, amfarray: Value)
      modifies this
      ensures Agrees(GetArray(stream[..], old(State())), ok, amfarray)
      decreases Left(), 2, 0
    {
      amfarray := Null;
      var num;
      ok, num := ReadInteger();
      if !ok { return; }
      if num % 2 == 0 { return false, Null; }
      num := num / 2;
      var assoc: seq<Member>, dense: seq<Value> := [], [];
      var key, v;
      ok, key := ReadString();
      if !ok { return; }
      if |key| != 0 {
        ok, v := ReadNextObject();
        if !ok { return; }
        assoc, dense := [Member(key, v)], [v];
        ok, key := ReadString();
        if !ok { return; }
      }
      ok, amfarray := ReadDense(num, assoc, dense);
    }

    method ReadDense(count: int, assoc: seq<Member>, dense: seq<Value>) returns (ok: bool, amfarray: Value)
      modifies this
      ensures Agrees(GetDense(stream[..], old(State()), count, assoc, dense), ok, amfarray)
      decreases Left(), 4, 0
    {
      amfarray := Null;
      var num, elements := count, dense;
      while num > 0
        invariant old(position) <= position
        invariant GetDense(stream[..], State(), num, assoc, elements)
                  == GetDense(stream[..], old(State()), count, assoc, dense)
      {
        var v;
        ok, v := ReadNextObject();
        if !ok { return; }
        elements := elements + [v];
        num := num - 1;
      }
      ok, amfarray := position <= stream.Length, Array(assoc, elements);
    }

    method ReadAMF3Object() returns (ok: bool, obj: Value)
      modifies this
      ensures Agrees(GetObject(stream[..], old(State())), ok, obj)
      decreases Left(), 2, 0
    {
      obj := Null;
      var def, v, members;
      ok, def := ReadClassdef();
      if !ok { return; }
      if def.externalizable {
        ok, v := ReadNextObject();
        obj := Object(def, [Member(Amf3Writer.INNER, v)]);
        return;
      }
      ok, members := ReadSealed(def.properties);
      if !ok { return; }
      if def.dynamic {
        ok, members := ReadDynamic(members);
        if !ok { return; }
      }
      obj := Object(def, members);
    }

    method ReadSealed(names: seq<bytes>) returns (ok: bool, members: seq<Member>)
      modifies this
      ensures Agrees(GetSealed(stream[..], old(State()), names, 0, []), ok, members)
      decreases Left(), 4, 0
    {
      members := [];
      for i := 0 to |names|
        invariant old(position) <= position
        invariant GetSealed(stream[..], State(), names, i, members)
                  == GetSealed(stream[..], old(State()), names, 0, [])
      {
        var v;
        ok, v := ReadNextObject();
        if !ok { return; }
        members := members + [Member(names[i], v)];
      }
      ok := position <= stream.Length;
    }

    method ReadDynamic(acc: seq<Member>) returns (ok: bool, members: seq<Member>)
      modifies this
      ensures Agrees(GetDynamic(stream[..], old(State()), acc), ok, members)
      decreases Left(), 4, 0
    {
      members := acc;
      var key, v;
      ok, key := ReadString();
      if !ok { return; }
      while |key| != 0
        invariant old(position) < position
        invariant GetDynamic(stream[..], old(State()), acc) == AfterKey(stream[..], State(), key, members)
        decreases Left()
      {
        ok, v := ReadNextObject();
        if !ok { return; }
        members := members + [Member(key, v)];
        ok, key := ReadString();
        if !ok { return; }
      }
    }
  }

  /** `GetDynamic` when the next name has been read already. */
  function AfterKey(buf: bytes, q: Cursor, key: bytes, acc: seq<Member>): Read<seq<Member>>
  {
    if key == [] then Got(acc, q)
    else
      match GetValue(buf, q)
      case Fail => Fail
      case Got(v, q2) => GetDynamic(buf, q2, acc + [Member(key, v)])
  }
}
