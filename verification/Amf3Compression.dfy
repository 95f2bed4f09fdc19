/** What the string table buys: the same value in no more bytes. */
module Amf3Compression {
  import opened U29
  import opened Amf3Value
  import opened Amf3Writer
  import opened Amf3Parser
  import opened Amf3RoundTrip
  import opened Amf3Codec

  /** What a writer without a string table would make of `v`. */
  function Uncompressed(v: Value, under: nat -> byte): Wrote
  {
    PutValue(Mode(false, under), v, EMPTY)
  }

  /** Both encodings are read as the very same tree. */
  lemma SameMeaning(v: Value, under: nat -> byte, tail: bytes, tail2: bytes)
    requires Plain(v, under)
    requires Bounded(true, Written(v, under).sink) && Bounded(false, Uncompressed(v, under).sink)
    ensures var r := GetValue(Written(v, under).sink.out + tail, START);
      var r2 := GetValue(Uncompressed(v, under).sink.out + tail2, START);
      r.Got? && r2.Got? && r.value == r2.value
  {
    hide Plain, PutValue, GetValue, Reread;
    var x, y := Written(v, under), Uncompressed(v, under);
    assert x.sink.out <= x.sink.out + tail && y.sink.out <= y.sink.out + tail2;
    ValueBack(Mode(true, under), v, EMPTY, x, x.sink.out + tail);
    ValueBack(Mode(false, under), v, EMPTY, y, y.sink.out + tail2);
  }

  /** When a reference takes more bytes than the string it stands for. */
  lemma ReferenceCost(i: nat, s: bytes)
    requires i < 0x800_0000 && 0 < |s|
    ensures |U29.Put(2 * i)| > |U29.Put(2 * |s| + 1) + s| <==>
            (i >= 8192 && |s| == 1) || (i >= 0x10_0000 && |s| == 2)
  {
    ReferenceLength(i);
    if |s| <= 2 { assert U29.Put(2 * |s| + 1) == [2 * |s| + 1]; }
    hide U29.Put;
  }

  lemma ReferenceLength(i: nat)
    requires i < 0x800_0000
    ensures |U29.Put(2 * i)| == if i < 64 then 1 else if i < 8192 then 2 else if i < 0x10_0000 then 3 else 4
  {
    assert 2 * i % 0x2000_0000 == 2 * i;
  }

  lemma ShorterString(under: nat -> byte, s: bytes, w: Sink, u: Sink)
    requires |w.out| <= |u.out| && |w.strs| <= 8192
    ensures |PutString(Mode(true, under), s, w).out| <= |PutString(Mode(false, under), s, u).out|
  {
    var i := IndexOf(w.strs, s);
    if s != [] && i >= 0 { ReferenceCost(i, s); }
    hide U29.Put, StrCpy, IndexOf;
  }

  lemma {:induction false} ShorterNames(under: nat -> byte, names: seq<bytes>, i: nat, w: Sink, u: Sink)
    requires i <= |names| && |w.out| <= |u.out|
    requires |PutNames(Mode(true, under), names, i, w).strs| <= 8192
    ensures |PutNames(Mode(true, under), names, i, w).out| <= |PutNames(Mode(false, under), names, i, u).out|
    decreases |names| - i
  {
    hide PutString;
    if i < |names| {
      var x, y := PutString(Mode(true, under), names[i], w), PutString(Mode(false, under), names[i], u);
      GrowNames(Mode(true, under), names, i + 1, x);
      GrowString(Mode(true, under), names[i], w);
      ShorterString(under, names[i], w, u);
      ShorterNames(under, names, i + 1, x, y);
    }
  }

  lemma ShorterDef(under: nat -> byte, def: ClassDef, w: Sink, u: Sink)
    requires |w.out| <= |u.out| && w.defs == u.defs
    requires |PutDef(Mode(true, under), def, w).strs| <= 8192
    ensures |PutDef(Mode(true, under), def, w).out| <= |PutDef(Mode(false, under), def, u).out|
    ensures PutDef(Mode(true, under), def, w).defs == PutDef(Mode(false, under), def, u).defs
  {
    hide PutString, PutNames, U29.Put, IndexOf;
    if def !in w.defs {
      var t := Emit(w, U29.Put(Traits(def))).(defs := w.defs + [def]);
      var t2 := Emit(u, U29.Put(Traits(def))).(defs := w.defs + [def]);
      var x, y := PutString(Mode(true, under), def.name, t), PutString(Mode(false, under), def.name, t2);
      GrowNames(Mode(true, under), def.properties, 0, x);
      GrowString(Mode(true, under), def.name, t);
      ShorterString(under, def.name, t, t2);
      ShorterNames(under, def.properties, 0, x, y);
      StringIgnoresDefs(Mode(true, under), def.name, t, t.defs);
      StringIgnoresDefs(Mode(false, under), def.name, t2, t.defs);
      NamesIgnoreDefs(Mode(true, under), def.properties, 0, x, t.defs);
      NamesIgnoreDefs(Mode(false, under), def.properties, 0, y, t.defs);
    }
  }

  lemma {:induction false} ShorterTokens(under: nat -> byte, ts: seq<Token>, w: Sink, u: Sink)
    requires |w.out| <= |u.out| && w.defs == u.defs
    requires |PutTokens(Mode(true, under), ts, w).sink.strs| <= 8192
    ensures |PutTokens(Mode(true, under), ts, w).sink.out| <= |PutTokens(Mode(false, under), ts, u).sink.out|
  {
    hide PutString, PutDef;
    if ts != [] && !ts[0].Throw? {
      var x, y := PutToken(Mode(true, under), ts[0], w), PutToken(Mode(false, under), ts[0], u);
      GrowTokens(Mode(true, under), ts[1..], x);
      match ts[0] {
        case Text(s) =>
          GrowString(Mode(true, under), s, w);
          ShorterString(under, s, w, u);
          StringIgnoresDefs(Mode(true, under), s, w, w.defs);
          StringIgnoresDefs(Mode(false, under), s, u, u.defs);
        case Class(def) => ShorterDef(under, def, w, u);
        case _ =>
      }
      ShorterTokens(under, ts[1..], x, y);
    }
  }

  /** With up to 8192 distinct strings the table never makes the output longer. */
  lemma NeverLonger(v: Value, under: nat -> byte)
    requires |Written(v, under).sink.strs| <= 8192
    ensures |Written(v, under).sink.out| <= |Uncompressed(v, under).sink.out|
  {
    hide PutValue, PutTokens, Tokens;
    ValueTokens(Mode(true, under), v, EMPTY);
    ValueTokens(Mode(false, under), v, EMPTY);
    ShorterTokens(under, Tokens(v), EMPTY, EMPTY);
  }
}
