/**
 UTF-8 as Python encodes and decodes it, section 3 of RFC 3629. A character here is a Unicode scalar value, so the lone
 surrogates that Python refuses to encode do not arise.
 */
module Utf8 {
  import opened Common

  type Byte = b: int | 0 <= b < 256

  /** The last six bits, as a continuation byte. */
  function Low(x: nat): Byte { 0x80 + x % 0x40 }

  function EncodeChar(c: char): (bs: seq<Byte>)
    ensures 1 <= |bs| <= 4
  {
    var x := c as int;
    var y := x / 0x40;
    var z := y / 0x40;
    if x < 0x80 then [x]
    else if x < 0x800 then [0xC0 + y, Low(x)]
    else if x < 0x10000 then [0xE0 + z, Low(y), Low(x)]
    else [0xF0 + z / 0x40, Low(z), Low(y), Low(x)]
  }

  function Encode(s: string): seq<Byte> {
    if s == "" then [] else EncodeChar(s[0]) + Encode(s[1..])
  }

  predicate Tail(b: Byte) {
    0x80 <= b < 0xC0
  }

  function Join(high: int, b: Byte): int { high * 0x40 + (b as int - 0x80) }

  function Two(a: Byte, b: Byte): int { Join(a as int - 0xC0, b) }

  function Three(a: Byte, b: Byte, c: Byte): int { Join(Join(a as int - 0xE0, b), c) }

  function Four(a: Byte, b: Byte, c: Byte, d: Byte): int { Join(Join(Join(a as int - 0xF0, b), c), d) }

  /** The character that well-formed bytes begin with: section 4 of RFC 3629, which shuts out overlong forms, surrogates
      and everything above U+10FFFF by the range of the second byte. */
  function First(bs: seq<Byte>): Option<char> {
    if bs == [] then None
    else if bs[0] < 0x80 then Some(bs[0] as char)
    else if 0xC2 <= bs[0] < 0xE0 then
      if |bs| >= 2 && Tail(bs[1]) then Some(Two(bs[0], bs[1]) as char) else None
    else if 0xE0 <= bs[0] < 0xF0 then
      if |bs| >= 3 && Tail(bs[1]) && Tail(bs[2])
         && (bs[0] == 0xE0 ==> bs[1] >= 0xA0) && (bs[0] == 0xED ==> bs[1] < 0xA0)
      then Some(Three(bs[0], bs[1], bs[2]) as char) else None
    else if 0xF0 <= bs[0] < 0xF5 then
      if |bs| >= 4 && Tail(bs[1]) && Tail(bs[2]) && Tail(bs[3])
         && (bs[0] == 0xF0 ==> bs[1] >= 0x90) && (bs[0] == 0xF4 ==> bs[1] < 0x90)
      then Some(Four(bs[0], bs[1], bs[2], bs[3]) as char) else None
    else None
  }

  lemma JoinSplits(x: nat)
    ensures Tail(Low(x)) && Join(x / 0x40, Low(x)) == x
  {
  }

  lemma SplitJoins(high: nat, b: Byte)
    requires Tail(b)
    ensures Join(high, b) >= 0 && Join(high, b) / 0x40 == high && Low(Join(high, b)) == b
  {
  }

  lemma FirstOfEncoding(c: char, rest: seq<Byte>)
    ensures First(EncodeChar(c) + rest) == Some(c)
  {
    var x := c as int;
    var bs := EncodeChar(c);
    assert forall i :: 0 <= i < |bs| ==> (bs + rest)[i] == bs[i];
    JoinSplits(x);
    JoinSplits(x / 0x40);
    JoinSplits(x / 0x40 / 0x40);
  }

  /** The table of section 3 of RFC 3629: the number of bytes by the range of the character, the marks in the high bits,
      and the character's bits in the rest. */
  lemma EncodesAsTabulated(c: char)
    ensures var x, bs := c as int, EncodeChar(c);
            if x <= 0x7F then |bs| == 1 && bs[0] == x
            else if x <= 0x7FF then |bs| == 2 && 0xC0 <= bs[0] <= 0xDF && Tail(bs[1]) && x == (bs[0] as int - 0xC0) * 64 + (bs[1] as int - 0x80)
            else if x <= 0xFFFF then
              && |bs| == 3 && 0xE0 <= bs[0] <= 0xEF && Tail(bs[1]) && Tail(bs[2])
              && x == (bs[0] as int - 0xE0) * 4096 + (bs[1] as int - 0x80) * 64 + (bs[2] as int - 0x80)
            else
              && |bs| == 4 && 0xF0 <= bs[0] <= 0xF7 && Tail(bs[1]) && Tail(bs[2]) && Tail(bs[3])
              && x == (bs[0] as int - 0xF0) * 262144 + (bs[1] as int - 0x80) * 4096 + (bs[2] as int - 0x80) * 64 + (bs[3] as int - 0x80)
  {
    var x := c as int;
    JoinSplits(x);
    JoinSplits(x / 0x40);
    JoinSplits(x / 0x40 / 0x40);
  }

  lemma EncodesTwo(a: Byte, b: Byte)
    requires 0xC2 <= a < 0xE0 && Tail(b)
    ensures EncodeChar(Two(a, b) as char) == [a, b]
  {
    SplitJoins(a as int - 0xC0, b);
  }

  lemma EncodesThree(a: Byte, b: Byte, c: Byte)
    requires 0xE0 <= a < 0xF0 && Tail(b) && Tail(c)
    requires (a == 0xE0 ==> b >= 0xA0) && (a == 0xED ==> b < 0xA0)
    ensures EncodeChar(Three(a, b, c) as char) == [a, b, c]
  {
    SplitJoins(a as int - 0xE0, b);
    SplitJoins(Join(a as int - 0xE0, b), c);
  }

  lemma EncodesFour(a: Byte, b: Byte, c: Byte, d: Byte)
    requires 0xF0 <= a < 0xF5 && Tail(b) && Tail(c) && Tail(d)
    requires (a == 0xF0 ==> b >= 0x90) && (a == 0xF4 ==> b < 0x90)
    ensures EncodeChar(Four(a, b, c, d) as char) == [a, b, c, d]
  {
    SplitJoins(a as int - 0xF0, b);
    SplitJoins(Join(a as int - 0xF0, b), c);
    SplitJoins(Join(Join(a as int - 0xF0, b), c), d);
  }

  lemma FirstIsEncoded(bs: seq<Byte>)
    requires First(bs).Some?
    ensures EncodeChar(First(bs).value) <= bs
  {
    if bs[0] < 0x80 {
    } else if bs[0] < 0xE0 {
      EncodesTwo(bs[0], bs[1]);
    } else if bs[0] < 0xF0 {
      EncodesThree(bs[0], bs[1], bs[2]);
    } else {
      EncodesFour(bs[0], bs[1], bs[2], bs[3]);
    }
  }

  /** Strict decoding. */
  function Decode(bs: seq<Byte>): Option<string>
    decreases |bs|
  {
    if bs == [] then Some("")
    else
      match First(bs)
      case None => None
      case Some(c) =>
        FirstIsEncoded(bs);
        match Decode(bs[|EncodeChar(c)|..])
        case None => None
        case Some(s) => Some([c] + s)
  }

  /** Decoding that passes over what is ill-formed: each byte no character begins at is dropped. */
  function DecodeIgnoring(bs: seq<Byte>): string
    decreases |bs|
  {
    if bs == [] then ""
    else
      match First(bs)
      case None => DecodeIgnoring(bs[1..])
      case Some(c) => FirstIsEncoded(bs); [c] + DecodeIgnoring(bs[|EncodeChar(c)|..])
  }

  lemma {:induction false} DecodeUndoesEncode(s: string)
    ensures Decode(Encode(s)) == Some(s)
  {
    if s != "" {
      FirstOfEncoding(s[0], Encode(s[1..]));
      assert Encode(s)[|EncodeChar(s[0])|..] == Encode(s[1..]);
      DecodeUndoesEncode(s[1..]);
      assert [s[0]] + s[1..] == s;
    }
  }

  lemma {:induction false} EncodeUndoesDecode(bs: seq<Byte>)
    requires Decode(bs).Some?
    ensures Encode(Decode(bs).value) == bs
    decreases |bs|
  {
    if bs != [] {
      var c := First(bs).value;
      FirstIsEncoded(bs);
      var rest := bs[|EncodeChar(c)|..];
      EncodeUndoesDecode(rest);
      assert ([c] + Decode(rest).value)[1..] == Decode(rest).value;
      assert bs == EncodeChar(c) + rest;
    }
  }

  /** Strict decoding accepts exactly the encodings, and undoes encoding. */
  lemma DecodesExactlyEncodings(bs: seq<Byte>, s: string)
    ensures Decode(bs) == Some(s) <==> bs == Encode(s)
  {
    DecodeUndoesEncode(s);
    if Decode(bs).Some? { EncodeUndoesDecode(bs); }
  }

  /** A cut inside a character leaves bytes that begin no character, at any of them. */
  lemma {:induction false} CutLeavesNothing(c: char, n: nat)
    requires n < |EncodeChar(c)|
    ensures DecodeIgnoring(EncodeChar(c)[..n]) == ""
  {
    var bs := EncodeChar(c)[..n];
    if n >= 1 {
      assert First(bs).None?;
      TailsLeaveNothing(bs[1..]);
    }
  }

  lemma {:induction false} TailsLeaveNothing(bs: seq<Byte>)
    requires forall b :: b in bs ==> Tail(b)
    ensures DecodeIgnoring(bs) == ""
  {
    if bs != [] {
      assert First(bs).None? by { assert Tail(bs[0]); }
      TailsLeaveNothing(bs[1..]);
    }
  }

  lemma {:induction false} EncodeAppend(s: string, t: string)
    ensures Encode(s + t) == Encode(s) + Encode(t)
  {
    if s == "" {
      assert s + t == t;
    } else {
      assert (s + t)[1..] == s[1..] + t;
      EncodeAppend(s[1..], t);
    }
  }
}
