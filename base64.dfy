/**
 * Base64 with the standard alphabet and `=` padding (section 4 of RFC 4648),
 * which is what `Buffer#toString("base64")` produces for the stored script.
 * The decoder is strict: it accepts only the canonical encodings
 * (section 3.5 of RFC 4648: unused bits of the last group are zero).
 */
module Base64 {
  import opened Wrappers
  import opened Bytes

  /** Six bits: the value of one Base64 symbol. */
  type sextet = x: int | 0 <= x < 64

  const Pad: char := '='

  /** The symbol for a six-bit value: A-Z, a-z, 0-9, '+', '/' in that order. */
  function Symbol(v: sextet): (c: char)
    ensures c != Pad
  {
    if v < 26 then ('A' as int + v) as char
    else if v < 52 then ('a' as int + (v - 26)) as char
    else if v < 62 then ('0' as int + (v - 52)) as char
    else if v == 62 then '+'
    else '/'
  }

  /** The value of a symbol, or `None` for a character outside the alphabet. */
  function Value(c: char): (v: Option<sextet>) {
    if 'A' <= c <= 'Z' then Some(c as int - 'A' as int)
    else if 'a' <= c <= 'z' then Some(c as int - 'a' as int + 26)
    else if '0' <= c <= '9' then Some(c as int - '0' as int + 52)
    else if c == '+' then Some(62)
    else if c == '/' then Some(63)
    else None
  }

  predicate IsSymbol(c: char) {
    Value(c).Some?
  }

  /** Symbol and Value are inverse on the alphabet. */
  lemma SymbolValue(v: sextet)
    ensures Value(Symbol(v)) == Some(v)
  {
  }

  lemma ValueSymbol(c: char)
    requires IsSymbol(c)
    ensures Symbol(Value(c).value) == c
  {
  }

  /** Four symbols for three bytes. */
  function Quad(b0: byte, b1: byte, b2: byte): (q: seq<char>) {
    [Symbol(b0 / 4), Symbol(b0 % 4 * 16 + b1 / 16), Symbol(b1 % 16 * 4 + b2 / 64), Symbol(b2 % 64)]
  }

  /** The final, padded group for one or two leftover bytes. */
  function PaddedQuad(tail: seq<byte>): (q: seq<char>)
    requires 1 <= |tail| <= 2
  {
    if |tail| == 1 then [Symbol(tail[0] / 4), Symbol(tail[0] % 4 * 16), Pad, Pad]
    else [Symbol(tail[0] / 4), Symbol(tail[0] % 4 * 16 + tail[1] / 16), Symbol(tail[1] % 16 * 4), Pad]
  }

  /** A character that may appear in an encoding: a symbol or padding. */
  predicate IsEncodingChar(c: char) {
    IsSymbol(c) || c == Pad
  }

  /** The Base64 text of a byte sequence. */
  function Encode(b: seq<byte>): (r: seq<char>)
    ensures |r| == 4 * ((|b| + 2) / 3)
    ensures forall i :: 0 <= i < |r| ==> IsEncodingChar(r[i])
    ensures forall i :: 0 <= i < |r| - 2 ==> r[i] != Pad
    decreases |b|
  {
    if |b| == 0 then []
    else if |b| <= 2 then PaddedQuad(b)
    else Quad(b[0], b[1], b[2]) + Encode(b[3..])
  }

  /** Three bytes from four symbols, the reverse of Quad. */
  function Unquad(q: seq<char>): (r: Option<seq<byte>>)
    requires |q| == 4
  {
    if !(IsSymbol(q[0]) && IsSymbol(q[1]) && IsSymbol(q[2]) && IsSymbol(q[3])) then None
    else
      var v0, v1, v2, v3 := Value(q[0]).value, Value(q[1]).value, Value(q[2]).value, Value(q[3]).value;
      Some([v0 * 4 + v1 / 16, v1 % 16 * 16 + v2 / 4, v2 % 4 * 64 + v3])
  }

  /** One or two bytes from a padded final group; its unused bits must be zero. */
  function UnpadQuad(q: seq<char>): (r: Option<seq<byte>>)
    requires |q| == 4
  {
    if !(IsSymbol(q[0]) && IsSymbol(q[1]) && q[3] == Pad) then None
    else
      var v0, v1 := Value(q[0]).value, Value(q[1]).value;
      if q[2] == Pad then
        if v1 % 16 != 0 then None else Some([v0 * 4 + v1 / 16])
      else if !IsSymbol(q[2]) then None
      else
        var v2 := Value(q[2]).value;
        if v2 % 4 != 0 then None else Some([v0 * 4 + v1 / 16, v1 % 16 * 16 + v2 / 4])
  }

  /** The bytes a Base64 text stands for, or `None` when it is not a canonical encoding. */
  function Decode(s: seq<char>): (r: Option<seq<byte>>)
    decreases |s|
  {
    if |s| == 0 then Some([])
    else if |s| < 4 then None
    else if |s| == 4 && s[3] == Pad then UnpadQuad(s)
    else
      match Unquad(s[..4])
      case None => None
      case Some(head) =>
        match Decode(s[4..])
        case None => None
        case Some(rest) => Some(head + rest)
  }

  /** The bit arithmetic of one group: splitting three bytes into sextets and joining them back. */
  lemma SplitJoin(b0: byte, b1: byte, b2: byte)
    ensures var v1, v2 := b0 % 4 * 16 + b1 / 16, b1 % 16 * 4 + b2 / 64;
      b0 / 4 * 4 + v1 / 16 == b0 && v1 % 16 * 16 + v2 / 4 == b1 && v2 % 4 * 64 + b2 % 64 == b2
  {
  }

  lemma JoinSplit(v0: sextet, v1: sextet, v2: sextet, v3: sextet)
    ensures var b0, b1, b2 := v0 * 4 + v1 / 16, v1 % 16 * 16 + v2 / 4, v2 % 4 * 64 + v3;
      0 <= b0 < 256 && 0 <= b1 < 256 && 0 <= b2 < 256 &&
      b0 / 4 == v0 && b0 % 4 * 16 + b1 / 16 == v1 && b1 % 16 * 4 + b2 / 64 == v2 && b2 % 64 == v3
  {
  }

  lemma QuadRoundTrip(b0: byte, b1: byte, b2: byte)
    ensures Unquad(Quad(b0, b1, b2)) == Some([b0, b1, b2])
  {
    var q := Quad(b0, b1, b2);
    SymbolValue(b0 / 4);
    SymbolValue(b0 % 4 * 16 + b1 / 16);
    SymbolValue(b1 % 16 * 4 + b2 / 64);
    SymbolValue(b2 % 64);
    SplitJoin(b0, b1, b2);
  }

  lemma PaddedQuadRoundTrip(tail: seq<byte>)
    requires 1 <= |tail| <= 2
    ensures UnpadQuad(PaddedQuad(tail)) == Some(tail)
  {
    SymbolValue(tail[0] / 4);
    if |tail| == 1 {
      SymbolValue(tail[0] % 4 * 16);
      SplitJoin(tail[0], 0, 0);
      assert tail == [tail[0]];
    } else {
      SymbolValue(tail[0] % 4 * 16 + tail[1] / 16);
      SymbolValue(tail[1] % 16 * 4);
      SplitJoin(tail[0], tail[1], 0);
      assert tail == [tail[0], tail[1]];
    }
  }

  /** One unpadded group followed by the rest decodes group by group. */
  lemma DecodeStep(q: seq<char>, rest: seq<char>)
    requires |q| == 4 && q[3] != Pad && Unquad(q).Some? && Decode(rest).Some?
    ensures Decode(q + rest) == Some(Unquad(q).value + Decode(rest).value)
  {
    var s := q + rest;
    assert s[..4] == q && s[4..] == rest;
  }

  /** Decoding the stored text gives back exactly the bytes that were encoded. */
  lemma {:induction false} DecodeEncode(b: seq<byte>)
    ensures Decode(Encode(b)) == Some(b)
    decreases |b|
  {
    if |b| == 0 {
    } else if |b| <= 2 {
      PaddedQuadRoundTrip(b);
    } else {
      var q := Quad(b[0], b[1], b[2]);
      assert Encode(b) == q + Encode(b[3..]);
      QuadRoundTrip(b[0], b[1], b[2]);
      DecodeEncode(b[3..]);
      DecodeStep(q, Encode(b[3..]));
      assert [b[0], b[1], b[2]] + b[3..] == b;
    }
  }

  lemma UnquadCanonical(q: seq<char>)
    requires |q| == 4 && Unquad(q).Some?
    ensures |Unquad(q).value| == 3
    ensures var t := Unquad(q).value; Quad(t[0], t[1], t[2]) == q
  {
    var v0, v1, v2, v3 := Value(q[0]).value, Value(q[1]).value, Value(q[2]).value, Value(q[3]).value;
    JoinSplit(v0, v1, v2, v3);
    var b0: byte := v0 as int * 4 + v1 as int / 16;
    var b1: byte := v1 as int % 16 * 16 + v2 as int / 4;
    var b2: byte := v2 as int % 4 * 64 + v3 as int;
    assert Unquad(q).value == [b0, b1, b2];
    assert Quad(b0, b1, b2) == [Symbol(v0), Symbol(v1), Symbol(v2), Symbol(v3)];
    ValueSymbol(q[0]);
    ValueSymbol(q[1]);
    ValueSymbol(q[2]);
    ValueSymbol(q[3]);
  }

  lemma UnpadQuadCanonical(q: seq<char>)
    requires |q| == 4 && UnpadQuad(q).Some?
    ensures 1 <= |UnpadQuad(q).value| <= 2
    ensures PaddedQuad(UnpadQuad(q).value) == q
  {
    var v0, v1 := Value(q[0]).value, Value(q[1]).value;
    ValueSymbol(q[0]);
    ValueSymbol(q[1]);
    if q[2] == Pad {
      JoinSplit(v0, v1, 0, 0);
    } else {
      var v2 := Value(q[2]).value;
      ValueSymbol(q[2]);
      JoinSplit(v0, v1, v2, 0);
    }
  }

  /** Every text the decoder accepts is the encoding of what it decodes to: the encoding is canonical. */
  lemma {:induction false} EncodeDecode(s: seq<char>)
    requires Decode(s).Some?
    ensures Encode(Decode(s).value) == s
    decreases |s|
  {
    if |s| == 0 {
    } else if |s| == 4 && s[3] == Pad {
      UnpadQuadCanonical(s);
    } else {
      var head := Unquad(s[..4]).value;
      UnquadCanonical(s[..4]);
      var rest := Decode(s[4..]).value;
      EncodeDecode(s[4..]);
      var b := head + rest;
      assert b[..3] == head && b[3..] == rest;
      assert s == s[..4] + s[4..];
    }
  }
}
