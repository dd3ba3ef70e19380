/**
 * UTF-8 (RFC 3629) over Unicode scalar values.
 *
 * The upload handler turns the script text into bytes with
 * `Buffer.from(scriptContent, "utf-8")` before encoding it as Base64.
 * A Dafny `char` is a Unicode scalar value, so `string` is exactly the
 * text that this conversion maps one-to-one onto bytes.
 */
module Utf8 {
  import opened Wrappers
  import opened Bytes

  /** A byte of the form 10xxxxxx, which continues a multi-byte sequence. */
  predicate IsContinuation(b: byte) {
    0x80 <= b < 0xC0
  }

  /** The length of the sequence that a lead byte announces; 0 when it cannot start one. */
  function LeadWidth(b: byte): (width: nat) {
    if b < 0x80 then 1
    else if 0xC0 <= b < 0xE0 then 2
    else if 0xE0 <= b < 0xF0 then 3
    else if 0xF0 <= b < 0xF8 then 4
    else 0
  }

  /** The smallest code point that needs `width` bytes (shorter forms are overlong). */
  function MinCodePoint(width: nat): (least: nat) {
    if width <= 1 then 0
    else if width == 2 then 0x80
    else if width == 3 then 0x800
    else 0x10000
  }

  /** True when `n` may be turned into a `char`. */
  predicate IsScalarValue(n: int) {
    (0 <= n < 0xD800) || (0xE000 <= n <= 0x10FFFF)
  }

  /** The bytes of one character. */
  function EncodeChar(c: char): (r: seq<byte>)
    ensures 1 <= |r| <= 4 && LeadWidth(r[0]) == |r|
    ensures forall i :: 1 <= i < |r| ==> IsContinuation(r[i])
    ensures MinCodePoint(|r|) <= c as int
  {
    var n := c as int;
    if n < 0x80 then [n]
    else if n < 0x800 then [0xC0 + n / 64, 0x80 + n % 64]
    else if n < 0x10000 then [0xE0 + n / 4096, 0x80 + n / 64 % 64, 0x80 + n % 64]
    else [0xF0 + n / 0x40000, 0x80 + n / 4096 % 64, 0x80 + n / 64 % 64, 0x80 + n % 64]
  }

  /** The code point that a well-shaped sequence carries, before any range check. */
  function CodePoint(b: seq<byte>): (n: int)
    requires 1 <= |b| <= 4
  {
    if |b| == 1 then b[0] as int
    else if |b| == 2 then Payload2(b[0], b[1])
    else if |b| == 3 then Payload3(b[0], b[1], b[2])
    else Payload4(b[0], b[1], b[2], b[3])
  }

  function Payload2(b0: int, b1: int): (n: int) {
    (b0 - 0xC0) * 64 + (b1 - 0x80)
  }

  function Payload3(b0: int, b1: int, b2: int): (n: int) {
    (b0 - 0xE0) * 4096 + (b1 - 0x80) * 64 + (b2 - 0x80)
  }

  function Payload4(b0: int, b1: int, b2: int, b3: int): (n: int) {
    (b0 - 0xF0) * 0x40000 + (b1 - 0x80) * 4096 + (b2 - 0x80) * 64 + (b3 - 0x80)
  }

  /** Every byte after the lead byte is a continuation byte. */
  predicate ContinuationsFollow(b: seq<byte>) {
    forall i :: 1 <= i < |b| ==> IsContinuation(b[i])
  }

  /** The character one sequence stands for, or `None` for a malformed, overlong or out-of-range one. */
  function DecodeChar(b: seq<byte>): (r: Option<char>)
    requires 1 <= |b| <= 4 && LeadWidth(b[0]) == |b|
  {
    if !ContinuationsFollow(b) then None
    else
      var n := CodePoint(b);
      if n < MinCodePoint(|b|) || !IsScalarValue(n) then None
      else Some(n as char)
  }

  /** The UTF-8 bytes of a text. */
  function Encode(s: string): (r: seq<byte>)
    ensures |s| <= |r| <= 4 * |s|
    decreases |s|
  {
    if s == [] then [] else EncodeChar(s[0]) + Encode(s[1..])
  }

  /** The text that a byte sequence encodes, or `None` when it is not valid UTF-8. */
  function Decode(b: seq<byte>): (r: Option<string>)
    decreases |b|
  {
    if b == [] then Some([])
    else
      var w := LeadWidth(b[0]);
      if w == 0 || |b| < w then None
      else
        var c, rest := DecodeChar(b[..w]), Decode(b[w..]);
        if c.None? || rest.None? then None else Some([c.value] + rest.value)
  }

  lemma Split3(n: int)
    requires 0 <= n < 0x10000
    ensures Payload3(0xE0 + n / 4096, 0x80 + n / 64 % 64, 0x80 + n % 64) == n
  {
    assert n / 64 == 64 * (n / 4096) + n / 64 % 64;
  }

  lemma Split4(n: int)
    requires 0 <= n < 0x110000
    ensures Payload4(0xF0 + n / 0x40000, 0x80 + n / 4096 % 64, 0x80 + n / 64 % 64, 0x80 + n % 64) == n
  {
    assert n / 4096 == 64 * (n / 0x40000) + n / 4096 % 64;
    assert n / 64 == 64 * (n / 4096) + n / 64 % 64;
  }

  /** Decoding the bytes of one character gives that character back. */
  lemma DecodeEncodeChar(c: char)
    ensures DecodeChar(EncodeChar(c)) == Some(c)
  {
    var n := c as int;
    var r := EncodeChar(c);
    if n < 0x80 {
    } else if n < 0x800 {
    } else if n < 0x10000 {
      Split3(n);
    } else {
      Split4(n);
    }
    assert CodePoint(r) == n;
  }

  lemma Join3(b0: int, b1: int, b2: int)
    requires 0xE0 <= b0 < 0xF0 && 0x80 <= b1 < 0xC0 && 0x80 <= b2 < 0xC0
    ensures var n := Payload3(b0, b1, b2);
      n / 4096 == b0 - 0xE0 && n / 64 % 64 == b1 - 0x80 && n % 64 == b2 - 0x80
  {
    var n := Payload3(b0, b1, b2);
    assert n / 64 == (b0 - 0xE0) * 64 + (b1 - 0x80);
  }

  lemma Join4(b0: int, b1: int, b2: int, b3: int)
    requires 0xF0 <= b0 < 0xF8 && 0x80 <= b1 < 0xC0 && 0x80 <= b2 < 0xC0 && 0x80 <= b3 < 0xC0
    ensures var n := Payload4(b0, b1, b2, b3);
      n / 0x40000 == b0 - 0xF0 && n / 4096 % 64 == b1 - 0x80 && n / 64 % 64 == b2 - 0x80 && n % 64 == b3 - 0x80
  {
    var n := Payload4(b0, b1, b2, b3);
    assert n / 64 == ((b0 - 0xF0) * 64 + (b1 - 0x80)) * 64 + (b2 - 0x80);
    assert n / 4096 == (b0 - 0xF0) * 64 + (b1 - 0x80);
  }

  /** A sequence that decodes to a character is exactly that character's encoding. */
  lemma EncodeDecodeChar(b: seq<byte>)
    requires 1 <= |b| <= 4 && LeadWidth(b[0]) == |b|
    requires DecodeChar(b).Some?
    ensures EncodeChar(DecodeChar(b).value) == b
  {
    assert ContinuationsFollow(b);
    if |b| == 3 {
      Join3(b[0], b[1], b[2]);
    } else if |b| == 4 {
      Join4(b[0], b[1], b[2], b[3]);
    }
  }

  /** Decoding undoes encoding: the script text comes back unchanged. */
  lemma {:induction false} DecodeEncode(s: string)
    ensures Decode(Encode(s)) == Some(s)
    decreases |s|
  {
    if s != [] {
      var head := EncodeChar(s[0]);
      var b := Encode(s);
      assert b == head + Encode(s[1..]);
      assert b[..|head|] == head;
      assert b[|head|..] == Encode(s[1..]);
      DecodeEncodeChar(s[0]);
      DecodeEncode(s[1..]);
      assert [s[0]] + s[1..] == s;
    }
  }

  /** Encoding works character by character. */
  lemma EncodeCons(c: char, rest: string)
    ensures Encode([c] + rest) == EncodeChar(c) + Encode(rest)
  {
    var s := [c] + rest;
    assert s[0] == c && s[1..] == rest;
  }

  /** A non-empty sequence that decodes splits into its first character's bytes and a decodable rest. */
  lemma DecodeUnfold(b: seq<byte>)
    requires b != [] && Decode(b).Some?
    ensures var w := LeadWidth(b[0]);
      1 <= w <= |b| && w <= 4 && DecodeChar(b[..w]).Some? && Decode(b[w..]).Some? &&
      Decode(b).value == [DecodeChar(b[..w]).value] + Decode(b[w..]).value
  {
  }

  /** The inductive step of EncodeDecode: the first character's bytes, then the rest. */
  lemma EncodeDecodeStep(b: seq<byte>)
    requires b != [] && Decode(b).Some?
    requires 1 <= LeadWidth(b[0]) <= |b| && Decode(b[LeadWidth(b[0])..]).Some?
    requires Encode(Decode(b[LeadWidth(b[0])..]).value) == b[LeadWidth(b[0])..]
    ensures Encode(Decode(b).value) == b
  {
    DecodeUnfold(b);
    var w := LeadWidth(b[0]);
    var c := DecodeChar(b[..w]).value;
    var rest := Decode(b[w..]).value;
    EncodeDecodeChar(b[..w]);
    EncodeCons(c, rest);
    calc {
      Encode(Decode(b).value);
      Encode([c] + rest);
      EncodeChar(c) + Encode(rest);
      b[..w] + b[w..];
      b;
    }
  }

  /** Every byte sequence that decodes is the encoding of what it decodes to. */
  lemma {:induction false} EncodeDecode(b: seq<byte>)
    requires Decode(b).Some?
    ensures Encode(Decode(b).value) == b
    decreases |b|
  {
    if b != [] {
      DecodeUnfold(b);
      EncodeDecode(b[LeadWidth(b[0])..]);
      EncodeDecodeStep(b);
    }
  }

  /** The encoding is empty exactly when the text is. */
  lemma EncodeEmpty(s: string)
    ensures Encode(s) == [] <==> s == []
  {
  }
}
