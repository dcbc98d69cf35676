/** UTF-8 as `String::into_bytes` and `String::from_utf8` use it (RFC 3629, section 3). */
module Utf8 {
  import opened Prelude

  predicate Continuation(b: byte) {
    0x80 <= b < 0xC0
  }

  predicate IsScalar(n: int) {
    0 <= n < 0xD800 || 0xE000 <= n < 0x11_0000
  }

  function EncodeChar(c: char): (bs: seq<byte>)
    ensures 1 <= |bs| <= 4
  {
    var n := c as int;
    if n < 0x80 then [n]
    else if n < 0x800 then [0xC0 + n / 0x40, 0x80 + n % 0x40]
    else if n < 0x1_0000 then [0xE0 + n / 0x1000, 0x80 + n / 0x40 % 0x40, 0x80 + n % 0x40]
    else [0xF0 + n / 0x4_0000, 0x80 + n / 0x1000 % 0x40, 0x80 + n / 0x40 % 0x40, 0x80 + n % 0x40]
  }

  /** The width of the sequence its first byte announces, or 0. */
  function Announced(b: byte): nat {
    if b < 0x80 then 1 else if b < 0xC0 then 0 else if b < 0xE0 then 2 else if b < 0xF0 then 3 else if b < 0xF8 then 4
      else 0
  }

  function Low(b: byte): int {
    b as int - 0x80
  }

  function Payload(bs: seq<byte>, width: nat): int
    requires 1 <= width <= 4 && width <= |bs|
  {
    var lead: int := bs[0];
    if width == 1 then lead
    else if width == 2 then (lead - 0xC0) * 0x40 + Low(bs[1])
    else if width == 3 then (lead - 0xE0) * 0x1000 + Low(bs[1]) * 0x40 + Low(bs[2])
    else (lead - 0xF0) * 0x4_0000 + Low(bs[1]) * 0x1000 + Low(bs[2]) * 0x40 + Low(bs[3])
  }

  function Least(width: nat): nat {
    if width <= 1 then 0 else if width == 2 then 0x80 else if width == 3 then 0x800 else 0x1_0000
  }

  /** The character at the front and the width of its encoding; overlong forms, surrogates and
      values out of range are malformed. */
  function DecodeChar(bs: seq<byte>): Option<(char, nat)>
    requires bs != []
  {
    var width := Announced(bs[0]);
    if width == 0 || width > |bs| then None
    else if exists i :: 1 <= i < width && !Continuation(bs[i]) then None
    else
      var n := Payload(bs, width);
      if n < Least(width) || !IsScalar(n) then None else Some((n as char, width))
  }

  lemma CodeShape(c: char)
    ensures var code := EncodeChar(c);
            && Announced(code[0]) == |code| && Least(|code|) <= c as int
            && forall i :: 1 <= i < |code| ==> Continuation(code[i])
  {}

  lemma CodePayload(c: char)
    ensures Payload(EncodeChar(c), |EncodeChar(c)|) == c as int
  {
    var n := c as int;
    assert n == n / 0x1000 * 0x1000 + n / 0x40 % 0x40 * 0x40 + n % 0x40;
    assert n / 0x1000 == n / 0x4_0000 * 0x40 + n / 0x1000 % 0x40;
  }

  lemma CharRoundTrip(c: char, rest: seq<byte>)
    ensures DecodeChar(EncodeChar(c) + rest) == Some((c, |EncodeChar(c)|))
  {
    CodeShape(c);
    CodePayload(c);
    var code := EncodeChar(c);
    PayloadOfPrefix(code, rest);
    assert IsScalar(c as int);
  }

  lemma PayloadOfPrefix(code: seq<byte>, rest: seq<byte>)
    requires 1 <= |code| <= 4
    ensures Payload(code + rest, |code|) == Payload(code, |code|)
    ensures forall i :: 0 <= i < |code| ==> (code + rest)[i] == code[i]
  {}

  lemma LastDigit(n: int, high: int, low: int)
    requires 0 <= low < 0x40 && n == high * 0x40 + low
    ensures n / 0x40 == high && n % 0x40 == low
  {}

  /** The digits of a value in base 64 below its leading part. */
  lemma Digits(n: int, lead: int, a: int, b: int, c: int)
    requires 0 <= a < 0x40 && 0 <= b < 0x40 && 0 <= c < 0x40 && 0 <= lead
    requires n == lead * 0x4_0000 + a * 0x1000 + b * 0x40 + c
    ensures n / 0x4_0000 == lead && n / 0x1000 % 0x40 == a && n / 0x40 % 0x40 == b && n % 0x40 == c
  {
    LastDigit(n, lead * 0x1000 + a * 0x40 + b, c);
    LastDigit(n / 0x40, lead * 0x40 + a, b);
    LastDigit(n / 0x40 / 0x40, lead, a);
  }

  lemma CharCanonical(bs: seq<byte>)
    requires bs != [] && DecodeChar(bs).Some?
    ensures var (c, width) := DecodeChar(bs).value;
            1 <= width <= |bs| && EncodeChar(c) == bs[..width]
  {
    var (c, width) := DecodeChar(bs).value;
    var n := c as int;
    assert forall i :: 1 <= i < width ==> Continuation(bs[i]);
    if width == 2 {
      Digits(n, 0, 0, bs[0] as int - 0xC0, Low(bs[1]));
    } else if width == 3 {
      assert bs[0] as int - 0xE0 < 0x10;
      Digits(n, 0, bs[0] as int - 0xE0, Low(bs[1]), Low(bs[2]));
    } else if width == 4 {
      Digits(n, bs[0] as int - 0xF0, Low(bs[1]), Low(bs[2]), Low(bs[3]));
    }
  }

  /** The table of section 3 of RFC 3629: the size of a sequence, the bits of its first byte and of the
      others, and the number they hold. */
  lemma CodeTable(c: char)
    ensures var n, b := c as int, EncodeChar(c);
            && (|b| == 1 <==> n < 0x80) && (|b| == 2 <==> 0x80 <= n < 0x800)
            && (|b| == 3 <==> 0x800 <= n < 0x1_0000) && (|b| == 4 <==> 0x1_0000 <= n < 0x11_0000)
            && (|b| == 1 ==> b[0] == n)
            && (|b| > 1 ==> forall i :: 1 <= i < |b| ==> 0x80 <= b[i] < 0xC0)
            && (|b| == 2 ==> 0xC0 <= b[0] < 0xE0 && (b[0] as int - 0xC0) * 0x40 + (b[1] as int - 0x80) == n)
            && (|b| == 3 ==>
                  0xE0 <= b[0] < 0xF0
                  && (b[0] as int - 0xE0) * 0x1000 + (b[1] as int - 0x80) * 0x40 + (b[2] as int - 0x80) == n)
            && (|b| == 4 ==>
                  0xF0 <= b[0] < 0xF8
                  && (b[0] as int - 0xF0) * 0x4_0000 + (b[1] as int - 0x80) * 0x1000 + (b[2] as int - 0x80) * 0x40
                     + (b[3] as int - 0x80) == n)
  {
    CodeShape(c);
    CodePayload(c);
  }

  /** A text is the bytes of its characters in order. */
  lemma OneCharFirst(c: char, s: string)
    ensures Encode([c] + s) == EncodeChar(c) + Encode(s) && Encode("") == []
  {
    assert ([c] + s)[1..] == s;
  }

  function Encode(s: string): seq<byte> {
    if s == "" then [] else EncodeChar(s[0]) + Encode(s[1..])
  }

  function Decode(bs: seq<byte>): Option<string>
    decreases |bs|
  {
    if bs == [] then Some("")
    else
      match DecodeChar(bs)
      case None => None
      case Some((c, width)) =>
        if width == 0 || width > |bs| then None
        else
          match Decode(bs[width..])
          case None => None
          case Some(s) => Some([c] + s)
  }

  /** Exactly the encodings of strings are accepted, each as its string. */
  lemma {:induction false} DecodedExactly(bs: seq<byte>, s: string)
    ensures Decode(bs) == Some(s) <==> bs == Encode(s)
    decreases |bs| + |s|
  {
    hide DecodeChar, EncodeChar;
    if bs != [] && s != "" && DecodeChar(bs).Some? {
      var (c, width) := DecodeChar(bs).value;
      CharCanonical(bs);
      if c == s[0] {
        DecodedExactly(bs[width..], s[1..]);
        assert bs == bs[..width] + bs[width..];
        assert Encode(s)[width..] == Encode(s[1..]);
        assert s == [c] + s[1..];
      }
    }
    if bs == Encode(s) && s != "" {
      CharRoundTrip(s[0], Encode(s[1..]));
    }
  }
}
