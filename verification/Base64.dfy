/** The url-safe, unpadded alphabet of section 5 of RFC 4648, decoded strictly. */
module Base64 {
  import opened Prelude

  type sextet = v: int | 0 <= v < 64

  function ToChar(v: sextet): (c: char)
    ensures c != '.'
  {
    if v < 26 then (v + 65) as char
    else if v < 52 then (v + 71) as char
    else if v < 62 then (v - 4) as char
    else if v == 62 then '-' else '_'
  }

  function FromChar(c: char): Option<sextet> {
    if 'A' <= c <= 'Z' then Some((c as int) - 65)
    else if 'a' <= c <= 'z' then Some((c as int) - 71)
    else if '0' <= c <= '9' then Some((c as int) + 4)
    else if c == '-' then Some(62)
    else if c == '_' then Some(63)
    else None
  }

  lemma CharRoundTrip(v: sextet)
    ensures FromChar(ToChar(v)) == Some(v)
  {}

  lemma CharCanonical(c: char)
    requires FromChar(c).Some?
    ensures ToChar(FromChar(c).value) == c
  {}

  /** Three bytes are four sextets. */
  function Group(x: byte, y: byte, z: byte): (v: seq<sextet>)
    ensures |v| == 4
  {
    [x / 4, x % 4 * 16 + y / 16, y % 16 * 4 + z / 64, z % 64]
  }

  function Ungroup(a: sextet, b: sextet, c: sextet, d: sextet): (bytes: seq<byte>)
    ensures |bytes| == 3
  {
    var (high: int, middle: int, low: int) := (a, b, c);
    [high * 4 + middle / 16, middle % 16 * 16 + low / 4, low % 4 * 64 + d]
  }

  lemma GroupRoundTrip(x: byte, y: byte, z: byte)
    ensures var v := Group(x, y, z); Ungroup(v[0], v[1], v[2], v[3]) == [x, y, z]
  {}

  /** A byte made of a high part and the top of the next sextet comes apart again. */
  lemma Carry(high: int, next: int, step: int, base: int)
    requires 0 <= high && 0 <= next < 64
    requires (step == 16 && base == 4) || (step == 4 && base == 16) || (step == 1 && base == 64)
    ensures (high * base + next / step) / base == high && (high * base + next / step) % base == next / step
    ensures next / step * step + next % step == next
  {}

  lemma UngroupParts(a: sextet, b: sextet, c: sextet, d: sextet)
    ensures Ungroup(a, b, c, d)
            == [a as int * 4 + b as int / 16, b as int % 16 * 16 + c as int / 4, c as int % 4 * 64 + d]
  {}

  lemma GroupParts(x: byte, y: byte, z: byte)
    ensures Group(x, y, z) == [x / 4, x % 4 * 16 + y / 16, y % 16 * 4 + z / 64, z % 64]
  {}

  lemma GroupCanonical(a: sextet, b: sextet, c: sextet, d: sextet)
    ensures var bytes := Ungroup(a, b, c, d); Group(bytes[0], bytes[1], bytes[2]) == [a, b, c, d]
  {
    Carry(a, b, 16, 4);
    Carry(b % 16, c, 4, 16);
    Carry(c % 4, d, 1, 64);
    hide Group, Ungroup;
    UngroupParts(a, b, c, d);
    GroupParts(Ungroup(a, b, c, d)[0], Ungroup(a, b, c, d)[1], Ungroup(a, b, c, d)[2]);
  }

  /** A last group of one or two bytes is cut to two or three sextets. */
  function Sextets(bytes: seq<byte>): (v: seq<sextet>)
    ensures |v| % 4 != 1
  {
    if bytes == [] then []
    else if |bytes| == 1 then Group(bytes[0], 0, 0)[..2]
    else if |bytes| == 2 then Group(bytes[0], bytes[1], 0)[..3]
    else Group(bytes[0], bytes[1], bytes[2]) + Sextets(bytes[3..])
  }

  /** A lone trailing sextet and non-zero trailing bits are errors. */
  function FromSextets(v: seq<sextet>): Option<seq<byte>> {
    if v == [] then Some([])
    else if |v| == 1 then None
    else if |v| == 2 then
      if v[1] % 16 == 0 then Some(Ungroup(v[0], v[1], 0, 0)[..1]) else None
    else if |v| == 3 then
      if v[2] % 4 == 0 then Some(Ungroup(v[0], v[1], v[2], 0)[..2]) else None
    else
      match FromSextets(v[4..])
      case None => None
      case Some(rest) => Some(Ungroup(v[0], v[1], v[2], v[3]) + rest)
  }

  /** The bits behind a short group are zero. */
  lemma ShortGroup(x: byte, y: byte)
    ensures var v := Group(x, y, 0); v[3] == 0 && v[2] % 4 == 0 && (y == 0 ==> v[2] == 0 && v[1] % 16 == 0)
  {}

  lemma OneByte(x: byte, v: seq<sextet>)
    requires v == Group(x, 0, 0)[..2]
    ensures FromSextets(v) == Some([x])
  {
    GroupRoundTrip(x, 0, 0);
    ShortGroup(x, 0);
    hide Group;
    var bytes := Ungroup(v[0], v[1], 0, 0);
    assert bytes == [x, 0, 0] && bytes[..1] == [x];
  }

  lemma TwoBytes(x: byte, y: byte, v: seq<sextet>)
    requires v == Group(x, y, 0)[..3]
    ensures FromSextets(v) == Some([x, y])
  {
    GroupRoundTrip(x, y, 0);
    ShortGroup(x, y);
    hide Group;
    var bytes := Ungroup(v[0], v[1], v[2], 0);
    assert bytes == [x, y, 0] && bytes[..2] == [x, y];
  }

  /** The last, shorter group. */
  lemma ShortRoundTrip(bytes: seq<byte>)
    requires |bytes| == 1 || |bytes| == 2
    ensures FromSextets(Sextets(bytes)) == Some(bytes)
  {
    hide FromSextets, Group;
    if |bytes| == 1 {
      OneByte(bytes[0], Sextets(bytes));
      assert bytes == [bytes[0]];
    } else {
      TwoBytes(bytes[0], bytes[1], Sextets(bytes));
      assert bytes == [bytes[0], bytes[1]];
    }
  }

  lemma TwoSextets(v: seq<sextet>)
    requires |v| == 2 && v[1] % 16 == 0
    ensures Sextets(Ungroup(v[0], v[1], 0, 0)[..1]) == v
  {
    GroupCanonical(v[0], v[1], 0, 0);
    UngroupParts(v[0], v[1], 0, 0);
    hide Group, Ungroup;
    var bytes := Ungroup(v[0], v[1], 0, 0);
    assert bytes[1] == 0 && bytes[2] == 0 && bytes[..1] == [bytes[0]];
  }

  lemma ThreeSextets(v: seq<sextet>)
    requires |v| == 3 && v[2] % 4 == 0
    ensures Sextets(Ungroup(v[0], v[1], v[2], 0)[..2]) == v
  {
    GroupCanonical(v[0], v[1], v[2], 0);
    UngroupParts(v[0], v[1], v[2], 0);
    hide Group, Ungroup;
    var bytes := Ungroup(v[0], v[1], v[2], 0);
    assert bytes[2] == 0 && bytes[..2] == [bytes[0], bytes[1]];
  }

  lemma ShortCanonical(v: seq<sextet>)
    requires (|v| == 2 || |v| == 3) && FromSextets(v).Some?
    ensures Sextets(FromSextets(v).value) == v
  {
    hide Group, Ungroup, Sextets;
    if |v| == 2 {
      TwoSextets(v);
    } else {
      ThreeSextets(v);
    }
  }

  lemma {:induction false} SextetsRoundTrip(bytes: seq<byte>)
    ensures FromSextets(Sextets(bytes)) == Some(bytes)
  {
    hide Group, Ungroup;
    if |bytes| >= 3 {
      SextetsRoundTrip(bytes[3..]);
      GroupRoundTrip(bytes[0], bytes[1], bytes[2]);
      var v := Sextets(bytes);
      assert v[4..] == Sextets(bytes[3..]);
      assert bytes == [bytes[0], bytes[1], bytes[2]] + bytes[3..];
    } else if bytes != [] {
      ShortRoundTrip(bytes);
    }
  }

  lemma {:induction false} SextetsCanonical(v: seq<sextet>)
    requires FromSextets(v).Some?
    ensures Sextets(FromSextets(v).value) == v
  {
    hide Group, Ungroup;
    if |v| >= 4 {
      SextetsCanonical(v[4..]);
      GroupCanonical(v[0], v[1], v[2], v[3]);
      var bytes := FromSextets(v).value;
      assert bytes[3..] == FromSextets(v[4..]).value;
      assert v == [v[0], v[1], v[2], v[3]] + v[4..];
    } else if v != [] {
      ShortCanonical(v);
    }
  }

  function Chars(v: seq<sextet>): (s: string)
    ensures |s| == |v|
    ensures forall i :: 0 <= i < |s| ==> s[i] == ToChar(v[i])
  {
    seq(|v|, i requires 0 <= i < |v| => ToChar(v[i]))
  }

  function Values(s: string): (r: Option<seq<sextet>>)
    ensures r.Some? <==> forall i :: 0 <= i < |s| ==> FromChar(s[i]).Some?
    ensures r.Some? ==> |r.value| == |s| && forall i :: 0 <= i < |s| ==> FromChar(s[i]) == Some(r.value[i])
  {
    if forall i :: 0 <= i < |s| ==> FromChar(s[i]).Some?
    then Some(seq(|s|, i requires 0 <= i < |s| => FromChar(s[i]).value))
    else None
  }

  /** The table of section 5 of RFC 4648. */
  const ALPHABET := "ABCDEFGHIJKLMNOPQRSTUVWXYZabcdefghijklmnopqrstuvwxyz0123456789-_"

  lemma CharOf(v: sextet)
    ensures |ALPHABET| == 64 && ToChar(v) == ALPHABET[v]
  {
    assert v < 26 ==> ALPHABET[v] == "ABCDEFGHIJKLMNOPQRSTUVWXYZ"[v];
  }

  function Encode(bytes: seq<byte>): (s: string)
    ensures '.' !in s
  {
    Chars(Sextets(bytes))
  }

  function Decode(s: string): Option<seq<byte>> {
    match Values(s)
    case None => None
    case Some(v) => FromSextets(v)
  }

  lemma RoundTrip(bytes: seq<byte>)
    ensures Decode(Encode(bytes)) == Some(bytes)
  {
    var v := Sextets(bytes);
    forall i | 0 <= i < |v| ensures FromChar(Chars(v)[i]) == Some(v[i]) {
      CharRoundTrip(v[i]);
    }
    assert Values(Chars(v)).value == v;
    SextetsRoundTrip(bytes);
  }

  /** Strict decoding accepts one text per byte string. */
  lemma Canonical(s: string, bytes: seq<byte>)
    ensures Decode(s) == Some(bytes) <==> s == Encode(bytes)
  {
    RoundTrip(bytes);
    if Decode(s) == Some(bytes) {
      var v := Values(s).value;
      SextetsCanonical(v);
      forall i | 0 <= i < |s| ensures ToChar(v[i]) == s[i] {
        CharCanonical(s[i]);
      }
      assert Chars(v) == s;
    }
  }

  /** Four characters stand for three bytes, most significant bits first; a rest of one or two bytes is
      filled up with zero bits to two or three characters. */
  ghost predicate StandsFor(bytes: seq<byte>, s: string, v: seq<sextet>) {
    && |v| == |s| && (forall i :: 0 <= i < |s| ==> s[i] == ALPHABET[v[i]])
    && match |bytes|
       case 1 => |v| == 2 && v[0] as int * 0x40 + v[1] as int == bytes[0] as int * 0x10
       case 2 =>
         && |v| == 3
         && v[0] as int * 0x1000 + v[1] as int * 0x40 + v[2] as int == (bytes[0] as int * 0x100 + bytes[1] as int) * 4
       case 3 =>
         && |v| == 4
         && v[0] as int * 0x4_0000 + v[1] as int * 0x1000 + v[2] as int * 0x40 + v[3] as int
            == bytes[0] as int * 0x1_0000 + bytes[1] as int * 0x100 + bytes[2] as int
       case _ => false
  }

  lemma GroupStands(bytes: seq<byte>) returns (v: seq<sextet>)
    requires 1 <= |bytes| <= 3
    ensures StandsFor(bytes, Encode(bytes), v)
  {
    v := Sextets(bytes);
    forall i | 0 <= i < |v| ensures ToChar(v[i]) == ALPHABET[v[i]] {
      CharOf(v[i]);
    }
    hide ToChar;
    if |bytes| == 3 {
      LastGroup(bytes);
    }
  }

  lemma LastGroup(bytes: seq<byte>)
    requires |bytes| == 3
    ensures Sextets(bytes) == Group(bytes[0], bytes[1], bytes[2])
  {
    assert bytes[3..] == [] && Group(bytes[0], bytes[1], bytes[2]) + [] == Group(bytes[0], bytes[1], bytes[2]);
  }

  /** Longer strings are encoded group by group. */
  lemma EncodedByGroups(group: seq<byte>, rest: seq<byte>)
    requires |group| == 3
    ensures Encode(group + rest) == Encode(group) + Encode(rest) && Encode([]) == ""
  {
    var all := group + rest;
    assert all[3..] == rest;
    LastGroup(group);
    assert Sextets(all) == Sextets(group) + Sextets(rest);
  }
}
