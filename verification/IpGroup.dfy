/** `get_ip_group`: the printed key that puts two sockets into one room. */
module IpGroup {
  import opened Prelude
  import opened Strings

  datatype Address =
    | V4(octets: seq<u8>)
    | V6(segments: seq<u16>)
  {
    predicate Valid() {
      match this
      case V4(octets) => |octets| == 4
      case V6(segments) => |segments| == 8
    }
  }

  function Printed(numbers: seq<nat>, base: Base): (parts: seq<string>)
    ensures |parts| == |numbers|
    ensures forall i :: 0 <= i < |parts| ==> parts[i] == Digits(numbers[i], base)
  {
    seq(|numbers|, i requires 0 <= i < |numbers| => Digits(numbers[i], base))
  }

  function Group(address: Address): string
    requires address.Valid()
  {
    match address
    case V4(octets) => Join(Printed(octets, 10), '.')
    case V6(segments) => Join(Printed(segments[..4], 16), ':')
  }

  predicate SameGroup(a: Address, b: Address)
    requires a.Valid() && b.Valid()
  {
    match (a, b)
    case (V4(x), V4(y)) => x == y
    case (V6(x), V6(y)) => x[..4] == y[..4]
    case _ => false
  }

  lemma PrintedInjective(a: seq<nat>, b: seq<nat>, base: Base)
    requires Printed(a, base) == Printed(b, base)
    ensures a == b
  {
    forall i | 0 <= i < |a| ensures i < |b| && a[i] == b[i] {
      assert |b| == |Printed(b, base)|;
      assert Printed(a, base)[i] == Printed(b, base)[i];
      DigitsInjective(a[i], b[i], base);
    }
    assert |a| == |Printed(a, base)| == |Printed(b, base)| == |b|;
  }

  /** Equal keys mean the same IPv4 address, or IPv6 addresses in one /64. */
  lemma GroupExact(a: Address, b: Address)
    requires a.Valid() && b.Valid()
    ensures Group(a) == Group(b) <==> SameGroup(a, b)
  {
    if Group(a) == Group(b) {
      if a.V4? && b.V4? {
        JoinInjective(Printed(a.octets, 10), Printed(b.octets, 10), '.');
        PrintedInjective(a.octets, b.octets, 10);
      } else if a.V6? && b.V6? {
        JoinInjective(Printed(a.segments[..4], 16), Printed(b.segments[..4], 16), ':');
        PrintedInjective(a.segments[..4], b.segments[..4], 16);
      } else {
        var (v4, v6) := if a.V4? then (a, b) else (b, a);
        JoinContainsSeparator(Printed(v4.octets, 10), '.');
        JoinAvoids(Printed(v6.segments[..4], 16), ':', '.');
        assert false;
      }
    }
  }

  /** The keys of the addresses 1.2.3.4, 1:2:3:4:5:6:7:8 and a:b:c:d:e:f:0:1, and one with a number of two
      digits. */
  lemma PrintedKeys()
    ensures Group(V4([1, 2, 3, 4])) == "1.2.3.4"
    ensures Group(V4([10, 0, 0, 7])) == "10.0.0.7"
    ensures Group(V6([1, 2, 3, 4, 5, 6, 7, 8])) == "1:2:3:4"
    ensures Group(V6([10, 11, 12, 13, 14, 15, 0, 1])) == "a:b:c:d"
  {
    assert [1, 2, 3, 4, 5, 6, 7, 8][..4] == [1, 2, 3, 4];
    assert [10, 11, 12, 13, 14, 15, 0, 1][..4] == [10, 11, 12, 13];
    SmallDigits();
    hide Join, Printed, Digits;
    FourPrinted([1, 2, 3, 4], 10, '.');
    FourPrinted([10, 0, 0, 7], 10, '.');
    FourPrinted([1, 2, 3, 4], 16, ':');
    FourPrinted([10, 11, 12, 13], 16, ':');
  }

  lemma SmallDigits()
    ensures forall base: Base, n :: 0 <= n < 10 ==> Digits(n, base) == [(n + 48) as char]
    ensures Digits(10, 10) == "10"
    ensures Digits(10, 16) == "a" && Digits(11, 16) == "b" && Digits(12, 16) == "c" && Digits(13, 16) == "d"
  {
    assert Digits(10, 10) == Digits(1, 10) + "0";
  }

  lemma FourPrinted(n: seq<nat>, base: Base, separator: char)
    requires |n| == 4
    ensures Join(Printed(n, base), separator)
            == Digits(n[0], base) + [separator]
               + (Digits(n[1], base) + [separator] + (Digits(n[2], base) + [separator] + Digits(n[3], base)))
  {
    var p := Printed(n, base);
    assert p == [p[0]] + ([p[1]] + ([p[2]] + [p[3]]));
    JoinFirst(p[0], [p[1]] + ([p[2]] + [p[3]]), separator);
    JoinFirst(p[1], [p[2]] + [p[3]], separator);
    JoinFirst(p[2], [p[3]], separator);
  }

  lemma JoinFirst(first: string, rest: seq<string>, separator: char)
    requires rest != []
    ensures Join([first] + rest, separator) == first + [separator] + Join(rest, separator)
  {
    assert ([first] + rest)[1..] == rest;
  }
}
