/** Joining and splitting on a separator, and numbers printed in base 10 and 16. */
module Strings {
  function Join(parts: seq<string>, separator: char): string
    requires parts != []
  {
    if |parts| == 1 then parts[0] else parts[0] + [separator] + Join(parts[1..], separator)
  }

  function Split(s: string, separator: char): (parts: seq<string>)
    ensures parts != []
    ensures forall i :: 0 <= i < |parts| ==> separator !in parts[i]
  {
    if s == "" then [""]
    else
      var rest := Split(s[1..], separator);
      if s[0] == separator then [""] + rest else [[s[0]] + rest[0]] + rest[1..]
  }

  function Count(s: string, c: char): nat {
    if s == "" then 0 else (if s[0] == c then 1 else 0) + Count(s[1..], c)
  }

  lemma {:induction false} SplitSize(s: string, separator: char)
    ensures |Split(s, separator)| == Count(s, separator) + 1
  {
    if s != "" {
      SplitSize(s[1..], separator);
    }
  }

  lemma {:induction false} SplitAfterWord(word: string, s: string, separator: char)
    requires separator !in word
    ensures var rest := Split(s, separator);
            Split(word + s, separator) == [word + rest[0]] + rest[1..]
  {
    var rest := Split(s, separator);
    if word == "" {
      assert word + s == s && word + rest[0] == rest[0];
    } else {
      var whole := word + s;
      assert whole[0] == word[0] && whole[1..] == word[1..] + s;
      SplitAfterWord(word[1..], s, separator);
      var tail := Split(whole[1..], separator);
      calc {
        Split(whole, separator);
        [[word[0]] + tail[0]] + tail[1..];
        { assert tail[0] == word[1..] + rest[0] && tail[1..] == rest[1..]; }
        [[word[0]] + (word[1..] + rest[0])] + rest[1..];
        { assert [word[0]] + (word[1..] + rest[0]) == word + rest[0]; }
        [word + rest[0]] + rest[1..];
      }
    }
  }

  lemma {:induction false} SplitJoin(parts: seq<string>, separator: char)
    requires parts != []
    requires forall i :: 0 <= i < |parts| ==> separator !in parts[i]
    ensures Split(Join(parts, separator), separator) == parts
  {
    if |parts| == 1 {
      SplitAfterWord(parts[0], "", separator);
      assert parts[0] + "" == parts[0];
    } else {
      var tail := [separator] + Join(parts[1..], separator);
      SplitJoin(parts[1..], separator);
      assert tail[1..] == Join(parts[1..], separator);
      SplitAfterWord(parts[0], tail, separator);
      assert Join(parts, separator) == parts[0] + tail;
      assert Split(tail, separator) == [""] + parts[1..];
      assert parts[0] + "" == parts[0];
    }
  }

  /** Nothing is lost by splitting. */
  lemma {:induction false} JoinSplit(s: string, separator: char)
    ensures Join(Split(s, separator), separator) == s
  {
    if s != "" {
      var rest := Split(s[1..], separator);
      JoinSplit(s[1..], separator);
      if s[0] == separator {
        assert ([""] + rest)[1..] == rest;
      } else {
        JoinFront(s[0], rest, separator);
      }
      assert s == [s[0]] + s[1..];
    }
  }

  lemma JoinFront(c: char, parts: seq<string>, separator: char)
    requires parts != []
    ensures Join([[c] + parts[0]] + parts[1..], separator) == [c] + Join(parts, separator)
  {
    var more := [[c] + parts[0]] + parts[1..];
    assert more[1..] == parts[1..];
    if |parts| > 1 {
      assert [c] + parts[0] + [separator] + Join(parts[1..], separator)
          == [c] + (parts[0] + [separator] + Join(parts[1..], separator));
    }
  }

  lemma {:induction false} JoinInjective(a: seq<string>, b: seq<string>, separator: char)
    requires a != [] && b != []
    requires forall i :: 0 <= i < |a| ==> separator !in a[i]
    requires forall i :: 0 <= i < |b| ==> separator !in b[i]
    requires Join(a, separator) == Join(b, separator)
    ensures a == b
  {
    SplitJoin(a, separator);
    SplitJoin(b, separator);
  }

  /** A separator survives into the joined text when there are two parts or more. */
  lemma JoinContainsSeparator(parts: seq<string>, separator: char)
    requires |parts| >= 2
    ensures separator in Join(parts, separator)
  {
    assert Join(parts, separator)[|parts[0]|] == separator;
  }

  lemma {:induction false} JoinAvoids(parts: seq<string>, separator: char, c: char)
    requires parts != [] && c != separator
    requires forall i :: 0 <= i < |parts| ==> c !in parts[i]
    ensures c !in Join(parts, separator)
  {
    if |parts| > 1 {
      JoinAvoids(parts[1..], separator, c);
    }
  }

  // ----- Printed numbers

  type Base = b: int | b == 10 || b == 16 witness 10

  function DigitChar(d: nat): (c: char)
    requires d < 16
    ensures '0' <= c <= '9' || 'a' <= c <= 'f'
  {
    if d < 10 then (d + 48) as char else (d + 87) as char
  }

  function DigitValue(c: char): nat {
    if '0' <= c <= '9' then (c as int) - 48 else if 'a' <= c <= 'f' then (c as int) - 87 else 0
  }

  /** Shortest form, no leading zero, lower-case letters. */
  function Digits(n: nat, base: Base): (s: string)
    ensures s != "" && forall i :: 0 <= i < |s| ==> '0' <= s[i] <= '9' || 'a' <= s[i] <= 'f'
  {
    if n < base then [DigitChar(n)] else Digits(n / base, base) + [DigitChar(n % base)]
  }

  function DigitsValue(s: string, base: Base): nat {
    if s == "" then 0 else DigitsValue(s[..|s| - 1], base) * base + DigitValue(s[|s| - 1])
  }

  lemma {:induction false} DigitsRoundTrip(n: nat, base: Base)
    ensures DigitsValue(Digits(n, base), base) == n
  {
    var s := Digits(n, base);
    if n < base {
      assert s[..0] == "";
    } else {
      DigitsRoundTrip(n / base, base);
      assert s[..|s| - 1] == Digits(n / base, base);
      if base == 10 {
        assert n == n / 10 * 10 + n % 10;
      } else {
        assert n == n / 16 * 16 + n % 16;
      }
    }
  }

  lemma DigitsInjective(a: nat, b: nat, base: Base)
    requires Digits(a, base) == Digits(b, base)
    ensures a == b
  {
    DigitsRoundTrip(a, base);
    DigitsRoundTrip(b, base);
  }
}
