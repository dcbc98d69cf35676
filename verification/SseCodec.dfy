/** The values crossing the Dart and Rust sides, as `SseEncode` prints and `SseDecode` parses them.
    Each generated implementation handles one type by handling its parts in order; here a `Type`
    describes the parts and one printer and one parser follow it. */
module SseCodec {
  import opened Prelude
  import opened Model
  import Utf8

  // ----- Integers in the machine's byte order

  datatype Endian = Little | Big

  datatype Kind = U8 | U16 | U64 | I32 | I64

  function Width(k: Kind): (w: nat)
    ensures w > 0
  {
    match k
    case U8 => 1
    case U16 => 2
    case I32 => 4
    case _ => 8
  }

  predicate Signed(k: Kind) {
    k.I32? || k.I64?
  }

  function Modulus(k: Kind): (m: nat)
    ensures m == Pow256(Width(k)) > 0
  {
    Pow256Values();
    match k
    case U8 => 0x100
    case U16 => 0x1_0000
    case I32 => 0x1_0000_0000
    case _ => 0x1_0000_0000_0000_0000
  }

  predicate InRange(k: Kind, n: int) {
    if Signed(k) then -(Modulus(k) / 2) <= n < Modulus(k) / 2 else 0 <= n < Modulus(k)
  }

  /** The value of `n as k`. */
  function Cast(k: Kind, n: int): int {
    var bits := n % Modulus(k);
    if Signed(k) && bits >= Modulus(k) / 2 then bits - Modulus(k) else bits
  }

  lemma CastInRange(k: Kind, n: int)
    ensures InRange(k, Cast(k, n))
    ensures Cast(k, n) == n <==> InRange(k, n)
  {
    hide Pow256;
  }

  function Reverse(bs: seq<byte>): (r: seq<byte>)
    ensures |r| == |bs|
    ensures forall i :: 0 <= i < |bs| ==> r[i] == bs[|bs| - 1 - i]
  {
    seq(|bs|, i requires 0 <= i < |bs| => bs[|bs| - 1 - i])
  }

  function Ordered(e: Endian, littleEndian: seq<byte>): seq<byte> {
    if e.Little? then littleEndian else Reverse(littleEndian)
  }

  function WriteInt(e: Endian, k: Kind, n: int): (bs: seq<byte>)
    ensures |bs| == Width(k)
  {
    Ordered(e, LittleEndian(n % Modulus(k), Width(k)))
  }

  /** A failed `unwrap`, `expect`, `unreachable!` or `unimplemented!` panics. */
  datatype Read<+T> = Panic | Got(value: T, rest: seq<byte>)

  function ReadInt(e: Endian, k: Kind, bs: seq<byte>): (r: Read<int>)
    ensures r.Got? ==> |bs| >= Width(k) && r.rest == bs[Width(k)..]
  {
    if |bs| < Width(k) then Panic
    else Got(Cast(k, LittleEndianValue(Ordered(e, bs[..Width(k)]))), bs[Width(k)..])
  }

  lemma ModTwice(n: int, m: nat)
    requires m > 0
    ensures 0 <= n % m < m && n % m % m == n % m
  {}

  lemma CastBits(k: Kind, n: int)
    ensures 0 <= n % Modulus(k) < Modulus(k) && Cast(k, n % Modulus(k)) == Cast(k, n)
  {
    hide Modulus, Pow256;
    ModTwice(n, Modulus(k));
  }

  lemma OrderedTwice(e: Endian, bs: seq<byte>)
    ensures Ordered(e, Ordered(e, bs)) == bs
  {}

  lemma Front(a: seq<byte>, b: seq<byte>)
    ensures (a + b)[..|a|] == a && (a + b)[|a|..] == b
  {}

  lemma IntRoundTrip(e: Endian, k: Kind, n: int, rest: seq<byte>)
    ensures ReadInt(e, k, WriteInt(e, k, n) + rest) == Got(Cast(k, n), rest)
  {
    CastBits(k, n);
    var bits := n % Modulus(k);
    LittleEndianRoundTrip(bits, Width(k));
    OrderedTwice(e, LittleEndian(bits, Width(k)));
    Front(WriteInt(e, k, n), rest);
  }

  /** The byte of a written number that holds its `i`-th digit in base 256: the `i`-th one for the little
      endian order, the `i`-th from the end for the big endian one. */
  function DigitAt(e: Endian, bs: seq<byte>, i: nat): byte
    requires i < |bs|
  {
    match e
    case Little => bs[i]
    case Big => bs[|bs| - 1 - i]
  }

  /** The widths, and each byte of a number that is printed. */
  lemma IntBytes(e: Endian, k: Kind, n: int, i: nat)
    requires i < |WriteInt(e, k, n)|
    ensures |WriteInt(e, k, n)| == match k case U8 => 1 case U16 => 2 case I32 => 4 case U64 => 8 case I64 => 8
    ensures DigitAt(e, WriteInt(e, k, n), i) == n % Pow256(|WriteInt(e, k, n)|) / Pow256(i) % 256
  {
    LittleEndianAt(n % Modulus(k), Width(k), i);
  }

  /** Every number is read as the only one in the range of its kind with these bytes. */
  lemma IntRead(e: Endian, k: Kind, bs: seq<byte>)
    requires |bs| >= Width(k)
    ensures var r := ReadInt(e, k, bs);
            && r.Got? && r.rest == bs[Width(k)..] && WriteInt(e, k, r.value) == bs[..Width(k)]
            && match k
               case U8 => 0 <= r.value < 0x100
               case U16 => 0 <= r.value < 0x1_0000
               case U64 => 0 <= r.value < 0x1_0000_0000_0000_0000
               case I32 => -0x8000_0000 <= r.value < 0x8000_0000
               case I64 => -0x8000_0000_0000_0000 <= r.value < 0x8000_0000_0000_0000
  {
    var ordered := Ordered(e, bs[..Width(k)]);
    LittleEndianCanonical(ordered);
    OrderedTwice(e, bs[..Width(k)]);
    CastCongruent(k, LittleEndianValue(ordered));
  }

  lemma CastCongruent(k: Kind, n: int)
    requires 0 <= n < Modulus(k)
    ensures Cast(k, n) % Modulus(k) == n
  {}

  // ----- Types and their values

  datatype Type =
    | TBool
    | TInt(kind: Kind)
    | TText
    | TUuid
    | TVec(item: Type)
    | TOption(item: Type)
    | TStruct(fields: seq<Type>)
    | TEnum(cases: seq<Type>)

  /** A `Case` carries the fields of its variant as one record. */
  datatype Value =
    | Flag(flag: bool)
    | Number(kind: Kind, number: int)
    | Text(text: string)
    | Id(id: Uuid)
    | List(items: seq<Value>)
    | Absent
    | Present(value: Value)
    | Record(fields: seq<Value>)
    | Case(tag: nat, payload: Value)

  predicate HasType(v: Value, t: Type)
    decreases v
  {
    match (v, t)
    case (Flag(_), TBool) => true
    case (Number(k, n), TInt(kind)) => k == kind && InRange(k, n)
    case (Text(_), TText) => true
    case (Id(_), TUuid) => true
    case (List(items), TVec(item)) => forall i :: 0 <= i < |items| ==> HasType(items[i], item)
    case (Absent, TOption(_)) => true
    case (Present(value), TOption(item)) => HasType(value, item)
    case (Record(fields), TStruct(types)) =>
      |fields| == |types| && forall i :: 0 <= i < |fields| ==> HasType(fields[i], types[i])
    case (Case(tag, payload), TEnum(cases)) => tag < |cases| && InRange(I32, tag) && HasType(payload, cases[tag])
    case _ => false
  }

  // ----- Printing

  /** `Vec<u8>`: the length `as i32`, then the bytes. */
  function EncodeBytes(e: Endian, bs: seq<byte>): seq<byte> {
    WriteInt(e, I32, |bs|) + bs
  }

  function Encode(e: Endian, v: Value): seq<byte>
    decreases v
  {
    match v
    case Flag(flag) => [if flag then 1 else 0]
    case Number(kind, number) => WriteInt(e, kind, number)
    case Text(text) => EncodeBytes(e, Utf8.Encode(text))
    case Id(id) => EncodeBytes(e, id)
    case List(items) => WriteInt(e, I32, |items|) + EncodeAll(e, items)
    case Absent => [0]
    case Present(value) => [1] + Encode(e, value)
    case Record(fields) => EncodeAll(e, fields)
    case Case(tag, payload) => WriteInt(e, I32, tag) + Encode(e, payload)
  }

  function EncodeAll(e: Endian, vs: seq<Value>): seq<byte>
    decreases vs
  {
    if vs == [] then [] else Encode(e, vs[0]) + EncodeAll(e, vs[1..])
  }

  /** Four bytes that hold a length or a tag below 2^31, digit by digit. */
  ghost predicate Counts(e: Endian, bs: seq<byte>, n: nat) {
    && |bs| == 4
    && DigitAt(e, bs, 0) == n % 0x100 && DigitAt(e, bs, 1) == n / 0x100 % 0x100
    && DigitAt(e, bs, 2) == n / 0x1_0000 % 0x100 && DigitAt(e, bs, 3) == n / 0x100_0000
  }

  lemma CountBytes(e: Endian, n: nat)
    requires n < 0x8000_0000
    ensures Counts(e, WriteInt(e, I32, n), n)
  {
    hide WriteInt;
    Pow256Values();
    assert Pow256(3) == 256 * Pow256(2) && Pow256(0) == 1;
    IntBytes(e, I32, n, 0);
    IntBytes(e, I32, n, 1);
    IntBytes(e, I32, n, 2);
    IntBytes(e, I32, n, 3);
  }

  /** What is printed, byte by byte: a flag and an option begin with 0 or 1, a list, a text and an id with
      their size, an enum with the index of its variant; the parts follow in order. */
  ghost predicate HasForm(e: Endian, v: Value, bs: seq<byte>) {
    match v
    case Flag(flag) => bs == [if flag then 1 else 0]
    case Number(kind, number) => bs == WriteInt(e, kind, number)
    case Text(text) => Sized(e, bs, |Utf8.Encode(text)|, Utf8.Encode(text))
    case Id(id) => Sized(e, bs, 16, id)
    case List(items) => Sized(e, bs, |items|, Printed(e, items))
    case Absent => bs == [0]
    case Present(value) => bs == [1] + Encode(e, value)
    case Record(fields) => bs == Printed(e, fields)
    case Case(tag, payload) => Sized(e, bs, tag, Encode(e, payload))
  }

  lemma PrintedForm(e: Endian, v: Value)
    requires SizesFit(v)
    ensures HasForm(e, v, Encode(e, v))
  {
    hide WriteInt, Counts;
    match v
    case Text(text) => CountBytes(e, |Utf8.Encode(text)|); FourFirst(e, |Utf8.Encode(text)|, Utf8.Encode(text));
    case Id(id) => CountBytes(e, 16); FourFirst(e, 16, id);
    case List(items) => CountBytes(e, |items|); AllPrinted(e, items); FourFirst(e, |items|, EncodeAll(e, items));
    case Record(fields) => AllPrinted(e, fields);
    case Case(tag, payload) => CountBytes(e, tag); FourFirst(e, tag, Encode(e, payload));
    case _ =>
  }

  lemma FourFirst(e: Endian, n: int, body: seq<byte>)
    ensures var bs := WriteInt(e, I32, n) + body; |bs| >= 4 && bs[..4] == WriteInt(e, I32, n) && bs[4..] == body
  {}

  ghost predicate SizesFit(v: Value) {
    match v
    case Text(text) => |Utf8.Encode(text)| < 0x8000_0000
    case List(items) => |items| < 0x8000_0000
    case Case(tag, _) => tag < 0x8000_0000
    case _ => true
  }

  /** The size and then the body. */
  ghost predicate Sized(e: Endian, bs: seq<byte>, n: nat, body: seq<byte>) {
    |bs| >= 4 && Counts(e, bs[..4], n) && bs[4..] == body
  }

  /** The printed values one after the other. */
  ghost function Printed(e: Endian, vs: seq<Value>): seq<byte> {
    Flatten(seq(|vs|, i requires 0 <= i < |vs| => Encode(e, vs[i])))
  }

  lemma {:induction false} AllPrinted(e: Endian, vs: seq<Value>)
    ensures EncodeAll(e, vs) == Printed(e, vs)
    decreases vs
  {
    if vs != [] {
      AllPrinted(e, vs[1..]);
      var parts := seq(|vs|, i requires 0 <= i < |vs| => Encode(e, vs[i]));
      assert parts[1..] == seq(|vs| - 1, i requires 0 <= i < |vs| - 1 => Encode(e, vs[1..][i]));
    }
  }

  // ----- Parsing

  function DecodeBytes(e: Endian, bs: seq<byte>): Read<seq<byte>> {
    match ReadInt(e, I32, bs)
    case Panic => Panic
    case Got(n, rest) =>
      FirstBytes(rest, n)
  }

  /** One byte for each turn of `0..len`. */
  function FirstBytes(bs: seq<byte>, len: int): Read<seq<byte>> {
    var n := if len < 0 then 0 else len;
    if |bs| < n then Panic else Got(bs[..n], bs[n..])
  }

  function Decode(e: Endian, t: Type, bs: seq<byte>): Read<Value>
    decreases t, 0
  {
    match t
    case TBool => if bs == [] then Panic else Got(Flag(bs[0] != 0), bs[1..])
    case TInt(kind) =>
      (match ReadInt(e, kind, bs)
       case Panic => Panic
       case Got(n, rest) => Got(Number(kind, n), rest))
    case TText =>
      (match DecodeBytes(e, bs)
       case Panic => Panic
       case Got(bytes, rest) =>
         match Utf8.Decode(bytes)
         case None => Panic
         case Some(s) => Got(Text(s), rest))
    case TUuid =>
      (match DecodeBytes(e, bs)
       case Panic => Panic
       case Got(bytes, rest) => if |bytes| == 16 then Got(Id(bytes), rest) else Panic)
    case TVec(item) =>
      (match ReadInt(e, I32, bs)
       case Panic => Panic
       case Got(n, rest) => AsList(DecodeItems(e, item, if n < 0 then 0 else n, rest)))
    case TOption(item) =>
      if bs == [] then Panic
      else if bs[0] == 0 then Got(Absent, bs[1..])
      else
        (match Decode(e, item, bs[1..])
         case Panic => Panic
         case Got(v, rest) => Got(Present(v), rest))
    case TStruct(types) =>
      (match DecodeFields(e, types, bs)
       case Panic => Panic
       case Got(vs, rest) => Got(Record(vs), rest))
    case TEnum(cases) =>
      (match ReadInt(e, I32, bs)
       case Panic => Panic
       case Got(tag, rest) =>
         if !(0 <= tag < |cases|) then Panic
         else
           match Decode(e, cases[tag], rest)
           case Panic => Panic
           case Got(v, after) => Got(Case(tag, v), after))
  }

  function AsList(r: Read<seq<Value>>): Read<Value> {
    match r
    case Panic => Panic
    case Got(vs, rest) => Got(List(vs), rest)
  }

  /** `before` was read ahead of `r`. */
  function After(before: seq<Value>, r: Read<seq<Value>>): Read<seq<Value>> {
    match r
    case Panic => Panic
    case Got(vs, rest) => Got(before + vs, rest)
  }

  function DecodeItems(e: Endian, t: Type, n: nat, bs: seq<byte>): Read<seq<Value>>
    decreases t, n + 1
  {
    if n == 0 then Got([], bs)
    else
      match Decode(e, t, bs)
      case Panic => Panic
      case Got(v, rest) => After([v], DecodeItems(e, t, n - 1, rest))
  }

  function DecodeFields(e: Endian, types: seq<Type>, bs: seq<byte>): Read<seq<Value>>
    decreases types, 0
  {
    if types == [] then Got([], bs)
    else
      match Decode(e, types[0], bs)
      case Panic => Panic
      case Got(v, rest) => After([v], DecodeFields(e, types[1..], rest))
  }

  // ----- Round trips

  const LENGTHS := 0x8000_0000

  /** Every length in the value is below 2^31, so that `as i32` keeps it. */
  predicate Fits(v: Value)
    decreases v
  {
    match v
    case Text(text) => |Utf8.Encode(text)| < LENGTHS
    case List(items) => |items| < LENGTHS && forall i :: 0 <= i < |items| ==> Fits(items[i])
    case Present(value) => Fits(value)
    case Record(fields) => forall i :: 0 <= i < |fields| ==> Fits(fields[i])
    case Case(_, payload) => Fits(payload)
    case _ => true
  }

  ghost predicate AllFit(vs: seq<Value>) {
    forall i :: 0 <= i < |vs| ==> Fits(vs[i])
  }

  lemma LengthFirst(e: Endian, n: nat, body: seq<byte>, rest: seq<byte>)
    requires InRange(I32, n)
    ensures ReadInt(e, I32, WriteInt(e, I32, n) + body + rest) == Got(n, body + rest)
  {
    IntRoundTrip(e, I32, n, body + rest);
    CastInRange(I32, n);
    assert WriteInt(e, I32, n) + body + rest == WriteInt(e, I32, n) + (body + rest);
  }

  lemma BytesRoundTrip(e: Endian, bs: seq<byte>, rest: seq<byte>)
    requires |bs| < LENGTHS
    ensures DecodeBytes(e, EncodeBytes(e, bs) + rest) == Got(bs, rest)
  {
    LengthFirst(e, |bs|, bs, rest);
    Front(bs, rest);
  }

  lemma {:induction false} RoundTrip(e: Endian, t: Type, v: Value, rest: seq<byte>)
    requires HasType(v, t) && Fits(v)
    ensures Decode(e, t, Encode(e, v) + rest) == Got(v, rest)
    decreases v
  {
    hide DecodeBytes, EncodeBytes, ReadInt, WriteInt, DecodeItems, DecodeFields, EncodeAll;
    match v
    case Flag(_) =>
    case Number(kind, number) => IntRoundTrip(e, kind, number, rest); CastInRange(kind, number);
    case Text(text) => BytesRoundTrip(e, Utf8.Encode(text), rest); Utf8.DecodedExactly(Utf8.Encode(text), text);
    case Id(id) => BytesRoundTrip(e, id, rest);
    case List(items) =>
      LengthFirst(e, |items|, EncodeAll(e, items), rest);
      ItemsRoundTrip(e, t.item, items, rest);
    case Absent =>
    case Present(value) =>
      assert ([1] + Encode(e, value) + rest)[1..] == Encode(e, value) + rest;
      RoundTrip(e, t.item, value, rest);
    case Record(fields) => FieldsRoundTrip(e, t.fields, fields, rest);
    case Case(tag, payload) =>
      LengthFirst(e, tag, Encode(e, payload), rest);
      RoundTrip(e, t.cases[tag], payload, rest);
  }

  lemma HeadFirst(e: Endian, vs: seq<Value>, rest: seq<byte>)
    requires vs != []
    ensures EncodeAll(e, vs) + rest == Encode(e, vs[0]) + (EncodeAll(e, vs[1..]) + rest)
    ensures vs == [vs[0]] + vs[1..]
  {
    var first, others := Encode(e, vs[0]), EncodeAll(e, vs[1..]);
    assert EncodeAll(e, vs) == first + others;
    hide Encode, EncodeAll;
    Associative(first, others, rest);
  }

  lemma {:induction false} ItemsRoundTrip(e: Endian, t: Type, vs: seq<Value>, rest: seq<byte>)
    requires forall i :: 0 <= i < |vs| ==> HasType(vs[i], t) && Fits(vs[i])
    ensures DecodeItems(e, t, |vs|, EncodeAll(e, vs) + rest) == Got(vs, rest)
    decreases vs
  {
    if vs == [] {
      assert EncodeAll(e, vs) + rest == rest;
    } else {
      HeadFirst(e, vs, rest);
      RoundTrip(e, t, vs[0], EncodeAll(e, vs[1..]) + rest);
      ItemsRoundTrip(e, t, vs[1..], rest);
    }
  }

  lemma {:induction false} FieldsRoundTrip(e: Endian, types: seq<Type>, vs: seq<Value>, rest: seq<byte>)
    requires |vs| == |types| && forall i :: 0 <= i < |vs| ==> HasType(vs[i], types[i]) && Fits(vs[i])
    ensures DecodeFields(e, types, EncodeAll(e, vs) + rest) == Got(vs, rest)
    decreases vs
  {
    if vs == [] {
      assert EncodeAll(e, vs) + rest == rest;
    } else {
      HeadFirst(e, vs, rest);
      RoundTrip(e, types[0], vs[0], EncodeAll(e, vs[1..]) + rest);
      FieldsRoundTrip(e, types[1..], vs[1..], rest);
    }
  }

  /** No printed value is a proper prefix of another of its type, and the parts of what was
      printed one after the other are determined. */
  lemma PrefixFree(e: Endian, t: Type, v: Value, rest: seq<byte>, other: Value, otherRest: seq<byte>)
    requires HasType(v, t) && Fits(v) && HasType(other, t) && Fits(other)
    requires Encode(e, v) + rest == Encode(e, other) + otherRest
    ensures v == other && rest == otherRest
  {
    RoundTrip(e, t, v, rest);
    RoundTrip(e, t, other, otherRest);
  }

  /** Strings and ids are printed as the vector of their bytes. */
  function ByteValues(bs: seq<byte>): (vs: seq<Value>)
    ensures |vs| == |bs|
  {
    if bs == [] then [] else [Number(U8, bs[0])] + ByteValues(bs[1..])
  }

  lemma {:induction false} OneByteEach(e: Endian, bs: seq<byte>)
    ensures EncodeAll(e, ByteValues(bs)) == bs
  {
    if bs != [] {
      OneByteEach(e, bs[1..]);
      assert LittleEndian(bs[0] % 0x100, 1) == [bs[0]];
      assert ByteValues(bs)[1..] == ByteValues(bs[1..]);
      assert bs == [bs[0]] + bs[1..];
    }
  }

  lemma BytesAreAVector(e: Endian, bs: seq<byte>)
    ensures Encode(e, List(ByteValues(bs))) == EncodeBytes(e, bs)
  {
    OneByteEach(e, bs);
  }

  lemma ParsedText(e: Endian, bs: seq<byte>)
    requires Decode(e, TText, bs).Got?
    ensures var v := Decode(e, TText, bs).value; HasType(v, TText) && Fits(v)
  {
    var bytes := DecodeBytes(e, bs).value;
    ParsedInt(e, I32, bs);
    Utf8.DecodedExactly(bytes, Decode(e, TText, bs).value.text);
  }

  /** Whatever the bytes, a parsed value has its type and lengths that fit. */
  lemma {:induction false} Parsed(e: Endian, t: Type, bs: seq<byte>)
    requires Decode(e, t, bs).Got?
    ensures var v := Decode(e, t, bs).value; HasType(v, t) && Fits(v)
    decreases t, 0
  {
    match t
    case TInt(kind) => ParsedInt(e, kind, bs);
    case TText => ParsedText(e, bs);
    case TVec(item) =>
      ParsedInt(e, I32, bs);
      var read := ReadInt(e, I32, bs);
      ParsedItems(e, item, if read.value < 0 then 0 else read.value, read.rest);
    case TOption(item) =>
      if bs[0] != 0 {
        Parsed(e, item, bs[1..]);
      }
    case TStruct(types) => ParsedFields(e, types, bs);
    case TEnum(cases) =>
      ParsedInt(e, I32, bs);
      var read := ReadInt(e, I32, bs);
      Parsed(e, cases[read.value], read.rest);
    case _ =>
  }

  lemma ParsedInt(e: Endian, k: Kind, bs: seq<byte>)
    requires ReadInt(e, k, bs).Got?
    ensures InRange(k, ReadInt(e, k, bs).value)
  {
    CastInRange(k, LittleEndianValue(Ordered(e, bs[..Width(k)])));
  }

  lemma {:induction false} ParsedItems(e: Endian, t: Type, n: nat, bs: seq<byte>)
    requires DecodeItems(e, t, n, bs).Got?
    ensures var vs := DecodeItems(e, t, n, bs).value;
            |vs| == n && AllFit(vs) && forall i :: 0 <= i < n ==> HasType(vs[i], t)
    decreases t, n + 1
  {
    hide Decode;
    if n > 0 {
      Parsed(e, t, bs);
      ParsedItems(e, t, n - 1, Decode(e, t, bs).rest);
    }
  }

  lemma {:induction false} ParsedFields(e: Endian, types: seq<Type>, bs: seq<byte>)
    requires DecodeFields(e, types, bs).Got?
    ensures var vs := DecodeFields(e, types, bs).value;
            |vs| == |types| && AllFit(vs) && forall i :: 0 <= i < |vs| ==> HasType(vs[i], types[i])
    decreases types, 0
  {
    hide Decode;
    if types != [] {
      Parsed(e, types[0], bs);
      ParsedFields(e, types[1..], Decode(e, types[0], bs).rest);
    }
  }

  /** Parsing what was printed gives the value back and leaves the rest exactly when every length
      fits; otherwise that value never comes back, with whatever rest. */
  lemma RoundTripExactly(e: Endian, t: Type, v: Value, rest: seq<byte>)
    requires HasType(v, t)
    ensures var r := Decode(e, t, Encode(e, v) + rest);
            && (r == Got(v, rest) <==> Fits(v))
            && (!Fits(v) ==> r.Panic? || r.value != v)
  {
    if Fits(v) {
      RoundTrip(e, t, v, rest);
    } else if Decode(e, t, Encode(e, v) + rest).Got? {
      Parsed(e, t, Encode(e, v) + rest);
    }
  }

  // ----- Bytes that nobody prints

  /** Any byte but zero is true. */
  lemma FlagsRead(e: Endian, bs: seq<byte>)
    ensures bs == [] ==> Decode(e, TBool, bs) == Panic
    ensures bs != [] ==> exists flag :: Decode(e, TBool, bs) == Got(Flag(flag), bs[1..]) && (flag <==> bs[0] != 0)
  {
    assert bs != [] ==> Decode(e, TBool, bs) == Got(Flag(bs[0] != 0), bs[1..]);
  }

  /** Any byte but zero announces a value. */
  lemma OptionsRead(e: Endian, t: Type, bs: seq<byte>)
    ensures bs == [] ==> Decode(e, TOption(t), bs) == Panic
    ensures bs != [] && bs[0] == 0 ==> Decode(e, TOption(t), bs) == Got(Absent, bs[1..])
    ensures bs != [] && bs[0] != 0 ==>
              && (Decode(e, TOption(t), bs).Panic? <==> Decode(e, t, bs[1..]).Panic?)
              && (Decode(e, t, bs[1..]).Got? ==>
                    Decode(e, TOption(t), bs)
                    == Got(Present(Decode(e, t, bs[1..]).value), Decode(e, t, bs[1..]).rest))
  {}

  /** A negative length is none at all, and one that the bytes do not reach panics. */
  lemma SizesRead(e: Endian, n: int, body: seq<byte>)
    requires -0x8000_0000 <= n < 0x8000_0000
    ensures var bs := WriteInt(e, I32, n) + body;
            && (n <= 0 ==> Decode(e, TText, bs) == Got(Text(""), body) && Decode(e, TUuid, bs) == Panic)
            && (n <= 0 ==> forall t :: Decode(e, TVec(t), bs) == Got(List([]), body))
            && (n > |body| ==> Decode(e, TText, bs) == Panic && Decode(e, TUuid, bs) == Panic)
            && (0 <= n <= |body| && n != 16 ==> Decode(e, TUuid, bs) == Panic)
            && (0 <= n <= |body| ==>
                  forall s :: Decode(e, TText, bs) == Got(Text(s), body[n..]) <==> body[..n] == Utf8.Encode(s))
            && (0 <= n <= |body| && (forall s :: body[..n] != Utf8.Encode(s)) ==> Decode(e, TText, bs) == Panic)
  {
    hide WriteInt, ReadInt, Utf8.Encode, Utf8.Decode;
    IntRoundTrip(e, I32, n, body);
    CastInRange(I32, n);
    Pow256Values();
    EmptyText();
    if 0 <= n <= |body| {
      forall s ensures Utf8.Decode(body[..n]) == Some(s) <==> body[..n] == Utf8.Encode(s) {
        Utf8.DecodedExactly(body[..n], s);
      }
    }
    assert body[..0] == [] && body[0..] == body;
  }

  lemma EmptyText()
    ensures Utf8.Decode([]) == Some("")
  {}

  /** Only the index of a variant is read. */
  lemma TagsRead(e: Endian, cases: seq<Type>, n: int, body: seq<byte>)
    requires -0x8000_0000 <= n < 0x8000_0000
    ensures var r := Decode(e, TEnum(cases), WriteInt(e, I32, n) + body);
            if 0 <= n < |cases| && Decode(e, cases[n], body).Got?
            then r == Got(Case(n, Decode(e, cases[n], body).value), Decode(e, cases[n], body).rest)
            else r == Panic
  {
    hide WriteInt, ReadInt;
    IntRoundTrip(e, I32, n, body);
    CastInRange(I32, n);
  }

  // ----- Hash sets

  function Texts(order: seq<string>): (vs: seq<Value>)
    ensures |vs| == |order| && forall i :: 0 <= i < |vs| ==> vs[i] == Text(order[i])
  {
    seq(|order|, i requires 0 <= i < |order| => Text(order[i]))
  }

  /** The set collected from a vector of strings. */
  function Collected(vs: seq<Value>): set<string> {
    set v | v in vs && v.Text? :: v.text
  }

  lemma CollectedTexts(order: seq<string>)
    ensures forall s :: s in Collected(Texts(order)) <==> s in order
  {
    forall s | s in order ensures s in Collected(Texts(order)) {
      var i :| 0 <= i < |order| && order[i] == s;
      assert Texts(order)[i] == Text(s);
    }
  }

  /** The number of different strings in a vector is at most its length. */
  lemma {:induction false} CollectedSize(vs: seq<Value>)
    ensures |Collected(vs)| <= |vs|
  {
    if vs != [] {
      var n := |vs| - 1;
      CollectedSize(vs[..n]);
      var last := if vs[n].Text? then {vs[n].text} else {};
      assert vs == vs[..n] + [vs[n]];
      assert Collected(vs) == Collected(vs[..n]) + last;
    }
  }

  /** A hash set comes back whatever the order in which its elements were printed, exactly when its
      size and its strings fit. */
  lemma HashSetRoundTrip(e: Endian, elements: set<string>, order: seq<string>, rest: seq<byte>)
    requires |order| == |elements| && forall s :: s in order <==> s in elements
    ensures var r := Decode(e, TVec(TText), Encode(e, List(Texts(order))) + rest);
            r.Got? && r.value.List? && Collected(r.value.items) == elements && r.rest == rest
            <==> |elements| < LENGTHS && forall s :: s in elements ==> |Utf8.Encode(s)| < LENGTHS
  {
    var v := List(Texts(order));
    var r := Decode(e, TVec(TText), Encode(e, v) + rest);
    assert HasType(v, TVec(TText));
    RoundTripExactly(e, TVec(TText), v, rest);
    CollectedTexts(order);
    assert Collected(Texts(order)) == elements;
    if |elements| < LENGTHS && forall s :: s in elements ==> |Utf8.Encode(s)| < LENGTHS {
      assert Fits(v);
    }
    if r.Got? && r.value.List? && Collected(r.value.items) == elements {
      Parsed(e, TVec(TText), Encode(e, v) + rest);
      CollectedSize(r.value.items);
      forall s | s in elements ensures |Utf8.Encode(s)| < LENGTHS {
        assert s in Collected(r.value.items);
        var item :| item in r.value.items && item.Text? && item.text == s;
        assert Fits(item);
      }
    }
  }
}
