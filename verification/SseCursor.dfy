/** The cursors that the printer and the parser move along. */
module SseCursor {
  import opened Prelude
  import opened SseCodec
  import Utf8

  class Serializer {
    var cursor: seq<byte>
    const endian: Endian

    constructor (endian: Endian)
      ensures cursor == [] && this.endian == endian
    {
      this.endian := endian;
      cursor := [];
    }

    method Put(v: Value)
      modifies this
      ensures cursor == old(cursor) + Encode(endian, v)
      decreases v, 0
    {
      hide EncodeAll, WriteInt;
      match v {
        case Flag(flag) => cursor := cursor + [if flag then 1 else 0];
        case Number(kind, number) => cursor := cursor + WriteInt(endian, kind, number);
        case Text(text) => PutBytes(Utf8.Encode(text));
        case Id(id) => PutBytes(id);
        case List(items) =>
          cursor := cursor + WriteInt(endian, I32, |items|);
          PutAll(items);
          Associative(old(cursor), WriteInt(endian, I32, |items|), EncodeAll(endian, items));
        case Absent => cursor := cursor + [0];
        case Present(value) =>
          cursor := cursor + [1];
          Put(value);
          Associative(old(cursor), [1], Encode(endian, value));
        case Record(fields) => PutAll(fields);
        case Case(tag, payload) =>
          cursor := cursor + WriteInt(endian, I32, tag);
          Put(payload);
          Associative(old(cursor), WriteInt(endian, I32, tag), Encode(endian, payload));
      }
    }

    method PutBytes(bs: seq<byte>)
      modifies this
      ensures cursor == old(cursor) + EncodeBytes(endian, bs)
    {
      cursor := cursor + WriteInt(endian, I32, |bs|);
      for i := 0 to |bs|
        invariant cursor == old(cursor) + WriteInt(endian, I32, |bs|) + bs[..i]
      {
        cursor := cursor + [bs[i]];
      }
      assert bs[..|bs|] == bs;
    }

    method PutAll(vs: seq<Value>)
      modifies this
      ensures cursor == old(cursor) + EncodeAll(endian, vs)
      decreases vs, 1
    {
      for i := 0 to |vs|
        invariant cursor + EncodeAll(endian, vs[i..]) == old(cursor) + EncodeAll(endian, vs)
      {
        ghost var before := cursor;
        Put(vs[i]);
        assert vs[i..][1..] == vs[i + 1..];
        assert cursor + EncodeAll(endian, vs[i + 1..]) == before + EncodeAll(endian, vs[i..]);
      }
    }
  }

  lemma AfterTwice(a: seq<Value>, b: seq<Value>, r: Read<seq<Value>>)
    ensures After(a, After(b, r)) == After(a + b, r)
  {
    if r.Got? {
      assert a + (b + r.value) == a + b + r.value;
    }
  }

  lemma AfterNothing(r: Read<seq<Value>>)
    ensures After([], r) == r
  {
    if r.Got? {
      assert [] + r.value == r.value;
    }
  }

  /** Where the cursor stands after a read, if it did not panic. */
  ghost predicate Moved<T(!new)>(spec: Read<T>, result: Option<T>, left: seq<byte>) {
    match spec
    case Panic => result == None
    case Got(v, rest) => result == Some(v) && left == rest
  }

  class Deserializer {
    const data: seq<byte>
    const endian: Endian
    var position: nat

    ghost predicate Valid()
      reads this
    {
      position <= |data|
    }

    function Left(): seq<byte>
      reads this
      requires Valid()
    {
      data[position..]
    }

    constructor (endian: Endian, data: seq<byte>)
      ensures Valid() && Left() == data && this.endian == endian
    {
      this.endian, this.data, position := endian, data, 0;
    }

    method TakeInt(kind: Kind) returns (n: Option<int>)
      requires Valid()
      modifies this
      ensures Valid() && Moved(ReadInt(endian, kind, old(Left())), n, Left())
    {
      if |data| - position < Width(kind) {
        return None;
      }
      var bs := data[position..position + Width(kind)];
      assert old(Left())[..Width(kind)] == bs;
      position := position + Width(kind);
      return Some(Cast(kind, LittleEndianValue(Ordered(endian, bs))));
    }

    /** `for idx_ in 0..len_`: nothing is read for a negative length. */
    method TakeRun(len: int) returns (bs: Option<seq<byte>>)
      requires Valid()
      modifies this
      ensures Valid() && Moved(FirstBytes(old(Left()), len), bs, Left())
    {
      var answer: seq<byte> := [];
      ghost var rest := Left();
      var i := 0;
      while i < len
        invariant Valid() && 0 <= i <= |rest| && (i <= len || i == 0)
        invariant answer == rest[..i] && Left() == rest[i..]
      {
        if position == |data| {
          return None;
        }
        assert data[position] == rest[i];
        answer := answer + [data[position]];
        position := position + 1;
        assert Left() == rest[i..][1..];
        i := i + 1;
      }
      return Some(answer);
    }

    method TakeBytes() returns (bs: Option<seq<byte>>)
      requires Valid()
      modifies this
      ensures Valid() && Moved(DecodeBytes(endian, old(Left())), bs, Left())
    {
      hide ReadInt, FirstBytes;
      var len := TakeInt(I32);
      if len == None {
        return None;
      }
      bs := TakeRun(len.value);
    }

    method Take(t: Type) returns (v: Option<Value>)
      requires Valid()
      modifies this
      ensures Valid() && Moved(Decode(endian, t, old(Left())), v, Left())
      decreases t, 0
    {
      match t {
        case TBool =>
          if position == |data| {
            return None;
          }
          position := position + 1;
          return Some(Flag(data[position - 1] != 0));
        case TInt(kind) =>
          var n := TakeInt(kind);
          return if n.Some? then Some(Number(kind, n.value)) else None;
        case TText =>
          var bs := TakeBytes();
          if bs == None {
            return None;
          }
          var text := Utf8.Decode(bs.value);
          return if text.Some? then Some(Text(text.value)) else None;
        case TUuid =>
          var bs := TakeBytes();
          return if bs.Some? && |bs.value| == 16 then Some(Id(bs.value)) else None;
        case TVec(item) =>
          var len := TakeInt(I32);
          if len == None {
            return None;
          }
          var items := TakeItems(item, len.value);
          return if items.Some? then Some(List(items.value)) else None;
        case TOption(item) =>
          if position == |data| {
            return None;
          }
          position := position + 1;
          assert Left() == old(Left())[1..];
          if data[position - 1] == 0 {
            return Some(Absent);
          }
          var value := Take(item);
          return if value.Some? then Some(Present(value.value)) else None;
        case TStruct(types) =>
          var fields := TakeFields(types);
          return if fields.Some? then Some(Record(fields.value)) else None;
        case TEnum(cases) =>
          var tag := TakeInt(I32);
          if tag == None || !(0 <= tag.value < |cases|) {
            return None;
          }
          var payload := Take(cases[tag.value]);
          return if payload.Some? then Some(Case(tag.value, payload.value)) else None;
      }
    }

    method TakeItems(t: Type, len: int) returns (items: Option<seq<Value>>)
      requires Valid()
      modifies this
      ensures Valid() && Moved(DecodeItems(endian, t, if len < 0 then 0 else len, old(Left())), items, Left())
      decreases t, (if len < 0 then 0 else len) + 1
    {
      hide Decode;
      ghost var n: nat := if len < 0 then 0 else len;
      ghost var all := DecodeItems(endian, t, n, Left());
      var answer: seq<Value> := [];
      AfterNothing(all);
      var i := 0;
      while i < len
        invariant Valid() && 0 <= i <= n && all == After(answer, DecodeItems(endian, t, n - i, Left()))
      {
        ghost var here := Left();
        var v := Take(t);
        if v == None {
          return None;
        }
        AfterTwice(answer, [v.value], DecodeItems(endian, t, n - i - 1, Left()));
        answer := answer + [v.value];
        i := i + 1;
      }
      assert answer + [] == answer;
      return Some(answer);
    }

    method TakeFields(types: seq<Type>) returns (fields: Option<seq<Value>>)
      requires Valid()
      modifies this
      ensures Valid() && Moved(DecodeFields(endian, types, old(Left())), fields, Left())
      decreases types, 1
    {
      hide Decode;
      ghost var all := DecodeFields(endian, types, Left());
      var answer: seq<Value> := [];
      AfterNothing(all);
      for i := 0 to |types|
        invariant Valid() && all == After(answer, DecodeFields(endian, types[i..], Left()))
      {
        var v := Take(types[i]);
        assert types[i..][1..] == types[i + 1..];
        if v == None {
          return None;
        }
        AfterTwice(answer, [v.value], DecodeFields(endian, types[i + 1..], Left()));
        answer := answer + [v.value];
      }
      assert types[|types|..] == [] && answer + [] == answer;
      return Some(answer);
    }
  }

  /** What one side prints, the other parses back. */
  method Exchange(endian: Endian, t: Type, v: Value) returns (received: Option<Value>)
    requires HasType(v, t)
    ensures received == Some(v) <==> Fits(v)
  {
    var serializer := new Serializer(endian);
    serializer.Put(v);
    assert serializer.cursor == Encode(endian, v) + [];
    var deserializer := new Deserializer(endian, serializer.cursor);
    received := deserializer.Take(t);
    RoundTripExactly(endian, t, v, []);
  }
}
