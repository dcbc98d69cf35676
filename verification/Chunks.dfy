/** Re-chunking of byte streams: 16 KiB on the wire, 1 MiB towards the application. */
module Chunks {
  import opened Prelude

  const CHUNK_SIZE: nat := 16 * 1024
  const BUFFER_SIZE: nat := 1024 * 1024

  /** The split of `s` in which every piece but the last has exactly `size` bytes and none is empty. */
  function Split(s: seq<byte>, size: nat): seq<seq<byte>>
    requires size > 0
  {
    if s == [] then []
    else if |s| <= size then [s]
    else [s[..size]] + Split(s[size..], size)
  }

  ghost predicate IsSplitOf(pieces: seq<seq<byte>>, s: seq<byte>, size: nat) {
    && Flatten(pieces) == s
    && (forall i :: 0 <= i < |pieces| ==> 0 < |pieces[i]| <= size)
    && (forall i :: 0 <= i < |pieces| - 1 ==> |pieces[i]| == size)
  }

  lemma {:induction false} SplitIsSplit(s: seq<byte>, size: nat)
    requires size > 0
    ensures IsSplitOf(Split(s, size), s, size)
  {
    if |s| > size {
      SplitIsSplit(s[size..], size);
      assert s == s[..size] + s[size..];
      assert Split(s, size)[1..] == Split(s[size..], size);
    } else if s != [] {
      assert Flatten([s]) == s + Flatten([]);
    }
  }

  lemma SplitFull(head: seq<byte>, rest: seq<byte>, size: nat)
    requires size > 0 && |head| == size
    ensures Split(head + rest, size) == [head] + Split(rest, size)
  {
    if rest == [] {
      assert head + rest == head;
    } else {
      assert (head + rest)[..size] == head && (head + rest)[size..] == rest;
    }
  }

  lemma RestIsSplit(pieces: seq<seq<byte>>, s: seq<byte>, size: nat)
    requires pieces != [] && IsSplitOf(pieces, s, size)
    ensures IsSplitOf(pieces[1..], Flatten(pieces[1..]), size) && s == pieces[0] + Flatten(pieces[1..])
    ensures pieces == [pieces[0]] + pieces[1..] && (pieces[1..] != [] ==> |pieces[0]| == size)
  {
    var rest := pieces[1..];
    assert forall i :: 0 <= i < |rest| ==> rest[i] == pieces[i + 1];
  }

  lemma OneMoreTimes(n: nat, size: nat)
    ensures (n + 1) * size == n * size + size
  {}

  /** There is one such split of a byte string, and its size is the rounded-up quotient. */
  lemma {:induction false} SplitUnique(pieces: seq<seq<byte>>, s: seq<byte>, size: nat)
    requires size > 0 && IsSplitOf(pieces, s, size)
    ensures pieces == Split(s, size)
    ensures (|pieces| - 1) * size < |s| <= |pieces| * size || (pieces == [] && s == [])
  {
    if pieces != [] {
      var first, rest := pieces[0], pieces[1..];
      RestIsSplit(pieces, s, size);
      if rest == [] {
        assert s == first;
      } else {
        SplitUnique(rest, Flatten(rest), size);
        SplitFull(first, Flatten(rest), size);
        OneMoreTimes(|rest|, size);
        OneMoreTimes(|rest| - 1, size);
      }
    }
  }

  /** Cutting whole chunks off the front of a longer text. */
  lemma {:induction false} SplitPrefix(whole: seq<seq<byte>>, rest: seq<byte>, size: nat)
    requires size > 0 && forall i :: 0 <= i < |whole| ==> |whole[i]| == size
    ensures Split(Flatten(whole) + rest, size) == whole + Split(rest, size)
  {
    if whole == [] {
      assert Flatten(whole) + rest == rest;
    } else {
      SplitPrefix(whole[1..], rest, size);
      Associative(whole[0], Flatten(whole[1..]), rest);
      SplitFull(whole[0], Flatten(whole[1..]) + rest, size);
      hide Split;
      Associative([whole[0]], whole[1..], Split(rest, size));
      assert whole == [whole[0]] + whole[1..];
    }
  }

  /** `process_in_chunks`: the output depends on the bytes alone, not on how they arrived. */
  method ProcessInChunks(rx: seq<seq<byte>>) returns (chunks: seq<seq<byte>>)
    ensures chunks == Split(Flatten(rx), CHUNK_SIZE)
    ensures forall i :: 0 <= i < |chunks| ==>
              if i < |chunks| - 1 then |chunks[i]| == 16384 else 0 < |chunks[i]| <= 16384
  {
    chunks := [];
    var buffer: seq<byte> := [];
    for i := 0 to |rx|
      invariant |buffer| < CHUNK_SIZE
      invariant forall j :: 0 <= j < |chunks| ==> |chunks[j]| == CHUNK_SIZE
      invariant Flatten(rx[..i]) == Flatten(chunks) + buffer
    {
      FlattenAppend(rx[..i], [rx[i]]);
      assert rx[..i + 1] == rx[..i] + [rx[i]];
      assert Flatten([rx[i]]) == rx[i];
      buffer := buffer + rx[i];
      while |buffer| >= CHUNK_SIZE
        invariant forall j :: 0 <= j < |chunks| ==> |chunks[j]| == CHUNK_SIZE
        invariant Flatten(rx[..i + 1]) == Flatten(chunks) + buffer
      {
        var chunk := buffer[..CHUNK_SIZE];
        FlattenAppend(chunks, [chunk]);
        assert Flatten([chunk]) == chunk;
        assert buffer == chunk + buffer[CHUNK_SIZE..];
        buffer := buffer[CHUNK_SIZE..];
        chunks := chunks + [chunk];
      }
    }
    assert rx[..|rx|] == rx;
    SplitPrefix(chunks, buffer, CHUNK_SIZE);
    if |buffer| != 0 {
      chunks := chunks + [buffer];
    }
    SplitIsSplit(Flatten(rx), CHUNK_SIZE);
  }

  // ----- buffer_receiver

  /** What `buffer_receiver` has sent and what it still holds. */
  datatype Buffered = Buffered(sent: seq<seq<byte>>, buffer: seq<byte>)

  function Fill(b: Buffered, data: seq<byte>): Buffered {
    var buffer := b.buffer + data;
    if |buffer| >= BUFFER_SIZE then Buffered(b.sent + [buffer], []) else b.(buffer := buffer)
  }

  function FillAll(b: Buffered, rx: seq<seq<byte>>): Buffered
    decreases rx
  {
    if rx == [] then b else FillAll(Fill(b, rx[0]), rx[1..])
  }

  function Rebuffer(rx: seq<seq<byte>>): seq<seq<byte>> {
    var b := FillAll(Buffered([], []), rx);
    if b.buffer == [] then b.sent else b.sent + [b.buffer]
  }

  method BufferReceiver(rxInput: seq<seq<byte>>) returns (sent: seq<seq<byte>>)
    ensures sent == Rebuffer(rxInput)
  {
    sent := [];
    var buffer: seq<byte> := [];
    for i := 0 to |rxInput|
      invariant FillAll(Buffered([], []), rxInput) == FillAll(Buffered(sent, buffer), rxInput[i..])
    {
      buffer := buffer + rxInput[i];
      if |buffer| >= BUFFER_SIZE {
        sent := sent + [buffer];
        buffer := [];
      }
    }
    if buffer != [] {
      sent := sent + [buffer];
    }
  }

  ghost predicate LongestAtMost(rx: seq<seq<byte>>, longest: nat) {
    forall i :: 0 <= i < |rx| ==> |rx[i]| <= longest
  }

  ghost predicate SentWithin(sent: seq<seq<byte>>, longest: nat) {
    forall i :: 0 <= i < |sent| ==> BUFFER_SIZE <= |sent[i]| < BUFFER_SIZE + longest
  }

  lemma {:induction false} FillAllBounds(b: Buffered, rx: seq<seq<byte>>, longest: nat)
    requires LongestAtMost(rx, longest) && SentWithin(b.sent, longest) && |b.buffer| < BUFFER_SIZE
    ensures var r := FillAll(b, rx);
            && SentWithin(r.sent, longest) && |r.buffer| < BUFFER_SIZE
            && Flatten(r.sent) + r.buffer == Flatten(b.sent) + b.buffer + Flatten(rx)
    decreases rx
  {
    if rx == [] {
      assert Flatten(b.sent) + b.buffer + [] == Flatten(b.sent) + b.buffer;
    } else {
      var next := Fill(b, rx[0]);
      var buffer := b.buffer + rx[0];
      FlattenAppend(b.sent, [buffer]);
      assert Flatten([buffer]) == buffer;
      assert Flatten(next.sent) + next.buffer == Flatten(b.sent) + buffer;
      FillAllBounds(next, rx[1..], longest);
      assert Flatten(rx) == rx[0] + Flatten(rx[1..]);
      assert Flatten(b.sent) + buffer + Flatten(rx[1..]) == Flatten(b.sent) + b.buffer + Flatten(rx);
    }
  }

  /** For any input, no byte is lost and every piece but the last is at least 1 MiB and less
      than 1 MiB plus the longest input. */
  lemma RebufferBounds(rx: seq<seq<byte>>, longest: nat)
    requires LongestAtMost(rx, longest)
    ensures Flatten(Rebuffer(rx)) == Flatten(rx)
    ensures forall i :: 0 <= i < |Rebuffer(rx)| - 1 ==> 0x10_0000 <= |Rebuffer(rx)[i]| < 0x10_0000 + longest
    ensures Rebuffer(rx) != [] ==> 0 < |Rebuffer(rx)[|Rebuffer(rx)| - 1]| < 0x10_0000 + longest
  {
    FillAllBounds(Buffered([], []), rx, longest);
    var b := FillAll(Buffered([], []), rx);
    FlattenAppend(b.sent, [b.buffer]);
    assert Flatten([b.buffer]) == b.buffer;
    assert [] + [] + Flatten(rx) == Flatten(rx);
  }

  lemma SplitHead(s: seq<byte>, size: nat) returns (head: seq<byte>, rest: seq<byte>)
    requires size > 0 && s != []
    ensures s == head + rest && Split(s, size) == [head] + Split(rest, size)
    ensures |head| <= size && (|head| < size ==> rest == []) && |rest| < |s|
  {
    head, rest := if |s| <= size then s else s[..size], if |s| <= size then [] else s[size..];
  }

  lemma FillFirst(b: Buffered, first: seq<byte>, more: seq<seq<byte>>)
    ensures FillAll(b, [first] + more) == FillAll(Fill(b, first), more)
  {
    assert ([first] + more)[1..] == more;
  }

  lemma FillNothing(b: Buffered)
    ensures FillAll(b, Split([], CHUNK_SIZE)) == b
  {}

  /** A chunk that does not overfill the buffer changes nothing about the split that will result. */
  lemma FillStep(b: Buffered, chunk: seq<byte>, rest: seq<byte>)
    requires |b.buffer| + |chunk| <= BUFFER_SIZE
    ensures var next := Fill(b, chunk);
            next.sent + Split(next.buffer + rest, BUFFER_SIZE) == b.sent + Split(b.buffer + (chunk + rest), BUFFER_SIZE)
  {
    var buffer := b.buffer + chunk;
    Associative(b.buffer, chunk, rest);
    if |buffer| == BUFFER_SIZE {
      SplitFull(buffer, rest, BUFFER_SIZE);
      assert [] + rest == rest;
      Associative(b.sent, [buffer], Split(rest, BUFFER_SIZE));
    }
  }

  lemma FillSize(b: Buffered, chunk: seq<byte>)
    ensures |Fill(b, chunk).buffer| == if |b.buffer| + |chunk| >= BUFFER_SIZE then 0 else |b.buffer| + |chunk|
  {}

  /** Whole chunks fill the buffer to exactly 1 MiB because 1 MiB is 64 of them. */
  lemma {:induction false} FillChunks(b: Buffered, s: seq<byte>, held: nat)
    requires held < 64 && |b.buffer| == held * CHUNK_SIZE
    ensures var r := FillAll(b, Split(s, CHUNK_SIZE));
            r.sent + Split(r.buffer, BUFFER_SIZE) == b.sent + Split(b.buffer + s, BUFFER_SIZE)
            && |r.buffer| < BUFFER_SIZE
    decreases |s|
  {
    hide Split, FillAll, Fill;
    if s == [] {
      FillNothing(b);
      assert b.buffer + s == b.buffer;
    } else {
      var chunk, rest := SplitHead(s, CHUNK_SIZE);
      FillFirst(b, chunk, Split(rest, CHUNK_SIZE));
      FillStep(b, chunk, rest);
      FillSize(b, chunk);
      if rest == [] {
        FillNothing(Fill(b, chunk));
        assert Fill(b, chunk).buffer + rest == Fill(b, chunk).buffer;
      } else {
        FillChunks(Fill(b, chunk), rest, if held == 63 then 0 else held + 1);
      }
    }
  }

  /** The two stages composed: wire chunks of a content re-buffer to its 1 MiB split. */
  lemma RebufferedChunks(content: seq<byte>)
    ensures Rebuffer(Split(content, CHUNK_SIZE)) == Split(content, BUFFER_SIZE)
  {
    FillChunks(Buffered([], []), content, 0);
    assert [] + content == content;
    assert [] + Split(content, BUFFER_SIZE) == Split(content, BUFFER_SIZE);
    var r := FillAll(Buffered([], []), Split(content, CHUNK_SIZE));
    assert r.buffer == [] ==> r.sent + [] == r.sent;
  }
}
