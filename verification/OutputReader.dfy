// The bounded in-memory window of a command's output (src/output-reader.ts): a
// list of chunks trimmed from the front, whose dead prefix is spliced away from
// time to time.
module OutputReader {
  import opened Options
  import opened Sequences

  newtype Byte = b: int | 0 <= b < 0x100
  type Bytes = seq<Byte>

  // The bounded full-stream copy the guest writes beside it.
  datatype Spill = Spill(path: string, maxBytes: nat)

  // An offset that is not a finite number reads as 0.
  datatype Offset = NotFinite | Finite(n: int)

  datatype Chunk = Chunk(text: Bytes, nextOffset: nat, lossy: bool, spillPath: Option<string>)

  // ----- What the window stands for -----

  function Min(a: nat, b: nat): nat {
    if a <= b then a else b
  }

  // The end of a stream, at most n bytes of it.
  function Tail(stream: Bytes, n: nat): Bytes {
    stream[|stream| - Min(|stream|, n)..]
  }

  function Requested(offset: Offset): nat {
    if offset.Finite? && offset.n > 0 then offset.n else 0
  }

  // The first stream position the window still holds.
  function Start(stream: Bytes, cap: nat): nat {
    |stream| - Min(|stream|, cap)
  }

  function From(stream: Bytes, at: nat): Bytes {
    if at <= |stream| then stream[at..] else []
  }

  // A read of the window, in terms of the whole stream.
  function ReadSpec(stream: Bytes, cap: nat, offset: Offset): (Bytes, nat, bool) {
    var requested, start := Requested(offset), Start(stream, cap);
    (From(stream, if requested < start then start else requested), |stream|, requested < start)
  }

  // A read gives the end of the stream: what is left of it after the requested
  // position, or the last cap bytes if that is more than the window holds. It is
  // lossy exactly when there are more than cap bytes left, and an offset that is
  // negative or not finite asks for all of them.
  ghost predicate IsRead(stream: Bytes, cap: nat, offset: Offset, text: Bytes, next: nat, lossy: bool) {
    var at := if offset.Finite? && offset.n > 0 then offset.n else 0;
    var left := if at <= |stream| then |stream| - at else 0;
    && |text| == (if left <= cap then left else cap)
    && |text| <= |stream| && text == stream[|stream| - |text|..]
    && next == |stream|
    && (lossy <==> cap < left)
  }

  lemma ReadsTheEnd(stream: Bytes, cap: nat, offset: Offset)
    ensures var (text, next, lossy) := ReadSpec(stream, cap, offset);
            IsRead(stream, cap, offset, text, next, lossy)
  {
  }

  // ----- Reading a live stream to the end -----

  datatype Event = Append(data: Bytes) | Read

  // A consumer that reads from where its last read ended, and its total text.
  function Consume(stream: Bytes, cap: nat, next: nat, events: seq<Event>): (Bytes, nat, bool)
    decreases events
  {
    if events == [] then ([], next, false)
    else match events[0]
      case Append(data) => Consume(stream + data, cap, next, events[1..])
      case Read =>
        var (text, next', lossy) := ReadSpec(stream, cap, Finite(next));
        var (rest, last, lossyRest) := Consume(stream, cap, next', events[1..]);
        (text + rest, last, lossy || lossyRest)
  }

  function Streamed(stream: Bytes, events: seq<Event>): Bytes
    decreases events
  {
    if events == [] then stream
    else if events[0].Append? then Streamed(stream + events[0].data, events[1..])
    else Streamed(stream, events[1..])
  }

  lemma {:induction false} StreamGrows(stream: Bytes, events: seq<Event>)
    ensures |stream| <= |Streamed(stream, events)|
    ensures Streamed(stream, events)[..|stream|] == stream
    decreases events
  {
    if events != [] {
      if events[0].Append? {
        StreamGrows(stream + events[0].data, events[1..]);
        var final := Streamed(stream, events);
        assert final[..|stream|] == final[..|stream + events[0].data|][..|stream|];
      } else {
        StreamGrows(stream, events[1..]);
      }
    }
  }

  // However appends and reads interleave, reads that each start where the last one
  // ended and lose nothing give back exactly the stream between the two ends. None is
  // lost while at most cap bytes come after the start, and a read at the end has it all.
  lemma {:induction false} ChainedReadsRebuild(stream: Bytes, cap: nat, next: nat, events: seq<Event>)
    requires next <= |stream|
    ensures var (text, last, lossy) := Consume(stream, cap, next, events);
            var final := Streamed(stream, events);
            && next <= last <= |final| && (!lossy ==> text == final[next..last])
            && (|final| - next <= cap ==> !lossy)
            && (events != [] && events[|events| - 1].Read? ==> last == |final|)
    decreases events
  {
    StreamGrows(stream, events);
    if events != [] {
      match events[0] {
        case Append(data) =>
          ChainedReadsRebuild(stream + data, cap, next, events[1..]);
        case Read =>
          ChainedReadsRebuild(stream, cap, |stream|, events[1..]);
          var final := Streamed(stream, events);
          var (rest, last, lossy) := Consume(stream, cap, |stream|, events[1..]);
          assert final[next..|stream|] == stream[next..];
          assert final[next..last] == final[next..|stream|] + final[|stream|..last];
      }
    }
  }

  // ----- The live chunks -----

  lemma FlattenHead(chunks: seq<Bytes>, head: nat)
    requires head < |chunks|
    ensures Flatten(chunks[head..]) == chunks[head] + Flatten(chunks[head + 1..])
  {
    assert chunks[head..][1..] == chunks[head + 1..];
  }

  // The live chunks are the last retained bytes of live: dropping the first chunk,
  // or the front of it, leaves the last of what is then retained.
  ghost predicate Window(chunks: seq<Bytes>, head: nat, live: Bytes, retained: nat) {
    head <= |chunks| && retained <= |live| && Flatten(chunks[head..]) == live[|live| - retained..]
  }

  lemma DropChunk(chunks: seq<Bytes>, head: nat, live: Bytes, retained: nat)
    requires head < |chunks| && Window(chunks, head, live, retained)
    ensures |chunks[head]| <= retained
    ensures Window(chunks, head + 1, live, retained - |chunks[head]|)
  {
    FlattenHead(chunks, head);
    var first, rest := chunks[head], Flatten(chunks[head + 1..]);
    assert rest == (first + rest)[|first|..];
    assert live[|live| - retained..][|first|..] == live[|live| - (retained - |first|)..];
  }

  lemma DropPart(chunks: seq<Bytes>, head: nat, live: Bytes, retained: nat, excess: nat)
    requires head < |chunks| && Window(chunks, head, live, retained) && excess < |chunks[head]|
    ensures excess <= retained
    ensures Window(chunks[head := chunks[head][excess..]], head, live, retained - excess)
  {
    FlattenHead(chunks, head);
    var first, rest := chunks[head], Flatten(chunks[head + 1..]);
    var cut := chunks[head := first[excess..]];
    FlattenHead(cut, head);
    assert cut[head + 1..] == chunks[head + 1..];
    assert first[excess..] + rest == (first + rest)[excess..];
    assert live[|live| - retained..][excess..] == live[|live| - (retained - excess)..];
  }

  lemma WindowBounds(chunks: seq<Bytes>, head: nat, live: Bytes, retained: nat)
    requires Window(chunks, head, live, retained)
    ensures head <= |chunks| && retained <= |live|
  {
  }

  // With nothing kept or nothing new, the live chunks stay.
  lemma SkipChunk(chunks: seq<Bytes>, head: nat, live: Bytes, retained: nat, data: Bytes)
    requires Window(chunks, head, live, retained) && (retained == 0 || data == [])
    ensures Window(chunks, head, live + data, retained)
  {
    if data == [] {
      assert live + data == live;
    } else {
      assert live[|live|..] == (live + data)[|live + data|..];
    }
  }

  lemma EmptyWindow(chunks: seq<Bytes>, live: Bytes, retained: nat)
    requires Window(chunks, |chunks|, live, retained)
    ensures retained == 0
  {
    assert chunks[|chunks|..] == [];
  }

  // What a read of the whole window gives.
  lemma WindowReads(chunks: seq<Bytes>, head: nat, live: Bytes, retained: nat)
    requires Window(chunks, head, live, retained)
    ensures head <= |chunks| && retained <= |live|
    ensures (if head >= |chunks| then [] else Flatten(chunks[head..])) == live[|live| - retained..]
  {
    if head == |chunks| {
      EmptyWindow(chunks, live, retained);
    }
  }

  lemma PushChunk(chunks: seq<Bytes>, head: nat, live: Bytes, retained: nat, data: Bytes)
    requires Window(chunks, head, live, retained)
    ensures Window(chunks + [data], head, live + data, retained + |data|)
  {
    assert (chunks + [data])[head..] == chunks[head..] + [data];
    FlattenAppend(chunks[head..], [data]);
    assert Flatten([data]) == data;
    var n := |live| - retained;
    assert (live + data)[n..] == live[n..] + data;
  }

  class Reader {
    const maxBytes: nat
    const spill: Option<Spill>
    var total: nat
    var chunks: seq<Bytes>
    var head: nat
    var retained: nat
    var spillValid: bool

    // The whole stream, and what the list has cost: chunks ever pushed, dead ones
    // spliced away, and live ones moved down by a splice.
    ghost var stream: Bytes
    ghost var pushed: nat
    ghost var dropped: nat
    ghost var moved: nat

    ghost predicate Valid()
      reads this
    {
      && total == |stream|
      && Window(chunks, head, stream, retained)
      && retained == Min(|stream|, maxBytes)
      && (forall k :: head <= k < |chunks| ==> chunks[k] != [])
      && pushed == dropped + |chunks|
      && moved <= dropped
      && (head <= 32 || head < |chunks| - head)
    }

    constructor (maxBytes: nat, spill: Option<Spill>)
      ensures Valid() && this.maxBytes == maxBytes && this.spill == spill
      ensures stream == [] && pushed == 0 && spillValid == spill.Some?
    {
      this.maxBytes := maxBytes;
      this.spill := spill;
      total, chunks, head, retained := 0, [], 0, 0;
      spillValid := spill.Some?;
      stream, pushed, dropped, moved := [], 0, 0, 0;
    }

    // The live chunks are always the last maxBytes bytes of everything appended.
    lemma LiveIsTail()
      requires Valid()
      ensures Flatten(chunks[head..]) == Tail(stream, maxBytes)
    {
    }

    // Splices have never moved more chunks than were appended, and dead slots stay
    // few: at most 32, or fewer than the live ones.
    method Append(data: Bytes)
      requires Valid()
      modifies this
      ensures Valid()
      ensures stream == old(stream) + data && spillValid == old(spillValid)
      ensures moved <= pushed <= old(pushed) + 1
    {
      hide Flatten, Window;
      total := total + |data|;
      if maxBytes == 0 || |data| == 0 {
        SkipChunk(chunks, head, stream, retained, data);
        stream := stream + data;
        return;
      }
      PushChunk(chunks, head, stream, retained, data);
      stream := stream + data;
      chunks := chunks + [data];
      pushed := pushed + 1;
      retained := retained + |data|;
      TrimHead();
      if head > 32 && head * 2 >= |chunks| {
        Compact();
      }
    }

    // Splice the dead prefix away. It moves no more chunks than it drops.
    method Compact()
      requires Window(chunks, head, stream, retained)
      requires forall k :: head <= k < |chunks| ==> chunks[k] != []
      requires head * 2 >= |chunks| && pushed == dropped + |chunks| && moved <= dropped
      modifies this`chunks, this`head, this`dropped, this`moved
      ensures head == 0 && chunks == old(chunks[head..])
      ensures Window(chunks, head, stream, retained)
      ensures forall k :: 0 <= k < |chunks| ==> chunks[k] != []
      ensures pushed == dropped + |chunks| && moved <= dropped
    {
      dropped := dropped + head;
      moved := moved + (|chunks| - head);
      chunks := chunks[head..];
      head := 0;
      assert chunks[0..] == chunks;
    }

    // The trimming loop of append.
    method TrimHead()
      requires Window(chunks, head, stream, retained)
      requires retained >= Min(|stream|, maxBytes)
      requires forall k :: head <= k < |chunks| ==> chunks[k] != []
      modifies this`chunks, this`head, this`retained
      ensures Window(chunks, head, stream, retained)
      ensures retained == Min(|stream|, maxBytes)
      ensures forall k :: head <= k < |chunks| ==> chunks[k] != []
      ensures |chunks| == |old(chunks)|
    {
      hide Flatten, Window;
      assert head <= |chunks| && retained <= |stream| by {
        WindowBounds(chunks, head, stream, retained);
      }
      var excess: int := retained - maxBytes;
      while excess > 0 && head < |chunks|
        invariant head <= |chunks| && Window(chunks, head, stream, retained)
        invariant retained >= Min(|stream|, maxBytes)
        invariant if excess > 0 then excess == retained - maxBytes else retained <= maxBytes
        invariant forall k :: head <= k < |chunks| ==> chunks[k] != []
        invariant |chunks| == |old(chunks)|
        decreases |chunks| - head, excess
      {
        var first := chunks[head];
        if |first| <= excess {
          DropChunk(chunks, head, stream, retained);
          head := head + 1;
          retained := retained - |first|;
          excess := excess - |first|;
        } else {
          DropPart(chunks, head, stream, retained, excess);
          chunks := chunks[head := first[excess..]];
          retained := retained - excess;
          excess := 0;
        }
      }
      WindowBounds(chunks, head, stream, retained);
      if head == |chunks| {
        EmptyWindow(chunks, stream, retained);
      }
    }

    // readFrom: the stream from the requested offset, or from the first position
    // still held, and whether that lost anything.
    method ReadFrom(offset: Offset) returns (chunk: Chunk)
      requires Valid()
      ensures (chunk.text, chunk.nextOffset, chunk.lossy) == ReadSpec(stream, maxBytes, offset)
      ensures IsRead(stream, maxBytes, offset, chunk.text, chunk.nextOffset, chunk.lossy)
      ensures chunk.spillPath ==
              if chunk.lossy && spill.Some? && spillValid && |stream| <= spill.value.maxBytes
              then Some(spill.value.path) else None
    {
      hide Flatten, Window;
      ReadsTheEnd(stream, maxBytes, offset);
      hide IsRead;
      WindowReads(chunks, head, stream, retained);
      var start := if total >= retained then total - retained else 0;
      var requested := Requested(offset);
      var local := if requested >= start then requested - start else 0;
      var lossy := requested < start;
      var window := if head >= |chunks| then [] else Flatten(chunks[head..]);
      assert window == stream[start..];
      var text := if local <= |window| then window[local..] else [];
      assert requested < start ==> text == stream[start..];
      chunk := Chunk(text, total, lossy,
        if lossy && spill.Some? && spillValid && total <= spill.value.maxBytes
        then Some(spill.value.path) else None);
    }

    method SetSpillValid(valid: bool)
      requires Valid()
      modifies this`spillValid
      ensures Valid() && spillValid == valid
    {
      spillValid := valid;
    }

    // The spill is needed exactly when the window no longer holds the stream.
    method SpillNeeded() returns (needed: bool)
      requires Valid()
      ensures needed <==> Tail(stream, maxBytes) != stream
    {
      needed := total > maxBytes;
    }
  }
}
