// The line window of a read (src/guest-rpc.ts): sliceLines on a whole text and
// streamLines on the chunks of a stream.
module StreamLines {
  import opened Sequences
  import opened Text

  const READ_LIMIT: nat := 2000

  // An argument that is not an integer reads as unset.
  datatype Bound = Unset | Integer(n: int)

  function FirstLine(offset: Bound): (start: int)
    ensures start >= 1
  {
    if offset.Integer? && offset.n > 0 then offset.n else 1
  }

  function LineLimit(limit: Bound): (max: int)
    ensures max >= 1
  {
    if limit.Integer? && limit.n > 0 then limit.n else READ_LIMIT
  }

  // Array.prototype.slice with two bounds that are not negative.
  function Slice<T>(s: seq<T>, from: nat, to: nat): seq<T> {
    var hi := if to <= |s| then to else |s|;
    if from <= hi then s[from..hi] else []
  }

  function SliceLines(content: Text, offset: Bound, limit: Bound): Text {
    var start := FirstLine(offset);
    Join(Slice(SplitOn(content, LF), start - 1, start - 1 + LineLimit(limit)), [LF])
  }

  // What an argument stands for: a positive integer for itself, anything else for
  // the default.
  ghost predicate StandsFor(bound: Bound, default: int, n: int) {
    if bound.Integer? && bound.n >= 1 then n == bound.n else n == default
  }

  // Lines n to m of a text, counted from 1, or to its last line if that is before m.
  ghost function LinesFromTo(content: Text, n: int, m: int): seq<Text>
    requires 1 <= n
  {
    var lines := SplitOn(content, LF);
    if n > |lines| || m < n then [] else if m <= |lines| then lines[n - 1..m] else lines[n - 1..]
  }

  // The number of line breaks a text holds.
  function Newlines(text: Text): nat {
    |SplitOn(text, LF)| - 1
  }

  lemma SliceGrow<T>(done: seq<T>, x: T, from: nat, to: nat)
    requires from <= to
    ensures Slice(done + [x], from, to) ==
            if from <= |done| < to then Slice(done, from, to) + [x] else Slice(done, from, to)
  {
  }

  lemma SliceFilled<T>(done: seq<T>, rest: seq<T>, from: nat, to: nat)
    requires from <= to <= |done|
    ensures Slice(done + rest, from, to) == Slice(done, from, to)
  {
    assert (done + rest)[from..to] == done[from..to];
  }

  // seen, read so far, is the lines done and then carry.
  ghost predicate Reading(seen: Text, done: seq<Text>, carry: Text) {
    SplitOn(seen, LF) == done + SplitOn(carry, LF)
  }

  // Text that follows cannot change the lines already ended.
  lemma ReadMore(seen: Text, done: seq<Text>, carry: Text, more: Text)
    requires Reading(seen, done, carry)
    ensures Reading(seen + more, done, carry + more)
  {
    SplitOnAppend(seen, more, LF);
    SplitOnAppend(carry, more, LF);
    FusePrefix(done, SplitOn(carry, LF), SplitOn(more, LF));
  }

  lemma Regroup<T>(a: seq<T>, x: T, b: seq<T>)
    ensures a + ([x] + b) == (a + [x]) + b
  {
  }

  lemma EndLine(seen: Text, done: seq<Text>, carry: Text, newline: int)
    requires Reading(seen, done, carry)
    requires newline == IndexOf(carry, [LF]) && newline >= 0
    ensures newline < |carry|
    ensures Reading(seen, done + [carry[..newline]], carry[newline + 1..])
  {
    SplitOnIndex(carry, LF, newline);
    Regroup(done, carry[..newline], SplitOn(carry[newline + 1..], LF));
  }

  lemma LastLine(seen: Text, done: seq<Text>, carry: Text)
    requires Reading(seen, done, carry) && IndexOf(carry, [LF]) < 0
    ensures SplitOn(seen, LF) == done + [carry] && Newlines(seen) == |done|
  {
    SplitOnNone(carry, LF);
  }

  // The lines done are the window, whatever follows.
  lemma Filled(seen: Text, done: seq<Text>, carry: Text, rest: Text, from: nat)
    requires Reading(seen, done, carry) && from <= |done|
    ensures Slice(SplitOn(seen + rest, LF), from, |done|) == Slice(done, from, |done|)
    ensures Newlines(seen) >= |done|
  {
    ReadMore(seen, done, carry, rest);
    SliceFilled(done, SplitOn(carry + rest, LF), from, |done|);
  }

  lemma ReadNothing(chunks: seq<Text>, from: nat, end: nat)
    ensures Reading(Flatten(chunks[..0]), [], []) && IndexOf<CodeUnit>([], [LF]) < 0
    ensures Slice<Text>([], from, end) == []
  {
  }

  // Pulling one more chunk.
  lemma NextChunk(chunks: seq<Text>, pulled: nat, done: seq<Text>, carry: Text)
    requires pulled < |chunks| && IndexOf(carry, [LF]) < 0
    requires Reading(Flatten(chunks[..pulled]), done, carry)
    ensures Newlines(Flatten(chunks[..pulled])) == |done|
    ensures Reading(Flatten(chunks[..pulled + 1]), done, carry + chunks[pulled])
  {
    LastLine(Flatten(chunks[..pulled]), done, carry);
    ReadMore(Flatten(chunks[..pulled]), done, carry, chunks[pulled]);
    FlattenTake(chunks, pulled);
  }

  // The window, when the loop has stopped.
  lemma Finish(chunks: seq<Text>, pulled: nat, done: seq<Text>, carry: Text, from: nat, end: nat)
    requires from <= end && |done| <= end && pulled <= |chunks|
    requires Reading(Flatten(chunks[..pulled]), done, carry)
    requires |done| < end ==> pulled == |chunks| && IndexOf(carry, [LF]) < 0
    ensures Slice(SplitOn(Flatten(chunks), LF), from, end) ==
            if |done| == end || |done| < from then Slice(done, from, end) else Slice(done, from, end) + [carry]
    ensures |done| == end ==> Newlines(Flatten(chunks[..pulled])) >= end
  {
    var seen := Flatten(chunks[..pulled]);
    if |done| == end {
      assert chunks == chunks[..pulled] + chunks[pulled..];
      FlattenAppend(chunks[..pulled], chunks[pulled..]);
      Filled(seen, done, carry, Flatten(chunks[pulled..]), from);
    } else {
      assert chunks[..pulled] == chunks;
      LastLine(seen, done, carry);
      SliceGrow(done, carry, from, end);
    }
  }

  // streamLines: the loop over the chunks, reporting how many it pulled. The
  // result is what sliceLines makes of the whole text, and a chunk is pulled only
  // while the ones before it leave the window unfilled.
  method StreamLines(chunks: seq<Text>, offset: Bound, limit: Bound) returns (text: Text, pulled: nat)
    ensures text == SliceLines(Flatten(chunks), offset, limit)
    ensures pulled <= |chunks|
    ensures forall n, k :: StandsFor(offset, 1, n) && StandsFor(limit, 2000, k) ==>
              && (forall i :: 0 <= i < pulled ==> Newlines(Flatten(chunks[..i])) < n - 1 + k)
              && (pulled < |chunks| ==> Newlines(Flatten(chunks[..pulled])) >= n - 1 + k)
  {
    hide SplitOn, Join, IndexOf, Flatten, Slice, Reading, Newlines;
    var start := FirstLine(offset);
    var end := start - 1 + LineLimit(limit);
    var out: seq<Text> := [];
    var index := 0;
    var carry: Text := [];
    var filled := false;
    pulled := 0;
    ghost var done: seq<Text> := [];
    ReadNothing(chunks, start - 1, end);
    while pulled < |chunks| && !filled
      invariant 0 <= pulled <= |chunks|
      invariant |done| == index <= end && (filled <==> index == end)
      invariant out == Slice(done, start - 1, end)
      invariant Reading(Flatten(chunks[..pulled]), done, carry)
      invariant !filled ==> IndexOf(carry, [LF]) < 0
      invariant forall k :: 0 <= k < pulled ==> Newlines(Flatten(chunks[..k])) < end
      decreases |chunks| - pulled
    {
      NextChunk(chunks, pulled, done, carry);
      carry := carry + chunks[pulled];
      pulled := pulled + 1;
      out, index, carry, filled, done :=
        TakeLines(Flatten(chunks[..pulled]), start, end, out, index, carry, done);
    }
    Finish(chunks, pulled, done, carry, start - 1, end);
    if !filled && start - 1 <= index && index < end {
      out := out + [carry];
    }
    text := Join(out, [LF]);
  }

  // The inner loop: end every line the carried text holds, until the window is
  // filled.
  method TakeLines(ghost seen: Text, start: int, end: int, out0: seq<Text>, index0: nat, carry0: Text,
                   ghost done0: seq<Text>)
    returns (out: seq<Text>, index: nat, carry: Text, filled: bool, ghost done: seq<Text>)
    requires 1 <= start <= end && index0 < end && |done0| == index0
    requires out0 == Slice(done0, start - 1, end)
    requires Reading(seen, done0, carry0)
    ensures |done| == index <= end && (filled <==> index == end)
    ensures out == Slice(done, start - 1, end)
    ensures Reading(seen, done, carry)
    ensures !filled ==> IndexOf(carry, [LF]) < 0
  {
    out, index, carry, filled, done := out0, index0, carry0, false, done0;
    var newline := IndexOf(carry, [LF]);
    while newline >= 0
      invariant |done| == index < end && !filled
      invariant newline == IndexOf(carry, [LF])
      invariant out == Slice(done, start - 1, end)
      invariant Reading(seen, done, carry)
      decreases |carry|
    {
      EndLine(seen, done, carry, newline);
      SliceGrow(done, carry[..newline], start - 1, end);
      if start - 1 <= index && index < end {
        out := out + [carry[..newline]];
      }
      done := done + [carry[..newline]];
      index := index + 1;
      carry := carry[newline + 1..];
      newline := IndexOf(carry, [LF]);
      if index >= end {
        filled := true;
        break;
      }
    }
  }

  lemma SliceIs<T>(s: seq<T>, from: nat, count: nat)
    ensures Slice(s, from, from + count) ==
            if from >= |s| then [] else if from + count <= |s| then s[from..from + count] else s[from..]
  {
  }

  // A read from line n of k lines gives lines n to n + k - 1, as far as there are any:
  // the text read splits into exactly those.
  lemma ReadIsLines(content: Text, offset: Bound, limit: Bound, n: int, k: int)
    requires StandsFor(offset, 1, n) && StandsFor(limit, 2000, k)
    ensures var lines := LinesFromTo(content, n, n + k - 1);
            && (lines == [] <==> n > |SplitOn(content, LF)|)
            && SliceLines(content, offset, limit) == Join(lines, [LF])
            && (lines != [] ==> SplitOn(SliceLines(content, offset, limit), LF) == lines)
  {
    hide SplitOn, Join;
    var lines := LinesFromTo(content, n, n + k - 1);
    SplitOnParts(content, LF);
    SliceIs(SplitOn(content, LF), n - 1, k);
    if lines != [] {
      SplitOnJoin(lines, LF);
    }
  }

  // A window at least as long as the text is the text.
  lemma WindowOfWholeText(content: Text, limit: Bound)
    requires Newlines(content) < LineLimit(limit)
    ensures SliceLines(content, Unset, limit) == content
  {
    JoinSplitOn(content, LF);
    var lines := SplitOn(content, LF);
    assert Slice(lines, 0, LineLimit(limit)) == lines;
  }

  lemma SlicesTile<T>(s: seq<T>, a: nat, b: nat, c: nat)
    requires a < b < |s| && b < c
    ensures Slice(s, a, b) != [] && Slice(s, b, c) != []
    ensures Slice(s, a, c) == Slice(s, a, b) + Slice(s, b, c)
  {
  }

  // Adjacent reads tile the text: reading j lines, then k more from the line after
  // them, is reading j + k lines at once.
  lemma WindowsTile(content: Text, n: int, j: int, k: int)
    requires 1 <= n && 1 <= j && 1 <= k && n + j <= |SplitOn(content, LF)|
    ensures SliceLines(content, Integer(n), Integer(j + k)) ==
            SliceLines(content, Integer(n), Integer(j)) + [LF] + SliceLines(content, Integer(n + j), Integer(k))
  {
    hide SplitOn, Join, Slice;
    var lines := SplitOn(content, LF);
    var a, b, c := n - 1, n - 1 + j, n - 1 + j + k;
    SlicesTile(lines, a, b, c);
    JoinAppend(Slice(lines, a, b), Slice(lines, b, c), [LF]);
  }
}
