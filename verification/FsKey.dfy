// src/fs-key.ts: the key the lock and the guards compare.
module FsKey {
  import opened Sequences
  import opened PathSegments

  predicate Absolute(path: string) {
    path != "" && path[0] == '/'
  }

  function KeySegments(path: string): Segments {
    WalkUp(SplitOn(path, '/'), [])
  }

  function KeyOf(absolute: bool, segments: Segments): string {
    if absolute then "/" + JoinPath(segments)
    else if JoinPath(segments) == "" then "." else JoinPath(segments)
  }

  function FsKey(path: string): string {
    KeyOf(Absolute(path), KeySegments(path))
  }

  method NormalizeFsKey(path: string) returns (key: string)
    ensures key == FsKey(path)
  {
    var absolute := Absolute(path);
    var parts := SplitOn(path, '/');
    var segments: seq<string> := [];
    for n := 0 to |parts|
      invariant WalkUp(parts, []) == WalkUp(parts[n..], segments)
    {
      assert parts[n..][0] == parts[n] && parts[n..][1..] == parts[n + 1..];
      if parts[n] == "" || parts[n] == "." { continue; }
      if parts[n] == ".." {
        segments := if segments == [] then [] else segments[..|segments| - 1];
        continue;
      }
      segments := segments + [parts[n]];
    }
    var joined := JoinPath(segments);
    if absolute { return "/" + joined; }
    return if joined == "" then "." else joined;
  }

  lemma SegmentsArePlain(path: string)
    ensures AllPlain(KeySegments(path))
  {
    SplitIsSlashless(path);
    WalkUpIsPlain(SplitOn(path, '/'), []);
  }

  lemma SlashSplits(s: string)
    ensures SplitOn("/" + s, '/') == [""] + SplitOn(s, '/')
  {
    assert ("/" + s)[1..] == s;
  }

  lemma SegmentsAfterSlash(s: string)
    ensures KeySegments("/" + s) == KeySegments(s)
  {
    SlashSplits(s);
    assert ([""] + SplitOn(s, '/'))[1..] == SplitOn(s, '/');
  }

  lemma SegmentsJoined(segments: Segments)
    requires AllPlain(segments)
    ensures KeySegments(JoinPath(segments)) == segments
  {
    ResolveJoined(segments);
    WalkUpAgrees(SplitOn(JoinPath(segments), '/'), []);
  }

  // A key has the absoluteness and the segments of the path it was made from.
  lemma KeyKeeps(path: string)
    ensures Absolute(FsKey(path)) == Absolute(path)
    ensures KeySegments(FsKey(path)) == KeySegments(path)
  {
    var segments := KeySegments(path);
    SegmentsArePlain(path);
    SegmentsJoined(segments);
    JoinedPlain(segments);
    if Absolute(path) {
      SegmentsAfterSlash(JoinPath(segments));
    } else if segments == [] {
      SplitOnFree(".", '/');
      assert WalkUp(["."][1..], []) == [];
    } else {
      JoinedIsPlain(segments);
    }
  }

  // Two spellings share a key exactly when both are absolute or both are not, and
  // their segments come to the same.
  lemma KeyIdentifies(a: string, b: string)
    ensures FsKey(a) == FsKey(b) <==> Absolute(a) == Absolute(b) && KeySegments(a) == KeySegments(b)
  {
    KeyKeeps(a);
    KeyKeeps(b);
  }

  lemma KeyIsIdempotent(path: string)
    ensures FsKey(FsKey(path)) == FsKey(path)
  {
    KeyKeeps(path);
    KeyIdentifies(FsKey(path), path);
  }

  lemma SegmentsOfPair(a: string, b: string)
    ensures KeySegments(a + "/" + b) == WalkUp(SplitOn(b, '/'), KeySegments(a))
  {
    SplitOnAround(a, '/', b);
    WalkUpAppend(SplitOn(a, '/'), SplitOn(b, '/'), []);
  }

  // The segments of a path come one after the other; a climb above the start stays
  // there.
  lemma SegmentsStep(path: string, segment: string)
    requires Free(segment, '/')
    ensures KeySegments(segment) == match Follow([], segment) case None => [] case Some(at) => at
    ensures KeySegments(path + "/" + segment) ==
            match Follow(KeySegments(path), segment) case None => [] case Some(at) => at
  {
    SplitOnFree(segment, '/');
    WalkOne(segment, []);
    WalkOne(segment, KeySegments(path));
    SegmentsOfPair(path, segment);
  }

  // The key is those segments after one slash or none, and "." for a relative path
  // that leads nowhere else.
  lemma KeyIs(path: string)
    ensures FsKey(path) ==
            if StartsWith(path, "/") then "/" + JoinPath(KeySegments(path))
            else if KeySegments(path) == [] then "." else JoinPath(KeySegments(path))
  {
    SegmentsArePlain(path);
    JoinedPlain(KeySegments(path));
    if path != "" {
      assert path[..1] == [path[0]];
    }
  }

  // Normalising a prefix first does not change the key, except for the empty prefix,
  // which would turn an absolute path into a relative one.
  lemma PrefixFirst(prefix: string, rest: string)
    ensures FsKey(FsKey(prefix) + "/" + rest) == FsKey(prefix + "/" + rest) <==> prefix != ""
  {
    KeyKeeps(prefix);
    SegmentsOfPair(prefix, rest);
    SegmentsOfPair(FsKey(prefix), rest);
    KeyIdentifies(FsKey(prefix) + "/" + rest, prefix + "/" + rest);
    assert FsKey(prefix) != "";
    assert (prefix + "/" + rest)[0] == if prefix == "" then '/' else prefix[0];
    assert (FsKey(prefix) + "/" + rest)[0] == FsKey(prefix)[0];
  }
}
