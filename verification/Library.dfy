// What the other modules share: options, the order of strings, operations on
// sequences, path segments, and document trees.

module Options {
  datatype Option<+T> = None | Some(value: T)
}

// The order of JavaScript's Array.prototype.sort() on strings: lexicographic by
// code unit.
module Ordering {
  predicate Below(a: string, b: string) {
    if b == [] then false
    else if a == [] then true
    else a[0] < b[0] || (a[0] == b[0] && Below(a[1..], b[1..]))
  }

  lemma {:induction false} BelowIrreflexive(a: string)
    ensures !Below(a, a)
  {
    if a != [] {
      BelowIrreflexive(a[1..]);
    }
  }

  lemma {:induction false} BelowTotal(a: string, b: string)
    ensures Below(a, b) || a == b || Below(b, a)
  {
    if a != [] && b != [] {
      BelowTotal(a[1..], b[1..]);
      assert a == [a[0]] + a[1..] && b == [b[0]] + b[1..];
    }
  }

  lemma {:induction false} BelowTransitive(a: string, b: string, c: string)
    requires Below(a, b) && Below(b, c)
    ensures Below(a, c)
  {
    if a != [] && a[0] == b[0] == c[0] {
      BelowTransitive(a[1..], b[1..], c[1..]);
    }
  }

  lemma BelowAsymmetric(a: string, b: string)
    requires Below(a, b)
    ensures a != b && !Below(b, a)
  {
    BelowIrreflexive(a);
    if Below(b, a) {
      BelowTransitive(a, b, a);
    }
  }

  // Sorted, and no string twice.
  ghost predicate Increasing(s: seq<string>) {
    forall i, j :: 0 <= i < j < |s| ==> Below(s[i], s[j])
  }

  function Elements(s: seq<string>): set<string> {
    set x | x in s
  }

  function Insert(s: seq<string>, x: string): (r: seq<string>)
    ensures forall y :: y in r <==> y in s || y == x
  {
    if s == [] || Below(x, s[0]) then [x] + s
    else if x == s[0] then s
    else [s[0]] + Insert(s[1..], x)
  }

  lemma {:induction false} InsertKeepsOrder(s: seq<string>, x: string)
    requires Increasing(s)
    ensures Increasing(Insert(s, x))
  {
    hide Below;
    if s == [] {
    } else if Below(x, s[0]) {
      forall j | 0 < j < |s| ensures Below(x, s[j]) {
        BelowTransitive(x, s[0], s[j]);
      }
    } else if x != s[0] {
      BelowTotal(x, s[0]);
      InsertKeepsOrder(s[1..], x);
      var r := Insert(s[1..], x);
      forall j | 0 <= j < |r| ensures Below(s[0], r[j]) {
        assert r[j] in r;
        if r[j] in s[1..] {
          var i :| 0 <= i < |s[1..]| && s[1..][i] == r[j];
          assert s[i + 1] == r[j];
        }
      }
    }
  }

  // [...new Set(s)].sort()
  function SortUnique(s: seq<string>): seq<string> {
    if s == [] then [] else Insert(SortUnique(s[1..]), s[0])
  }

  lemma {:induction false} SortUniqueSorts(s: seq<string>)
    ensures Increasing(SortUnique(s)) && Elements(SortUnique(s)) == Elements(s)
  {
    if s != [] {
      SortUniqueSorts(s[1..]);
      InsertKeepsOrder(SortUnique(s[1..]), s[0]);
      assert s == [s[0]] + s[1..];
      assert forall x :: x in SortUnique(s[1..]) <==> x in Elements(SortUnique(s[1..]));
      assert forall x :: x in s[1..] <==> x in Elements(s[1..]);
    }
  }

  lemma EmptyElements(s: seq<string>)
    ensures s == [] <==> Elements(s) == {}
    ensures s != [] ==> s[0] in Elements(s)
  {
    if s != [] {
      assert s[0] in Elements(s);
    }
  }

  lemma FirstIsLeast(a: seq<string>, x: string)
    requires Increasing(a) && x in Elements(a)
    ensures !Below(x, a[0])
  {
    hide Below;
    var i :| 0 <= i < |a| && a[i] == x;
    if i == 0 {
      BelowIrreflexive(x);
    } else {
      BelowAsymmetric(a[0], x);
    }
  }

  // A set has one sorted list.
  lemma {:induction false} SortedOnce(a: seq<string>, b: seq<string>)
    requires Increasing(a) && Increasing(b) && Elements(a) == Elements(b)
    ensures a == b
  {
    hide Below;
    EmptyElements(a);
    EmptyElements(b);
    if a != [] {
      FirstIsLeast(a, b[0]);
      FirstIsLeast(b, a[0]);
      BelowTotal(a[0], b[0]);
      TailElements(a);
      TailElements(b);
      SortedOnce(a[1..], b[1..]);
    }
  }

  lemma TailElements(a: seq<string>)
    requires Increasing(a) && a != []
    ensures Increasing(a[1..]) && Elements(a[1..]) == Elements(a) - {a[0]}
  {
    hide Below;
    forall x | x in Elements(a[1..]) ensures x in Elements(a) && x != a[0] {
      var i :| 0 <= i < |a[1..]| && a[1..][i] == x;
      assert a[i + 1] == x;
      BelowAsymmetric(a[0], x);
    }
    forall x | x in Elements(a) && x != a[0] ensures x in Elements(a[1..]) {
      var i :| 0 <= i < |a| && a[i] == x;
      assert a[1..][i - 1] == x;
    }
  }

  // Sorting a sorted list changes nothing, so sorting does not depend on the
  // order, or the repetitions, it starts from.
  lemma SortIsCanonical(a: seq<string>, b: seq<string>)
    ensures SortUnique(a) == SortUnique(b) <==> Elements(a) == Elements(b)
    ensures Increasing(a) ==> SortUnique(a) == a
  {
    SortUniqueSorts(a);
    SortUniqueSorts(b);
    if Elements(a) == Elements(b) {
      SortedOnce(SortUnique(a), SortUnique(b));
    }
    if Increasing(a) {
      SortedOnce(SortUnique(a), a);
    }
  }

  // The sorted list of a set.
  ghost function Sorted(keys: set<string>): (s: seq<string>)
    ensures Elements(s) == keys
  {
    if keys == {} then []
    else
      var x :| x in keys;
      var s := Insert(Sorted(keys - {x}), x);
      assert forall y :: y in Sorted(keys - {x}) <==> y in Elements(Sorted(keys - {x}));
      s
  }

  lemma {:induction false} SortedIncreases(keys: set<string>)
    ensures Increasing(Sorted(keys))
  {
    if keys != {} {
      var x :| x in keys && Sorted(keys) == Insert(Sorted(keys - {x}), x);
      SortedIncreases(keys - {x});
      InsertKeepsOrder(Sorted(keys - {x}), x);
    }
  }

  // [...map.keys()].sort()
  method SortKeys(keys: set<string>) returns (s: seq<string>)
    ensures s == Sorted(keys)
  {
    s := [];
    var rest := keys;
    while rest != {}
      invariant rest <= keys && Increasing(s) && Elements(s) == keys - rest
      decreases |rest|
    {
      var x :| x in rest;
      InsertKeepsOrder(s, x);
      ghost var before := s;
      s := Insert(s, x);
      assert forall y :: y in before <==> y in Elements(before);
      rest := rest - {x};
    }
    SortedIncreases(keys);
    SortedOnce(s, Sorted(keys));
  }

  // ----- Sorting a list that may repeat -----

  ghost predicate Ascending(s: seq<string>) {
    forall i, j :: 0 <= i < j < |s| ==> !Below(s[j], s[i])
  }

  function Place(s: seq<string>, x: string): (r: seq<string>)
    ensures forall y :: y in r <==> y in s || y == x
  {
    if s == [] || !Below(s[0], x) then [x] + s else [s[0]] + Place(s[1..], x)
  }

  function Sort(s: seq<string>): seq<string> {
    if s == [] then [] else Place(Sort(s[1..]), s[0])
  }

  lemma {:induction false} PlaceKeeps(s: seq<string>, x: string)
    ensures multiset(Place(s, x)) == multiset(s) + multiset{x}
  {
    hide Below;
    if s != [] && Below(s[0], x) {
      PlaceKeeps(s[1..], x);
      assert s == [s[0]] + s[1..];
    }
  }

  lemma {:induction false} PlaceAscends(s: seq<string>, x: string)
    requires Ascending(s)
    ensures Ascending(Place(s, x))
  {
    hide Below;
    if s == [] {
    } else if !Below(s[0], x) {
      forall j | 0 <= j < |s| ensures !Below(s[j], x) {
        if Below(s[j], x) && j > 0 {
          BelowTotal(s[0], s[j]);
          if Below(s[0], s[j]) {
            BelowTransitive(s[0], s[j], x);
          }
        }
      }
    } else {
      PlaceAscends(s[1..], x);
      BelowAsymmetric(s[0], x);
      var rest := Place(s[1..], x);
      forall j | 0 <= j < |rest| ensures !Below(rest[j], s[0]) {
        assert rest[j] in rest;
        if rest[j] in s[1..] {
          var i :| 0 <= i < |s[1..]| && s[1..][i] == rest[j];
          assert s[i + 1] == rest[j];
        }
      }
    }
  }

  lemma {:induction false} SortSorts(s: seq<string>)
    ensures Ascending(Sort(s)) && multiset(Sort(s)) == multiset(s)
  {
    hide Below;
    if s != [] {
      SortSorts(s[1..]);
      PlaceAscends(Sort(s[1..]), s[0]);
      PlaceKeeps(Sort(s[1..]), s[0]);
      assert s == [s[0]] + s[1..];
    }
  }

  lemma {:induction false} AscendingOnce(a: seq<string>, b: seq<string>)
    requires Ascending(a) && Ascending(b) && multiset(a) == multiset(b)
    ensures a == b
  {
    hide Below;
    if a == [] || b == [] {
      assert |multiset(a)| == |a| && |multiset(b)| == |b|;
    } else {
      LeastFirst(a, b[0]);
      LeastFirst(b, a[0]);
      BelowTotal(a[0], b[0]);
      assert a == [a[0]] + a[1..] && b == [b[0]] + b[1..];
      assert multiset(a[1..]) == multiset(a) - multiset{a[0]};
      assert multiset(b[1..]) == multiset(b) - multiset{b[0]};
      AscendingOnce(a[1..], b[1..]);
    }
  }

  lemma LeastFirst(a: seq<string>, x: string)
    requires Ascending(a) && a != [] && (x in multiset(a) || x in a)
    ensures !Below(x, a[0])
  {
    hide Below;
    var i :| 0 <= i < |a| && a[i] == x;
    if i == 0 {
      BelowIrreflexive(x);
    }
  }

  // Sorting tells two lists apart exactly by what they hold and how often.
  lemma SortCompares(a: seq<string>, b: seq<string>)
    ensures Sort(a) == Sort(b) <==> multiset(a) == multiset(b)
    ensures Increasing(a) ==> Sort(a) == a
  {
    SortSorts(a);
    SortSorts(b);
    if multiset(a) == multiset(b) {
      AscendingOnce(Sort(a), Sort(b));
    }
    if Increasing(a) {
      forall i, j | 0 <= i < j < |a| ensures !Below(a[j], a[i]) {
        BelowAsymmetric(a[i], a[j]);
      }
      AscendingOnce(Sort(a), a);
    }
  }
}

// Splitting and joining, as JavaScript's String.prototype.split and
// Array.prototype.join do it: leftmost, non-overlapping matches.
module Sequences {

  // ----- Splitting on a sequence -----

  predicate MatchAt<T(==)>(s: seq<T>, sep: seq<T>, i: int) {
    0 <= i && i + |sep| <= |s| && s[i..i + |sep|] == sep
  }

  lemma MatchAtTail<T>(s: seq<T>, sep: seq<T>, j: int)
    requires 1 <= j <= |s|
    ensures MatchAt(s, sep, j) <==> MatchAt(s[1..], sep, j - 1)
  {
    if j + |sep| <= |s| {
      assert s[1..][j - 1..j - 1 + |sep|] == s[j..j + |sep|];
    }
  }

  // The index of the leftmost occurrence of sep in s, or -1.
  function IndexOf<T(==)>(s: seq<T>, sep: seq<T>): (i: int)
    requires sep != []
    ensures i == -1 || 0 <= i <= |s| - |sep|
  {
    if |s| < |sep| then -1
    else if MatchAt(s, sep, 0) then 0
    else
      var i := IndexOf(s[1..], sep);
      if i < 0 then -1 else i + 1
  }

  lemma {:induction false} IndexOfFirst<T>(s: seq<T>, sep: seq<T>)
    requires sep != []
    ensures IndexOf(s, sep) >= 0 ==> MatchAt(s, sep, IndexOf(s, sep))
    ensures forall j :: 0 <= j < (if IndexOf(s, sep) < 0 then |s| else IndexOf(s, sep)) ==> !MatchAt(s, sep, j)
  {
    if |s| >= |sep| && !MatchAt(s, sep, 0) {
      IndexOfFirst(s[1..], sep);
      forall j | 1 <= j <= |s| ensures MatchAt(s, sep, j) <==> MatchAt(s[1..], sep, j - 1) {
        MatchAtTail(s, sep, j);
      }
    }
  }

  function Split<T(==)>(s: seq<T>, sep: seq<T>): (parts: seq<seq<T>>)
    requires sep != []
    ensures parts != []
  {
    var i := IndexOf(s, sep);
    if i < 0 then [s] else [s[..i]] + Split(s[i + |sep|..], sep)
  }

  function Join<T>(parts: seq<seq<T>>, sep: seq<T>): seq<T> {
    if parts == [] then []
    else if |parts| == 1 then parts[0]
    else parts[0] + sep + Join(parts[1..], sep)
  }

  lemma {:induction false} JoinSplit<T>(s: seq<T>, sep: seq<T>)
    requires sep != []
    ensures Join(Split(s, sep), sep) == s
    decreases |s|
  {
    var i := IndexOf(s, sep);
    if i >= 0 {
      var rest := s[i + |sep|..];
      JoinSplit(rest, sep);
      IndexOfFirst(s, sep);
      assert ([s[..i]] + Split(rest, sep))[1..] == Split(rest, sep);
      assert s == s[..i] + s[i..i + |sep|] + rest;
    }
  }

  lemma {:induction false} JoinAppend<T>(a: seq<seq<T>>, b: seq<seq<T>>, sep: seq<T>)
    requires a != [] && b != []
    ensures Join(a + b, sep) == Join(a, sep) + sep + Join(b, sep)
  {
    assert (a + b)[0] == a[0];
    if |a| == 1 {
      assert (a + b)[1..] == b;
    } else {
      JoinAppend(a[1..], b, sep);
      assert (a + b)[1..] == a[1..] + b;
      var ja, jb := Join(a[1..], sep), Join(b, sep);
      assert a[0] + sep + (ja + sep + jb) == (a[0] + sep + ja) + sep + jb;
    }
  }

  // ----- Occurrences and replacement -----

  // The number of matches a split finds, as the source counts them.
  function Occurrences<T(==)>(s: seq<T>, sep: seq<T>): nat
    requires sep != []
  {
    |Split(s, sep)| - 1
  }

  lemma SplitAtMatch<T>(s: seq<T>, sep: seq<T>)
    requires sep != [] && MatchAt(s, sep, 0)
    ensures Split(s, sep) == [[]] + Split(s[|sep|..], sep)
  {
    assert s[..0] == [];
  }

  lemma IndexOfPastMiss<T>(s: seq<T>, sep: seq<T>)
    requires sep != [] && |sep| <= |s| && !MatchAt(s, sep, 0)
    ensures IndexOf(s, sep) == if IndexOf(s[1..], sep) < 0 then -1 else IndexOf(s[1..], sep) + 1
  {
  }

  lemma SplitNone<T>(s: seq<T>, sep: seq<T>)
    requires sep != [] && IndexOf(s, sep) < 0
    ensures Split(s, sep) == [s]
  {
  }

  lemma SplitFound<T>(s: seq<T>, sep: seq<T>, part: seq<T>, rest: seq<T>)
    requires sep != [] && s == part + sep + rest && IndexOf(s, sep) == |part|
    ensures Split(s, sep) == [part] + Split(rest, sep)
  {
    assert s[..|part|] == part;
    assert s[|part| + |sep|..] == rest;
  }

  // The part list with one more element at the front of its first part.
  function Grow<T>(x: T, parts: seq<seq<T>>): (grown: seq<seq<T>>)
    requires parts != []
    ensures |grown| == |parts|
  {
    [[x] + parts[0]] + parts[1..]
  }

  lemma GrowCons<T>(x: T, part: seq<T>, rest: seq<seq<T>>)
    ensures Grow(x, [part] + rest) == [[x] + part] + rest
  {
    assert ([part] + rest)[1..] == rest;
  }

  lemma SplitPastMiss<T>(s: seq<T>, sep: seq<T>)
    requires sep != [] && |sep| <= |s| && !MatchAt(s, sep, 0)
    ensures Split(s, sep) == Grow(s[0], Split(s[1..], sep))
  {
    IndexOfPastMiss(s, sep);
    assert s == [s[0]] + s[1..];
    var i := IndexOf(s[1..], sep);
    if i < 0 {
      SplitNone(s[1..], sep);
      SplitNone(s, sep);
    } else {
      var part, rest := SplitFoundParts(s[1..], sep);
      assert s == ([s[0]] + part) + sep + rest;
      SplitFound(s, sep, [s[0]] + part, rest);
      GrowCons(s[0], part, Split(rest, sep));
    }
  }

  lemma SplitFoundParts<T>(s: seq<T>, sep: seq<T>) returns (part: seq<T>, rest: seq<T>)
    requires sep != [] && IndexOf(s, sep) >= 0
    ensures s == part + sep + rest && IndexOf(s, sep) == |part|
    ensures Split(s, sep) == [part] + Split(rest, sep)
  {
    IndexOfFirst(s, sep);
    var i := IndexOf(s, sep);
    part, rest := s[..i], s[i + |sep|..];
    assert s == part + s[i..i + |sep|] + rest;
    SplitFound(s, sep, part, rest);
  }

  lemma SplitStep<T>(s: seq<T>, sep: seq<T>)
    requires sep != []
    ensures |s| < |sep| ==> Split(s, sep) == [s]
    ensures MatchAt(s, sep, 0) ==> Split(s, sep) == [[]] + Split(s[|sep|..], sep)
    ensures |sep| <= |s| && !MatchAt(s, sep, 0) ==>
              Split(s, sep) == Grow(s[0], Split(s[1..], sep))
  {
    if MatchAt(s, sep, 0) {
      SplitAtMatch(s, sep);
    } else if |sep| <= |s| {
      SplitPastMiss(s, sep);
    }
  }

  lemma OccurrencesStep<T>(s: seq<T>, sep: seq<T>)
    requires sep != []
    ensures |s| < |sep| ==> Occurrences(s, sep) == 0
    ensures MatchAt(s, sep, 0) ==> Occurrences(s, sep) == 1 + Occurrences(s[|sep|..], sep)
    ensures |sep| <= |s| && !MatchAt(s, sep, 0) ==> Occurrences(s, sep) == Occurrences(s[1..], sep)
  {
    SplitStep(s, sep);
  }

  // String.prototype.replaceAll with a literal pattern: scan from the left,
  // replace a match and continue after it.
  function ReplaceAll<T(==)>(s: seq<T>, pattern: seq<T>, replacement: seq<T>): seq<T>
    requires pattern != []
    decreases |s|
  {
    if |s| < |pattern| then s
    else if MatchAt(s, pattern, 0) then replacement + ReplaceAll(s[|pattern|..], pattern, replacement)
    else [s[0]] + ReplaceAll(s[1..], pattern, replacement)
  }

  lemma JoinGrow<T>(x: T, parts: seq<seq<T>>, sep: seq<T>)
    requires parts != []
    ensures Join(Grow(x, parts), sep) == [x] + Join(parts, sep)
  {
  }

  lemma JoinEmptyHead<T>(parts: seq<seq<T>>, sep: seq<T>)
    requires parts != []
    ensures Join([[]] + parts, sep) == sep + Join(parts, sep)
  {
    assert [] + sep == sep;
  }

  // split(pattern).join(new) is the left-to-right replacement.
  lemma {:induction false} JoinSplitIsReplaceAll<T>(s: seq<T>, pattern: seq<T>, replacement: seq<T>)
    requires pattern != []
    ensures Join(Split(s, pattern), replacement) == ReplaceAll(s, pattern, replacement)
    decreases |s|
  {
    SplitStep(s, pattern);
    if |s| >= |pattern| {
      if MatchAt(s, pattern, 0) {
        JoinSplitIsReplaceAll(s[|pattern|..], pattern, replacement);
        JoinEmptyHead(Split(s[|pattern|..], pattern), replacement);
      } else {
        JoinSplitIsReplaceAll(s[1..], pattern, replacement);
        JoinGrow(s[0], Split(s[1..], pattern), replacement);
      }
    }
  }

  lemma OneMore(n: int, d: int)
    ensures (1 + n) * d == d + n * d
  {
  }

  lemma {:induction false} ReplaceAllLength<T>(s: seq<T>, pattern: seq<T>, replacement: seq<T>)
    requires pattern != []
    ensures |ReplaceAll(s, pattern, replacement)| ==
            |s| + Occurrences(s, pattern) * (|replacement| - |pattern|)
    decreases |s|
  {
    var d := |replacement| - |pattern|;
    OccurrencesStep(s, pattern);
    if |s| < |pattern| {
      assert 0 * d == 0;
    } else if MatchAt(s, pattern, 0) {
      ReplaceAllLength(s[|pattern|..], pattern, replacement);
      OneMore(Occurrences(s[|pattern|..], pattern), d);
    } else {
      ReplaceAllLength(s[1..], pattern, replacement);
    }
  }

  lemma {:induction false} ReplaceAllSame<T>(s: seq<T>, pattern: seq<T>)
    requires pattern != []
    ensures ReplaceAll(s, pattern, pattern) == s
  {
    JoinSplitIsReplaceAll(s, pattern, pattern);
    JoinSplit(s, pattern);
  }

  // ----- Splitting on one element -----

  // The same split when the separator is a single element, read off directly.
  function SplitOn<T(==)>(s: seq<T>, c: T): (parts: seq<seq<T>>)
    ensures parts != []
  {
    if s == [] then [[]]
    else
      var rest := SplitOn(s[1..], c);
      if s[0] == c then [[]] + rest else Grow(s[0], rest)
  }

  lemma {:induction false} SplitOneElement<T>(s: seq<T>, c: T)
    ensures Split(s, [c]) == SplitOn(s, c)
    decreases |s|
  {
    SplitStep(s, [c]);
    if s != [] {
      assert s[0..1] == [s[0]];
      SplitOneElement(s[1..], c);
    }
  }

  lemma SplitOnIndex<T>(s: seq<T>, c: T, i: int)
    requires i == IndexOf(s, [c]) && i >= 0
    ensures SplitOn(s, c) == [s[..i]] + SplitOn(s[i + 1..], c)
  {
    var part, rest := SplitFoundParts(s, [c]);
    assert part == s[..i] && rest == s[i + 1..];
    SplitOneElement(s, c);
    SplitOneElement(rest, c);
  }

  lemma SplitOnNone<T>(s: seq<T>, c: T)
    requires IndexOf(s, [c]) < 0
    ensures SplitOn(s, c) == [s]
  {
    SplitOneElement(s, c);
  }

  predicate StartsWith<T(==)>(s: seq<T>, prefix: seq<T>) {
    |prefix| <= |s| && s[..|prefix|] == prefix
  }

  predicate Free<T(==)>(s: seq<T>, c: T) {
    c !in s
  }

  lemma {:induction false} SplitOnFree<T>(s: seq<T>, c: T)
    requires Free(s, c)
    ensures SplitOn(s, c) == [s]
  {
    if s != [] {
      SplitOnFree(s[1..], c);
      assert s == [s[0]] + s[1..];
    }
  }

  // No part of a split on c contains c.
  lemma {:induction false} SplitOnParts<T>(s: seq<T>, c: T)
    ensures forall k :: 0 <= k < |SplitOn(s, c)| ==> Free(SplitOn(s, c)[k], c)
  {
    if s != [] {
      SplitOnParts(s[1..], c);
    }
  }

  lemma {:induction false} JoinSplitOn<T>(s: seq<T>, c: T)
    ensures Join(SplitOn(s, c), [c]) == s
  {
    SplitOneElement(s, c);
    JoinSplit(s, [c]);
  }

  // Two part lists laid end to end, the last part of p running into the first of q.
  function Fuse<T>(p: seq<seq<T>>, q: seq<seq<T>>): seq<seq<T>>
    requires p != [] && q != []
  {
    p[..|p| - 1] + [p[|p| - 1] + q[0]] + q[1..]
  }

  lemma FuseCons<T>(x: seq<T>, p: seq<seq<T>>, q: seq<seq<T>>)
    requires p != [] && q != []
    ensures Fuse([x] + p, q) == [x] + Fuse(p, q)
  {
    assert ([x] + p)[..|p|] == [x] + p[..|p| - 1];
  }

  lemma FusePrefix<T>(done: seq<seq<T>>, p: seq<seq<T>>, q: seq<seq<T>>)
    requires p != [] && q != []
    ensures Fuse(done + p, q) == done + Fuse(p, q)
  {
    assert (done + p)[..|done + p| - 1] == done + p[..|p| - 1];
  }

  lemma FuseGrow<T>(x: T, p: seq<seq<T>>, q: seq<seq<T>>)
    requires p != [] && q != []
    ensures Fuse(Grow(x, p), q) == Grow(x, Fuse(p, q))
  {
    if |p| == 1 {
      assert ([x] + p[0]) + q[0] == [x] + (p[0] + q[0]);
    } else {
      var g := Grow(x, p);
      assert g[..|g| - 1] == [[x] + p[0]] + p[1..|p| - 1];
      assert p[..|p| - 1] == [p[0]] + p[1..|p| - 1];
    }
  }

  // Splitting a concatenation: the two middle parts fuse.
  lemma {:induction false} SplitOnAppend<T>(a: seq<T>, b: seq<T>, c: T)
    ensures SplitOn(a + b, c) == Fuse(SplitOn(a, c), SplitOn(b, c))
  {
    var q := SplitOn(b, c);
    if a == [] {
      assert a + b == b;
      assert [] + q[0] == q[0];
    } else {
      var p := SplitOn(a[1..], c);
      SplitOnAppend(a[1..], b, c);
      assert (a + b)[1..] == a[1..] + b;
      assert (a + b)[0] == a[0];
      if a[0] == c {
        FuseCons([], p, q);
      } else {
        FuseGrow(a[0], p, q);
      }
    }
  }

  lemma SplitOnAround<T>(a: seq<T>, c: T, b: seq<T>)
    ensures SplitOn(a + [c] + b, c) == SplitOn(a, c) + SplitOn(b, c)
  {
    var p := SplitOn(a, c);
    assert ([c] + b)[1..] == b;
    assert SplitOn([c] + b, c) == [[]] + SplitOn(b, c);
    SplitOnAppend(a, [c] + b, c);
    assert a + [c] + b == a + ([c] + b);
    assert p[|p| - 1] + [] == p[|p| - 1];
  }

  lemma {:induction false} SplitOnJoin<T>(parts: seq<seq<T>>, c: T)
    requires parts != []
    requires forall k :: 0 <= k < |parts| ==> Free(parts[k], c)
    ensures SplitOn(Join(parts, [c]), c) == parts
  {
    SplitOnFree(parts[0], c);
    if |parts| > 1 {
      SplitOnJoin(parts[1..], c);
      SplitOnAround(parts[0], c, Join(parts[1..], [c]));
    }
  }

  // ----- Chunks -----

  function Flatten<T>(chunks: seq<seq<T>>): seq<T> {
    if chunks == [] then [] else chunks[0] + Flatten(chunks[1..])
  }

  lemma {:induction false} FlattenAppend<T>(a: seq<seq<T>>, b: seq<seq<T>>)
    ensures Flatten(a + b) == Flatten(a) + Flatten(b)
  {
    if a == [] {
      assert a + b == b;
      assert [] + Flatten(b) == Flatten(b);
    } else {
      FlattenAppend(a[1..], b);
      assert (a + b)[0] == a[0] && (a + b)[1..] == a[1..] + b;
      assert a[0] + (Flatten(a[1..]) + Flatten(b)) == (a[0] + Flatten(a[1..])) + Flatten(b);
    }
  }

  lemma FlattenTake<T>(chunks: seq<seq<T>>, i: nat)
    requires i < |chunks|
    ensures Flatten(chunks[..i + 1]) == Flatten(chunks[..i]) + chunks[i]
  {
    assert chunks[..i + 1] == chunks[..i] + [chunks[i]];
    FlattenAppend(chunks[..i], [chunks[i]]);
    assert Flatten([chunks[i]]) == chunks[i];
  }

  // ----- Filtering and mapping -----

  function Filter<T>(s: seq<T>, p: T -> bool): seq<T> {
    if s == [] then [] else if p(s[0]) then [s[0]] + Filter(s[1..], p) else Filter(s[1..], p)
  }

  function Map<T, R>(s: seq<T>, f: T -> R): (mapped: seq<R>)
    ensures |mapped| == |s| && forall i :: 0 <= i < |s| ==> mapped[i] == f(s[i])
  {
    if s == [] then [] else [f(s[0])] + Map(s[1..], f)
  }

  lemma {:induction false} Filtered<T>(s: seq<T>, p: T -> bool, x: T)
    ensures x in Filter(s, p) <==> x in s && p(x)
  {
    if s != [] {
      Filtered(s[1..], p, x);
      assert s == [s[0]] + s[1..];
    }
  }

  lemma {:induction false} FilterAlike<T>(s: seq<T>, p: T -> bool, q: T -> bool)
    requires forall x :: p(x) == q(x)
    ensures Filter(s, p) == Filter(s, q)
  {
    if s != [] {
      FilterAlike(s[1..], p, q);
    }
  }

  lemma {:induction false} FilterAppend<T>(a: seq<T>, x: T, p: T -> bool)
    ensures Filter(a + [x], p) == Filter(a, p) + if p(x) then [x] else []
  {
    if a == [] {
      assert a + [x] == [x];
      assert Filter([x][1..], p) == [];
    } else {
      FilterAppend(a[1..], x, p);
      assert (a + [x])[1..] == a[1..] + [x];
      assert (a + [x])[0] == a[0];
    }
  }

  lemma {:induction false} MapAppend<T, R>(a: seq<T>, x: T, f: T -> R)
    ensures Map(a + [x], f) == Map(a, f) + [f(x)]
  {
    if a == [] {
      assert a + [x] == [x] && [x][1..] == [];
    } else {
      MapAppend(a[1..], x, f);
      assert (a + [x])[1..] == a[1..] + [x];
    }
  }

  lemma MapNext<T, R>(s: seq<T>, n: nat, f: T -> R)
    requires n < |s|
    ensures Map(s[..n + 1], f) == Map(s[..n], f) + [f(s[n])]
  {
    assert s[..n + 1] == s[..n] + [s[n]];
    MapAppend(s[..n], s[n], f);
  }
}

// Lexical path segments: what the path helpers share.
module PathSegments {
  import opened Options
  import opened Sequences

  type Segments = seq<string>

  // A segment that names a child: not empty, not a dot or two, no slash.
  predicate Plain(segment: string) {
    segment != "" && segment != "." && segment != ".." && Free(segment, '/')
  }

  ghost predicate AllPlain(segments: Segments) {
    forall i :: 0 <= i < |segments| ==> Plain(segments[i])
  }

  ghost predicate Slashless(parts: Segments) {
    forall i :: 0 <= i < |parts| ==> Free(parts[i], '/')
  }

  // Follow the parts from a directory, refusing to climb above the start.
  function Walk(parts: Segments, sofar: Segments): Option<Segments>
    decreases |parts|
  {
    if parts == [] then Some(sofar)
    else if parts[0] == "" || parts[0] == "." then Walk(parts[1..], sofar)
    else if parts[0] == ".." then
      if sofar == [] then None else Walk(parts[1..], sofar[..|sofar| - 1])
    else Walk(parts[1..], sofar + [parts[0]])
  }

  // The same, staying at the start instead of climbing above it.
  function WalkUp(parts: Segments, sofar: Segments): Segments
    decreases |parts|
  {
    if parts == [] then sofar
    else if parts[0] == "" || parts[0] == "." then WalkUp(parts[1..], sofar)
    else if parts[0] == ".." then
      WalkUp(parts[1..], if sofar == [] then [] else sofar[..|sofar| - 1])
    else WalkUp(parts[1..], sofar + [parts[0]])
  }

  lemma {:induction false} WalkIsPlain(parts: Segments, sofar: Segments)
    requires Slashless(parts) && AllPlain(sofar)
    ensures Walk(parts, sofar).Some? ==> AllPlain(Walk(parts, sofar).value)
    decreases |parts|
  {
    if parts != [] {
      if parts[0] == "" || parts[0] == "." {
        WalkIsPlain(parts[1..], sofar);
      } else if parts[0] == ".." {
        if sofar != [] {
          WalkIsPlain(parts[1..], sofar[..|sofar| - 1]);
        }
      } else {
        WalkIsPlain(parts[1..], sofar + [parts[0]]);
      }
    }
  }

  lemma {:induction false} WalkUpIsPlain(parts: Segments, sofar: Segments)
    requires Slashless(parts) && AllPlain(sofar)
    ensures AllPlain(WalkUp(parts, sofar))
    decreases |parts|
  {
    if parts != [] {
      if parts[0] == "" || parts[0] == "." {
        WalkUpIsPlain(parts[1..], sofar);
      } else if parts[0] == ".." {
        WalkUpIsPlain(parts[1..], if sofar == [] then [] else sofar[..|sofar| - 1]);
      } else {
        WalkUpIsPlain(parts[1..], sofar + [parts[0]]);
      }
    }
  }

  // Where nothing climbs above the start, the two agree.
  lemma {:induction false} WalkUpAgrees(parts: Segments, sofar: Segments)
    ensures Walk(parts, sofar).Some? ==> Walk(parts, sofar).value == WalkUp(parts, sofar)
    decreases |parts|
  {
    if parts != [] {
      if parts[0] == "" || parts[0] == "." {
        WalkUpAgrees(parts[1..], sofar);
      } else if parts[0] == ".." {
        WalkUpAgrees(parts[1..], if sofar == [] then [] else sofar[..|sofar| - 1]);
      } else {
        WalkUpAgrees(parts[1..], sofar + [parts[0]]);
      }
    }
  }

  lemma {:induction false} WalkPlain(segments: Segments, sofar: Segments)
    requires AllPlain(segments)
    ensures Walk(segments, sofar) == Some(sofar + segments)
    ensures WalkUp(segments, sofar) == sofar + segments
    decreases |segments|
  {
    if segments != [] {
      WalkPlain(segments[1..], sofar + [segments[0]]);
      assert sofar + [segments[0]] + segments[1..] == sofar + segments;
    } else {
      assert sofar + segments == sofar;
    }
  }

  lemma {:induction false} WalkUpAppend(a: Segments, b: Segments, sofar: Segments)
    ensures WalkUp(a + b, sofar) == WalkUp(b, WalkUp(a, sofar))
    decreases |a|
  {
    if a == [] {
      assert a + b == b;
    } else {
      assert (a + b)[0] == a[0] && (a + b)[1..] == a[1..] + b;
      if a[0] == "" || a[0] == "." {
        WalkUpAppend(a[1..], b, sofar);
      } else if a[0] == ".." {
        WalkUpAppend(a[1..], b, if sofar == [] then [] else sofar[..|sofar| - 1]);
      } else {
        WalkUpAppend(a[1..], b, sofar + [a[0]]);
      }
    }
  }

  // ----- Joining -----

  function JoinPath(segments: Segments): string {
    Join(segments, "/")
  }

  lemma SplitIsSlashless(s: string)
    ensures Slashless(SplitOn(s, '/'))
  {
    SplitOnParts(s, '/');
  }

  lemma SplitJoined(segments: Segments)
    requires AllPlain(segments)
    ensures SplitOn(JoinPath(segments), '/') == if segments == [] then [""] else segments
  {
    if segments != [] {
      SplitOnJoin(segments, '/');
    }
  }

  lemma JoinedIsPlain(segments: Segments)
    requires AllPlain(segments) && segments != []
    ensures JoinPath(segments) != "" && JoinPath(segments)[0] != '/'
    ensures JoinPath(segments)[|JoinPath(segments)| - 1] != '/'
  {
    JoinEnds(segments);
  }

  lemma {:induction false} JoinEnds(segments: Segments)
    requires AllPlain(segments) && segments != []
    ensures var s := JoinPath(segments);
            |s| >= 1 && s[0] == segments[0][0] && s[|s| - 1] == Last(Last(segments))
    ensures Plain(Last(segments)) && segments[0][0] != '/' && Last(Last(segments)) != '/'
  {
    assert Plain(segments[0]) && Plain(Last(segments));
    assert segments[0][0] in segments[0] && Last(Last(segments)) in Last(segments);
    if |segments| > 1 {
      JoinEnds(segments[1..]);
      var rest := JoinPath(segments[1..]);
      assert JoinPath(segments) == segments[0] + "/" + rest;
    }
  }

  function Last<T>(s: seq<T>): T
    requires s != []
  {
    s[|s| - 1]
  }

  lemma JoinedPlain(segments: Segments)
    requires AllPlain(segments)
    ensures JoinPath(segments) != "."
    ensures JoinPath(segments) == "" <==> segments == []
  {
    SplitJoined(segments);
    assert SplitOn(".", '/') == ["."] by { SplitOnFree(".", '/'); }
    if segments != [] {
      assert Plain(segments[0]);
      JoinedIsPlain(segments);
    }
  }

  // The path with its empty parts, dots and climbs resolved, if it stays inside.
  function Resolve(s: string): Option<Segments> {
    Walk(SplitOn(s, '/'), [])
  }

  // Where one more segment leads from a directory: nowhere else, a level up, or down.
  function Follow(at: Segments, segment: string): Option<Segments> {
    if segment == "" || segment == "." then Some(at)
    else if segment == ".." then if at == [] then None else Some(at[..|at| - 1])
    else Some(at + [segment])
  }

  lemma {:induction false} WalkAppend(a: Segments, b: Segments, sofar: Segments)
    ensures Walk(a + b, sofar) == match Walk(a, sofar) case None => None case Some(at) => Walk(b, at)
    decreases |a|
  {
    if a == [] {
      assert a + b == b;
    } else {
      assert (a + b)[0] == a[0] && (a + b)[1..] == a[1..] + b;
      if a[0] == "" || a[0] == "." {
        WalkAppend(a[1..], b, sofar);
      } else if a[0] == ".." {
        if sofar != [] { WalkAppend(a[1..], b, sofar[..|sofar| - 1]); }
      } else {
        WalkAppend(a[1..], b, sofar + [a[0]]);
      }
    }
  }

  lemma WalkOne(segment: string, sofar: Segments)
    ensures Walk([segment], sofar) == Follow(sofar, segment)
    ensures WalkUp([segment], sofar) == match Follow(sofar, segment) case None => [] case Some(at) => at
  {
    assert [segment][1..] == [];
  }

  // A path resolves one segment after the other, from nothing.
  lemma ResolveStep(s: string, segment: string)
    requires Free(segment, '/')
    ensures Resolve(segment) == Follow([], segment)
    ensures Resolve(s + "/" + segment) == match Resolve(s) case None => None case Some(at) => Follow(at, segment)
  {
    SplitOnFree(segment, '/');
    SplitOnAround(s, '/', segment);
    WalkOne(segment, []);
    WalkAppend(SplitOn(s, '/'), [segment], []);
    if Resolve(s).Some? {
      WalkOne(segment, Resolve(s).value);
    }
  }

  lemma ResolveIsPlain(s: string)
    ensures Resolve(s).Some? ==> AllPlain(Resolve(s).value)
  {
    SplitIsSlashless(s);
    WalkIsPlain(SplitOn(s, '/'), []);
  }

  lemma ResolveJoined(segments: Segments)
    requires AllPlain(segments)
    ensures Resolve(JoinPath(segments)) == Some(segments)
  {
    SplitJoined(segments);
    if segments == [] {
      assert SplitOn(JoinPath(segments), '/') == [""];
      assert Walk([""][1..], []) == Some([]);
    } else {
      WalkPlain(segments, []);
      assert [] + segments == segments;
    }
  }
}

// Documents as trees: reading their fields and lists, and building them.
module Documents {
  import opened Options

  // A parsed YAML document or a structured request. Numbers are integers or not.
  datatype Node =
    | Null
    | Bool(flag: bool)
    | Integer(value: int)
    | Fraction
    | Text(text: string)
    | Listing(items: seq<Node>)
    | Mapping(fields: seq<Field>)

  datatype Field = Field(key: string, node: Node)

  // The field of that name; None is JavaScript's undefined.
  function Get(fields: seq<Field>, key: string): Option<Node> {
    if fields == [] then None
    else if fields[0].key == key then Some(fields[0].node)
    else Get(fields[1..], key)
  }

  // Where in the document a rule is broken.
  datatype Step = Name(name: string) | Index(index: nat)
  type Path = seq<Step>

  datatype Result<+T> = Ok(value: T) | Err(at: Path)

  // The first field no rule allows; "__proto__" is never looked at.
  function UnknownKey(fields: seq<Field>, allowed: set<string>): Option<string> {
    if fields == [] then None
    else if fields[0].key != "__proto__" && fields[0].key !in allowed then Some(fields[0].key)
    else UnknownKey(fields[1..], allowed)
  }

  // ----- Building mappings -----

  datatype Slot = Slot(key: string, node: Option<Node>)

  // A mapping of the slots that hold something.
  function Build(slots: seq<Slot>): seq<Field> {
    if slots == [] then []
    else (match slots[0].node case Some(node) => [Field(slots[0].key, node)] case None => []) + Build(slots[1..])
  }

  ghost predicate DistinctSlots(slots: seq<Slot>) {
    forall i, j :: 0 <= i < j < |slots| ==> slots[i].key != slots[j].key
  }

  lemma {:induction false} BuildNone(slots: seq<Slot>, key: string)
    requires forall i :: 0 <= i < |slots| ==> slots[i].key != key
    ensures Get(Build(slots), key) == None
  {
    if slots != [] {
      BuildNone(slots[1..], key);
      var rest := Build(slots[1..]);
      if slots[0].node.Some? {
        assert ([Field(slots[0].key, slots[0].node.value)] + rest)[1..] == rest;
      } else {
        assert [] + rest == rest;
      }
    }
  }

  lemma {:induction false} BuildGet(slots: seq<Slot>, i: nat)
    requires DistinctSlots(slots) && i < |slots|
    ensures Get(Build(slots), slots[i].key) == slots[i].node
  {
    var rest := Build(slots[1..]);
    if slots[0].node.Some? {
      assert ([Field(slots[0].key, slots[0].node.value)] + rest)[1..] == rest;
    } else {
      assert [] + rest == rest;
    }
    if i == 0 {
      BuildNone(slots[1..], slots[0].key);
    } else {
      BuildGet(slots[1..], i - 1);
    }
  }

  lemma {:induction false} BuildKnown(slots: seq<Slot>, allowed: set<string>)
    requires forall i :: 0 <= i < |slots| ==> slots[i].key in allowed
    ensures UnknownKey(Build(slots), allowed) == None
  {
    if slots != [] {
      BuildKnown(slots[1..], allowed);
      var rest := Build(slots[1..]);
      if slots[0].node.Some? {
        assert ([Field(slots[0].key, slots[0].node.value)] + rest)[1..] == rest;
      } else {
        assert [] + rest == rest;
      }
    }
  }

  // ----- Lists -----

  // parseList: a missing list is empty; the first bad item is reported.
  function ParseItems<T>(items: seq<Node>, at: Path, index: nat, parse: (Node, Path) -> Result<T>): Result<seq<T>>
    decreases |items|
  {
    if items == [] then Ok([])
    else
      match parse(items[0], at + [Index(index)])
      case Err(where) => Err(where)
      case Ok(first) =>
        match ParseItems(items[1..], at, index + 1, parse)
        case Err(where) => Err(where)
        case Ok(rest) => Ok([first] + rest)
  }

  function ParseList<T>(node: Option<Node>, at: Path, parse: (Node, Path) -> Result<T>): Result<seq<T>> {
    match node
    case None => Ok([])
    case Some(Listing(items)) => ParseItems(items, at, 0, parse)
    case Some(_) => Err(at)
  }

  function Nodes<T>(values: seq<T>, tree: T -> Node): seq<Node> {
    if values == [] then [] else [tree(values[0])] + Nodes(values[1..], tree)
  }

  // A list whose items are each read back is read back.
  lemma {:induction false} ParseNodes<T(!new)>(values: seq<T>, tree: T -> Node, at: Path, index: nat,
                                         parse: (Node, Path) -> Result<T>)
    requires forall v: T, where: Path :: v in values ==> parse(tree(v), where) == Ok(v)
    ensures ParseItems(Nodes(values, tree), at, index, parse) == Ok(values)
    decreases |values|
  {
    if values != [] {
      ParseNodes(values[1..], tree, at, index + 1, parse);
      assert Nodes(values, tree)[1..] == Nodes(values[1..], tree);
      assert values == [values[0]] + values[1..];
    }
  }

  // Every item of a list that was read was read from some node.
  lemma {:induction false} ParsedItems<T>(items: seq<Node>, at: Path, index: nat, parse: (Node, Path) -> Result<T>)
    ensures var r := ParseItems(items, at, index, parse);
            r.Ok? ==> forall i :: 0 <= i < |r.value| ==> exists n: Node, w: Path :: parse(n, w) == Ok(r.value[i])
    decreases |items|
  {
    if items != [] {
      ParsedItems(items[1..], at, index + 1, parse);
      var r := ParseItems(items, at, index, parse);
      if r.Ok? {
        forall i | 0 <= i < |r.value| ensures exists n: Node, w: Path :: parse(n, w) == Ok(r.value[i]) {
          if i == 0 {
            assert parse(items[0], at + [Index(index)]) == Ok(r.value[0]);
          } else {
            var rest := ParseItems(items[1..], at, index + 1, parse).value;
            assert r.value[i] == rest[i - 1];
          }
        }
      }
    }
  }
}
