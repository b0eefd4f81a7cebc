// Line-ending handling for edits (src/guest-rpc.ts): text is matched in its
// LF form and written back in the file's own style.
module LineEndings {
  import opened Sequences
  import opened Text

  datatype Style = CrLf | Lf

  // The head of a file the style is detected from.
  const SAMPLE_UNITS: nat := 4096

  function Normalize(content: Text): Text {
    ReplaceAll(content, CRLF, [LF])
  }

  function Sample(raw: Text): Text {
    if |raw| <= SAMPLE_UNITS then raw else raw[..SAMPLE_UNITS]
  }

  function Detect(raw: Text): Style {
    var sample := Sample(raw);
    var crlfCount: int := |Split(sample, CRLF)| - 1;
    var lfCount := |Split(sample, [LF])| - 1 - crlfCount;
    if crlfCount > lfCount then CrLf else Lf
  }

  function Expand(content: Text): Text {
    Join(Split(content, [LF]), CRLF)
  }

  function Restore(content: Text, style: Style): Text {
    if style == Lf then content else Expand(Normalize(content))
  }

  // ----- Shapes of a text -----

  ghost predicate Contains(s: Text, pattern: Text) {
    exists i :: MatchAt(s, pattern, i)
  }

  ghost predicate EveryLfAfterCr(s: Text) {
    forall i :: 0 <= i < |s| && s[i] == LF ==> 0 < i && s[i - 1] == CR
  }

  lemma ContainsStep(s: Text, pattern: Text)
    requires s != []
    ensures Contains(s, pattern) <==> MatchAt(s, pattern, 0) || Contains(s[1..], pattern)
  {
    if Contains(s, pattern) && !MatchAt(s, pattern, 0) {
      var i :| MatchAt(s, pattern, i);
      MatchAtTail(s, pattern, i);
    }
    if Contains(s[1..], pattern) {
      var i :| MatchAt(s[1..], pattern, i);
      MatchAtTail(s, pattern, i + 1);
    }
  }

  lemma NothingInEmpty(pattern: Text)
    requires pattern != []
    ensures !Contains([], pattern)
  {
  }

  lemma AtCrLf(s: Text)
    ensures MatchAt(s, CRLF, 0) <==> |s| >= 2 && s[0] == CR && s[1] == LF
  {
    if |s| >= 2 {
      assert s[0..2] == [s[0], s[1]];
    }
  }

  lemma AtCrCrLf(s: Text)
    ensures MatchAt(s, [CR] + CRLF, 0) <==> |s| >= 3 && s[0] == CR && s[1] == CR && s[2] == LF
  {
    if |s| >= 3 {
      assert s[0..3] == [s[0], s[1], s[2]];
    }
  }

  // ----- Reading the two rewrites one unit at a time -----

  lemma NormalizeStep(s: Text)
    requires s != []
    ensures |s| >= 2 && s[0] == CR && s[1] == LF ==> Normalize(s) == [LF] + Normalize(s[2..])
    ensures !(|s| >= 2 && s[0] == CR && s[1] == LF) ==> Normalize(s) == [s[0]] + Normalize(s[1..])
  {
    AtCrLf(s);
  }

  lemma ExpandIsReplaceAll(s: Text)
    ensures Expand(s) == ReplaceAll(s, [LF], CRLF)
  {
    JoinSplitIsReplaceAll(s, [LF], CRLF);
  }

  lemma ExpandStep(s: Text)
    requires s != []
    ensures s[0] == LF ==> Expand(s) == CRLF + Expand(s[1..])
    ensures s[0] != LF ==> Expand(s) == [s[0]] + Expand(s[1..])
  {
    ExpandIsReplaceAll(s);
    ExpandIsReplaceAll(s[1..]);
    assert s[0..1] == [s[0]];
  }

  // ----- Laws -----

  // Writing CRLF and normalising again gives the text back, whatever it holds.
  lemma {:induction false} NormalizeUndoesExpand(s: Text)
    ensures Normalize(Expand(s)) == s
  {
    ExpandIsReplaceAll(s);
    if s != [] {
      NormalizeUndoesExpand(s[1..]);
      ExpandStep(s);
      var e := Expand(s[1..]);
      if s[0] == LF {
        assert (CRLF + e)[2..] == e;
        NormalizeStep(CRLF + e);
      } else {
        ExpandIsReplaceAll(s[1..]);
        if s[1..] != [] {
          ExpandStep(s[1..]);
        }
        assert ([s[0]] + e)[1..] == e;
        NormalizeStep([s[0]] + e);
      }
    }
  }

  lemma {:induction false} NormalizeFixpoint(s: Text)
    ensures Normalize(s) == s <==> !Contains(s, CRLF)
    ensures |Normalize(s)| <= |s|
    decreases |s|
  {
    if s == [] {
      NothingInEmpty(CRLF);
    } else {
      ContainsStep(s, CRLF);
      AtCrLf(s);
      NormalizeStep(s);
      if MatchAt(s, CRLF, 0) {
        NormalizeFixpoint(s[2..]);
      } else {
        NormalizeFixpoint(s[1..]);
        assert s == [s[0]] + s[1..];
      }
    }
  }

  // Normalising is not idempotent: it leaves a CR LF behind exactly where the
  // text held CR CR LF.
  lemma {:induction false} NormalizeLeavesCrLf(s: Text)
    ensures Contains(Normalize(s), CRLF) <==> Contains(s, [CR] + CRLF)
    decreases |s|
  {
    if s == [] {
      NothingInEmpty(CRLF);
      NothingInEmpty([CR] + CRLF);
    } else {
      NormalizeStep(s);
      AtCrLf(s);
      AtCrCrLf(s);
      ContainsStep(s, [CR] + CRLF);
      var n := Normalize(s);
      ContainsStep(n, CRLF);
      AtCrLf(n);
      if MatchAt(s, CRLF, 0) {
        assert n[1..] == Normalize(s[2..]);
        NormalizeLeavesCrLf(s[2..]);
        ContainsStep(s[1..], [CR] + CRLF);
        AtCrCrLf(s[1..]);
        assert s[1..][1..] == s[2..];
      } else {
        assert n[1..] == Normalize(s[1..]);
        NormalizeLeavesCrLf(s[1..]);
        if s[1..] != [] {
          NormalizeStep(s[1..]);
        }
      }
    }
  }

  lemma NormalizeTwice(s: Text)
    ensures Normalize(Normalize(s)) == Normalize(s) <==> !Contains(s, [CR] + CRLF)
  {
    NormalizeFixpoint(Normalize(s));
    NormalizeLeavesCrLf(s);
  }

  lemma TailAfterCr(s: Text, n: nat)
    requires n <= |s|
    requires EveryLfAfterCr(s)
    requires n < |s| ==> s[n] != LF
    ensures EveryLfAfterCr(s[n..])
  {
    forall i | 0 <= i < |s[n..]| && s[n..][i] == LF ensures 0 < i && s[n..][i - 1] == CR {
      assert s[n + i] == LF;
    }
  }

  lemma HeadAfterCr(x: CodeUnit, s: Text)
    requires x != LF
    requires EveryLfAfterCr(s)
    ensures EveryLfAfterCr([x] + s)
  {
    forall i | 0 <= i < |[x] + s| && ([x] + s)[i] == LF ensures 0 < i && ([x] + s)[i - 1] == CR {
      assert s[i - 1] == LF;
    }
  }

  lemma {:induction false} ExpandedLfAfterCr(s: Text)
    ensures EveryLfAfterCr(Expand(s))
  {
    ExpandIsReplaceAll(s);
    if s != [] {
      ExpandedLfAfterCr(s[1..]);
      ExpandStep(s);
      var e := Expand(s[1..]);
      if s[0] == LF {
        forall i | 0 <= i < |CRLF + e| && (CRLF + e)[i] == LF ensures 0 < i && (CRLF + e)[i - 1] == CR {
          if i >= 2 {
            assert e[i - 2] == LF;
          }
        }
      } else {
        HeadAfterCr(s[0], e);
      }
    }
  }

  // Restoring CRLF after normalising is the identity exactly on the texts whose
  // every LF follows a CR.
  lemma {:induction false} ExpandUndoesNormalize(s: Text)
    ensures Expand(Normalize(s)) == s <==> EveryLfAfterCr(s)
  {
    ExpandedLfAfterCr(Normalize(s));
    if EveryLfAfterCr(s) {
      ExpandNormalize(s);
    }
  }

  lemma {:induction false} ExpandNormalize(s: Text)
    requires EveryLfAfterCr(s)
    ensures Expand(Normalize(s)) == s
    decreases |s|
  {
    if s == [] {
      ExpandIsReplaceAll(s);
    } else {
      NormalizeStep(s);
      ExpandStep(Normalize(s));
      if |s| >= 2 && s[0] == CR && s[1] == LF {
        TailAfterCr(s, 2);
        ExpandNormalize(s[2..]);
        assert Normalize(s)[1..] == Normalize(s[2..]);
        assert s == CRLF + s[2..];
      } else {
        TailAfterCr(s, 1);
        ExpandNormalize(s[1..]);
        assert Normalize(s)[1..] == Normalize(s[1..]);
        assert s == [s[0]] + s[1..];
      }
    }
  }

  // What is written back reads as the text that was meant, in either style.
  lemma RestoreKeepsText(content: Text, style: Style)
    ensures Normalize(Restore(content, style)) == Normalize(content)
  {
    NormalizeUndoesExpand(Normalize(content));
  }

  // A file whose style is CRLF is written with a CR before every LF.
  lemma RestoreKeepsCrLf(content: Text)
    ensures EveryLfAfterCr(Restore(content, CrLf))
  {
    ExpandedLfAfterCr(Normalize(content));
  }

  // ----- What detection decides by -----

  predicate AfterCr(s: Text, i: nat) {
    1 <= i <= |s| && s[i - 1] == CR
  }

  // Among the first n units: the LFs directly after a CR, and the others.
  ghost function CrLfs(raw: Text, n: nat): set<nat> {
    set i: nat | i < |raw| && i < n && raw[i] == LF && AfterCr(raw, i)
  }

  ghost function LoneLfs(raw: Text, n: nat): set<nat> {
    set i: nat | i < |raw| && i < n && raw[i] == LF && !AfterCr(raw, i)
  }

  // Most line breaks of the head of a file are CR LF.
  ghost predicate MostlyCrLf(raw: Text) {
    |CrLfs(raw, 4096)| > |LoneLfs(raw, 4096)|
  }

  // The LFs of s from a position on, and those of them after a CR from there on.
  ghost function LfsFrom(s: Text, from: nat): set<nat> {
    set i: nat | from <= i < |s| && s[i] == LF
  }

  ghost function CrLfsFrom(s: Text, from: nat): set<nat> {
    set i: nat | from < i < |s| && s[i] == LF && AfterCr(s, i)
  }

  lemma {:induction false} LfsCounted(s: Text, from: nat)
    requires from <= |s|
    ensures |LfsFrom(s, from)| == Occurrences(s[from..], [LF])
    decreases |s| - from
  {
    var rest := s[from..];
    OccurrencesStep(rest, [LF]);
    if from == |s| {
      assert LfsFrom(s, from) == {};
    } else {
      LfsCounted(s, from + 1);
      assert rest[0..1] == [s[from]];
      assert LfsFrom(s, from) == (if s[from] == LF then {from} else {}) + LfsFrom(s, from + 1);
    }
  }

  lemma CrLfsStep(s: Text, from: nat)
    requires from < |s|
    ensures var here := from + 1 < |s| && s[from] == CR && s[from + 1] == LF;
            && CrLfsFrom(s, from) == (if here then {from + 1} else {}) + CrLfsFrom(s, from + 1)
            && (here ==> CrLfsFrom(s, from + 1) == CrLfsFrom(s, from + 2))
            && (MatchAt(s[from..], CRLF, 0) <==> here)
  {
    AtCrLf(s[from..]);
  }

  lemma {:induction false} CrLfsCounted(s: Text, from: nat)
    requires from <= |s|
    ensures |CrLfsFrom(s, from)| == Occurrences(s[from..], CRLF)
    decreases |s| - from
  {
    var rest := s[from..];
    hide Occurrences, MatchAt;
    OccurrencesStep(rest, CRLF);
    if from == |s| {
      assert CrLfsFrom(s, from) == {};
    } else {
      CrLfsStep(s, from);
      hide CrLfsFrom;
      assert rest[1..] == s[from + 1..];
      if MatchAt(rest, CRLF, 0) {
        assert rest[2..] == s[from + 2..];
        CrLfsCounted(s, from + 2);
        NotLater(s, from + 2, from + 1);
      } else {
        CrLfsCounted(s, from + 1);
        if |rest| < 2 {
          OccurrencesStep(rest[1..], CRLF);
        }
      }
    }
  }

  lemma NotLater(s: Text, from: nat, i: nat)
    requires i <= from
    ensures i !in CrLfsFrom(s, from)
  {
  }

  // A file's style is CRLF exactly when, among its first 4096 units, more LFs
  // directly follow a CR than do not.
  lemma DetectsMajority(raw: Text)
    ensures Detect(raw) == CrLf <==> MostlyCrLf(raw)
  {
    hide Split, Join, IndexOf;
    var s := Sample(raw);
    SampleIsHead(raw);
    LfsCounted(s, 0);
    CrLfsCounted(s, 0);
    assert s[0..] == s;
    var all, pairs, lone := LfsFrom(s, 0), CrLfs(raw, 4096), LoneLfs(raw, 4096);
    assert pairs == CrLfsFrom(s, 0);
    assert all == pairs + lone && pairs !! lone;
  }

  lemma SampleIsHead(raw: Text)
    ensures |Sample(raw)| == if |raw| <= 4096 then |raw| else 4096
    ensures forall i :: 0 <= i < |Sample(raw)| ==> Sample(raw)[i] == raw[i]
  {
  }

  // Reading a file and writing it back unedited gives the same bytes exactly
  // when the style of most lines in its head is the style of every line of it.
  lemma RewriteIsIdentityIff(raw: Text)
    ensures Restore(Normalize(raw), Detect(raw)) == raw <==>
            if MostlyCrLf(raw) then EveryLfAfterCr(raw) && !Contains(raw, [CR] + CRLF) else !Contains(raw, CRLF)
  {
    DetectsMajority(raw);
    hide MostlyCrLf;
    match Detect(raw) {
      case Lf =>
        NormalizeFixpoint(raw);
      case CrLf =>
        var n := Normalize(raw);
        NormalizeTwice(raw);
        if EveryLfAfterCr(raw) && Normalize(n) == n {
          ExpandNormalize(raw);
        }
        if Expand(Normalize(n)) == raw {
          ExpandedLfAfterCr(Normalize(n));
          NormalizeUndoesExpand(Normalize(n));
        }
    }
  }

  // ----- When detection describes the file -----

  lemma NoCrLfIsLf(raw: Text)
    requires !Contains(raw, CRLF)
    ensures !MostlyCrLf(raw)
  {
    forall i | i in CrLfs(raw, 4096) ensures false {
      assert raw[i - 1..i + 1] == CRLF;
      assert MatchAt(raw, CRLF, i - 1);
    }
    assert CrLfs(raw, 4096) == {};
  }

  lemma CrLfIsCrLf(raw: Text, i: nat)
    requires EveryLfAfterCr(raw) && i < |raw| && i < 4096 && raw[i] == LF
    ensures MostlyCrLf(raw)
  {
    assert LoneLfs(raw, 4096) == {};
    assert i in CrLfs(raw, 4096);
  }

  // A file without CR LF is rewritten byte for byte, and so is one whose every LF
  // follows a CR, if it has a line break in its head and nowhere CR CR LF.
  lemma PureFilesAreKept(raw: Text)
    ensures !Contains(raw, CRLF) ==> Restore(Normalize(raw), Detect(raw)) == raw
    ensures EveryLfAfterCr(raw) && !Contains(raw, [CR] + CRLF) &&
            (exists i :: 0 <= i < |raw| && i < 4096 && raw[i] == LF) ==>
              Restore(Normalize(raw), Detect(raw)) == raw
  {
    hide MostlyCrLf, Restore, Normalize, Detect;
    RewriteIsIdentityIff(raw);
    if !Contains(raw, CRLF) {
      NoCrLfIsLf(raw);
    }
    if EveryLfAfterCr(raw) {
      if i :| 0 <= i < |raw| && i < 4096 && raw[i] == LF {
        CrLfIsCrLf(raw, i);
      }
    }
  }

  // The known exception: CR CR LF loses one CR each time it is rewritten.
  lemma CrCrLfIsNotKept()
    ensures Normalize([CR, CR, LF]) == [CR, LF]
    ensures Normalize(Normalize([CR, CR, LF])) == [LF]
    ensures Detect([CR, CR, LF]) == CrLf
    ensures Restore(Normalize([CR, CR, LF]), Detect([CR, CR, LF])) == [CR, LF]
  {
    var raw: Text := [CR, CR, LF];
    NormalizeStep(raw);
    assert raw[1..] == [CR, LF];
    NormalizeStep([CR, LF]);
    assert [CR, LF][2..] == [];
    assert Normalize([]) == [];
    assert Normalize([CR, LF]) == [LF];
    ExpandStep([LF]);
    ExpandIsReplaceAll([]);
    CrLfIsCrLf(raw, 2);
    DetectsMajority(raw);
  }
}
