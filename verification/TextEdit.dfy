// The replacement edit inside editText (src/fs-provider.ts): match on the LF
// form of the file, replace, and restore the file's own line endings.
module TextEdit {
  import opened Sequences
  import opened Text
  import opened LineEndings

  // A missing or non-string field of the request reads as the empty text.
  datatype Edit = Edit(oldString: Text, newString: Text, replaceAll: bool)

  datatype EditError = EditNotFound | AmbiguousEdit

  datatype EditOutcome =
    | Edited(before: Text, after: Text, written: Text)
    | Refused(error: EditError)

  function ApplyEdit(raw: Text, edit: Edit): EditOutcome {
    var before := Normalize(raw);
    var style := Detect(raw);
    var oldNorm := Normalize(edit.oldString);
    if |oldNorm| == 0 then Refused(EditNotFound)
    else
      var newNorm := Normalize(edit.newString);
      var occurrences: int := |Split(before, oldNorm)| - 1;
      if occurrences == 0 then Refused(EditNotFound)
      else if !edit.replaceAll && occurrences > 1 then Refused(AmbiguousEdit)
      else
        var after := Join(Split(before, oldNorm), newNorm);
        Edited(before, after, Restore(after, style))
  }

  // Match positions, left to right, none overlapping the next.
  ghost predicate Disjoint(s: Text, pattern: Text, at: seq<nat>) {
    && (forall i :: 0 <= i < |at| ==> MatchAt(s, pattern, at[i]))
    && (forall i, j :: 0 <= i < j < |at| ==> at[i] + |pattern| <= at[j])
  }

  ghost function Shift(at: seq<nat>, by': int): (shifted: seq<nat>)
    requires forall i :: 0 <= i < |at| ==> 0 <= at[i] + by'
    ensures |shifted| == |at|
    ensures forall i :: 0 <= i < |at| ==> shifted[i] == at[i] + by'
  {
    seq(|at|, i requires 0 <= i < |at| => at[i] + by')
  }

  lemma MatchBeyond(s: Text, pattern: Text, n: nat, j: nat)
    requires n <= j && n <= |s|
    ensures MatchAt(s, pattern, j) <==> MatchAt(s[n..], pattern, j - n)
  {
    if j + |pattern| <= |s| {
      assert s[n..][j - n..j - n + |pattern|] == s[j..j + |pattern|];
    }
  }

  // The split's count is the largest number of matches that fit side by side.
  lemma {:induction false} SplitFindsMost(s: Text, pattern: Text, at: seq<nat>)
    requires pattern != [] && Disjoint(s, pattern, at)
    ensures |at| <= Occurrences(s, pattern)
    decreases |s|
  {
    if at != [] {
      IndexOfFirst(s, pattern);
      assert MatchAt(s, pattern, at[0]);
      var n := IndexOf(s, pattern) + |pattern|;
      RestIsDisjoint(s, pattern, at, n);
      SplitFindsMost(s[n..], pattern, Shift(at[1..], 0 - n));
    }
  }

  lemma RestIsDisjoint(s: Text, pattern: Text, at: seq<nat>, n: nat)
    requires Disjoint(s, pattern, at) && at != [] && n <= at[0] + |pattern| && n <= |s|
    ensures forall k :: 0 <= k < |at[1..]| ==> n <= at[1..][k]
    ensures Disjoint(s[n..], pattern, Shift(at[1..], 0 - n))
  {
    var rest := at[1..];
    forall k | 0 <= k < |rest| ensures n <= rest[k] && MatchAt(s[n..], pattern, rest[k] - n) {
      assert at[0] + |pattern| <= at[k + 1];
      assert MatchAt(s, pattern, at[k + 1]);
      MatchBeyond(s, pattern, n, at[k + 1]);
    }
    forall i, j | 0 <= i < j < |rest| ensures rest[i] + |pattern| <= rest[j] {
      assert at[i + 1] + |pattern| <= at[j + 1];
    }
  }

  lemma {:induction false} SplitFindsDisjoint(s: Text, pattern: Text) returns (at: seq<nat>)
    requires pattern != []
    ensures Disjoint(s, pattern, at) && |at| == Occurrences(s, pattern)
    decreases |s|
  {
    var i := IndexOf(s, pattern);
    if i < 0 {
      at := [];
    } else {
      var n := i + |pattern|;
      IndexOfFirst(s, pattern);
      var rest := SplitFindsDisjoint(s[n..], pattern);
      var shifted := Shift(rest, n);
      forall k | 0 <= k < |rest| ensures MatchAt(s, pattern, shifted[k]) {
        assert MatchAt(s[n..], pattern, rest[k]);
        MatchBeyond(s, pattern, n, shifted[k]);
      }
      at := [i] + shifted;
    }
  }

  // An accepted edit, whole: what was compared, what was replaced, what the
  // write leaves on disk. A file with mostly CRLF lines is written with a CR before
  // every LF; any other as the replacement left it.
  lemma AcceptedEdit(raw: Text, edit: Edit)
    requires ApplyEdit(raw, edit).Edited?
    ensures var r := ApplyEdit(raw, edit);
            var pattern, replacement := Normalize(edit.oldString), Normalize(edit.newString);
            && r.before == Normalize(raw)
            && pattern != []
            && r.after == ReplaceAll(r.before, pattern, replacement)
            && |r.after| == |r.before| + Occurrences(r.before, pattern) * (|replacement| - |pattern|)
            && Normalize(r.written) == Normalize(r.after)
            && (if MostlyCrLf(raw) then EveryLfAfterCr(r.written) else r.written == r.after)
  {
    DetectsMajority(raw);
    hide MostlyCrLf;
    var r := ApplyEdit(raw, edit);
    var pattern, replacement := Normalize(edit.oldString), Normalize(edit.newString);
    JoinSplitIsReplaceAll(r.before, pattern, replacement);
    ReplaceAllLength(r.before, pattern, replacement);
    RestoreKeepsText(r.after, Detect(raw));
    RestoreKeepsCrLf(r.after);
  }

  // When an edit is accepted, in terms of matches rather than of the split: a
  // replace-all needs one match, a single edit needs one that no other match can
  // stand beside.
  lemma AcceptedIff(raw: Text, edit: Edit)
    ensures var before, pattern := Normalize(raw), Normalize(edit.oldString);
            && (ApplyEdit(raw, edit) == Refused(EditNotFound) <==>
                  pattern == [] || !Contains(before, pattern))
            && (ApplyEdit(raw, edit) == Refused(AmbiguousEdit) <==>
                  && pattern != [] && !edit.replaceAll
                  && exists i: nat, j: nat :: Disjoint(before, pattern, [i, j]))
  {
    var before, pattern := Normalize(raw), Normalize(edit.oldString);
    if pattern != [] {
      var at := SplitFindsDisjoint(before, pattern);
      if i :| MatchAt(before, pattern, i) {
        SplitFindsMost(before, pattern, [i]);
      }
      if |at| >= 1 {
        assert MatchAt(before, pattern, at[0]);
      }
      if |at| >= 2 {
        assert Disjoint(before, pattern, [at[0], at[1]]);
      }
      if i: nat, j: nat :| Disjoint(before, pattern, [i, j]) {
        SplitFindsMost(before, pattern, [i, j]);
      }
    }
  }

  // An edit that replaces a text by itself rewrites the file byte for byte exactly
  // when the style of most lines in its head is the style of every line of it.
  lemma SelfEditIsIdentityIff(raw: Text, edit: Edit)
    requires ApplyEdit(raw, edit).Edited? && edit.oldString == edit.newString
    ensures ApplyEdit(raw, edit).after == ApplyEdit(raw, edit).before
    ensures ApplyEdit(raw, edit).written == raw <==>
            if MostlyCrLf(raw) then EveryLfAfterCr(raw) && !Contains(raw, [CR] + CRLF) else !Contains(raw, CRLF)
  {
    AcceptedEdit(raw, edit);
    ReplaceAllSame(Normalize(raw), Normalize(edit.oldString));
    RewriteIsIdentityIff(raw);
  }

  // Accepting a single edit does not mean the text occurs at one place only:
  // in "aaa" the pattern "aa" occurs twice, but the two overlap.
  lemma OverlapIsNotAmbiguous()
    ensures var a: Text := [97, 97, 97];
            && MatchAt(a, [97, 97], 0) && MatchAt(a, [97, 97], 1)
            && ApplyEdit(a, Edit([97, 97], [98], false)) == Edited(a, [98, 97], [98, 97])
  {
    var a: Text := [97, 97, 97];
    var p: Text := [97, 97];
    assert a[0..2] == p && a[1..3] == p;
    NoCrLf(a);
    NoCrLf(p);
    NoCrLf([98]);
    NoCrLfIsLf(a);
    DetectsMajority(a);
    assert a[2..] == [97];
    SplitStep(a, p);
    SplitStep([97], p);
    assert Split(a, p) == [[], [97]];
    assert Join([[], [97]], [98]) == [98, 97];
  }

  lemma CrLfHoldsCr(s: Text)
    ensures Contains(s, CRLF) ==> CR in s
  {
    if i :| MatchAt(s, CRLF, i) {
      assert s[i] == s[i..i + 2][0];
    }
  }

  lemma NoCrLf(s: Text)
    requires CR !in s
    ensures !Contains(s, CRLF) && Normalize(s) == s
  {
    CrLfHoldsCr(s);
    NormalizeFixpoint(s);
  }
}
