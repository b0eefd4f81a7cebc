// The order a template lists its mounts in (orderedTemplateMounts of
// src/container-template.ts, over src/mount-order.ts and src/mount-enums.ts).
module MountOrder {
  import opened Sequences

  datatype Mode = ReadOnly | ReadWrite

  datatype Mount =
    | ProjectMount(project: string, mode: Mode)
    | VolumeMount(volume: string, destination: string, mode: Mode)
    | SecretMount(secret: string, destination: string)
    | TmpfsMount(destination: string)

  predicate Primary(m: Mount, mainProject: string) {
    m.ProjectMount? && mainProject != "" && m.project == mainProject
  }

  function KindRank(m: Mount): nat {
    match m
    case ProjectMount(_, _) => 0
    case VolumeMount(_, _, _) => 1
    case SecretMount(_, _) => 2
    case TmpfsMount(_) => 3
  }

  function Rank(m: Mount, mainProject: string): nat {
    if Primary(m, mainProject) then 0 else 1 + KindRank(m)
  }

  // Sorted by rank, keeping the order of mounts of one rank.
  function Enter(sorted: seq<Mount>, m: Mount, mainProject: string): (r: seq<Mount>)
    ensures forall x :: x in r <==> x in sorted || x == m
  {
    if sorted == [] || Rank(m, mainProject) <= Rank(sorted[0], mainProject) then [m] + sorted
    else [sorted[0]] + Enter(sorted[1..], m, mainProject)
  }

  function Ordered(mounts: seq<Mount>, mainProject: string): seq<Mount> {
    if mounts == [] then [] else Enter(Ordered(mounts[1..], mainProject), mounts[0], mainProject)
  }

  function OfRank(mounts: seq<Mount>, rank: nat, mainProject: string): seq<Mount> {
    Filter(mounts, (m: Mount) => Rank(m, mainProject) == rank)
  }

  ghost predicate Ranked(mounts: seq<Mount>, mainProject: string) {
    forall i, j :: 0 <= i < j < |mounts| ==> Rank(mounts[i], mainProject) <= Rank(mounts[j], mainProject)
  }

  lemma OfRankCons(x: Mount, rest: seq<Mount>, rank: nat, mainProject: string)
    ensures OfRank([x] + rest, rank, mainProject) ==
            (if Rank(x, mainProject) == rank then [x] else []) + OfRank(rest, rank, mainProject)
  {
    hide Rank;
    assert ([x] + rest)[1..] == rest;
  }

  lemma {:induction false} EnterKeeps(sorted: seq<Mount>, m: Mount, mainProject: string)
    ensures multiset(Enter(sorted, m, mainProject)) == multiset([m] + sorted)
  {
    hide Rank;
    if sorted != [] && Rank(m, mainProject) > Rank(sorted[0], mainProject) {
      EnterKeeps(sorted[1..], m, mainProject);
      assert sorted == [sorted[0]] + sorted[1..];
    }
  }

  lemma {:induction false} EnterIsRanked(sorted: seq<Mount>, m: Mount, mainProject: string)
    requires Ranked(sorted, mainProject)
    ensures Ranked(Enter(sorted, m, mainProject), mainProject)
  {
    hide Rank;
    if sorted != [] && Rank(m, mainProject) > Rank(sorted[0], mainProject) {
      var rest := Enter(sorted[1..], m, mainProject);
      EnterIsRanked(sorted[1..], m, mainProject);
      forall i | 0 <= i < |rest| ensures Rank(sorted[0], mainProject) <= Rank(rest[i], mainProject) {
        assert rest[i] in rest;
      }
    }
  }

  lemma {:induction false} EnterIsStable(sorted: seq<Mount>, m: Mount, mainProject: string, rank: nat)
    ensures OfRank(Enter(sorted, m, mainProject), rank, mainProject) ==
            (if Rank(m, mainProject) == rank then [m] else []) + OfRank(sorted, rank, mainProject)
  {
    hide Rank, OfRank;
    if sorted == [] || Rank(m, mainProject) <= Rank(sorted[0], mainProject) {
      OfRankCons(m, sorted, rank, mainProject);
    } else {
      EnterIsStable(sorted[1..], m, mainProject, rank);
      assert sorted == [sorted[0]] + sorted[1..];
      OfRankCons(sorted[0], sorted[1..], rank, mainProject);
      OfRankCons(sorted[0], Enter(sorted[1..], m, mainProject), rank, mainProject);
    }
  }

  // The same mounts, in rank order, mounts of one rank as they were.
  lemma {:induction false} OrderedIsStable(mounts: seq<Mount>, mainProject: string, rank: nat)
    ensures Ranked(Ordered(mounts, mainProject), mainProject)
    ensures multiset(Ordered(mounts, mainProject)) == multiset(mounts)
    ensures OfRank(Ordered(mounts, mainProject), rank, mainProject) == OfRank(mounts, rank, mainProject)
  {
    hide Rank, Enter, OfRank;
    if mounts != [] {
      OrderedIsStable(mounts[1..], mainProject, rank);
      EnterIsRanked(Ordered(mounts[1..], mainProject), mounts[0], mainProject);
      EnterKeeps(Ordered(mounts[1..], mainProject), mounts[0], mainProject);
      EnterIsStable(Ordered(mounts[1..], mainProject), mounts[0], mainProject, rank);
      OfRankCons(mounts[0], mounts[1..], rank, mainProject);
      assert mounts == [mounts[0]] + mounts[1..];
    }
  }

  // Those three facts leave only one list: any two rank-ordered lists that agree on
  // every rank are the same.
  lemma {:induction false} OneStableOrder(a: seq<Mount>, b: seq<Mount>, mainProject: string)
    requires Ranked(a, mainProject) && Ranked(b, mainProject)
    requires forall rank: nat :: OfRank(a, rank, mainProject) == OfRank(b, rank, mainProject)
    ensures a == b
  {
    hide Rank;
    if a == [] || b == [] {
      if a != [] { SomeOfRank(a, mainProject); }
      if b != [] { SomeOfRank(b, mainProject); }
    } else {
      SameFirstRank(a, b, mainProject);
      var first := Rank(a[0], mainProject);
      assert OfRank(a, first, mainProject)[0] == a[0] && OfRank(b, first, mainProject)[0] == b[0];
      forall rank: nat ensures OfRank(a[1..], rank, mainProject) == OfRank(b[1..], rank, mainProject) {
        if rank == first {
          assert OfRank(a, rank, mainProject)[1..] == OfRank(a[1..], rank, mainProject);
          assert OfRank(b, rank, mainProject)[1..] == OfRank(b[1..], rank, mainProject);
        }
        assert OfRank(a, rank, mainProject) == OfRank(b, rank, mainProject);
      }
      OneStableOrder(a[1..], b[1..], mainProject);
      assert a == [a[0]] + a[1..] && b == [b[0]] + b[1..];
    }
  }

  lemma SomeOfRank(a: seq<Mount>, mainProject: string)
    requires a != []
    ensures OfRank(a, Rank(a[0], mainProject), mainProject) != []
    ensures OfRank([], Rank(a[0], mainProject), mainProject) == []
  {
  }

  lemma SameFirstRank(a: seq<Mount>, b: seq<Mount>, mainProject: string)
    requires Ranked(a, mainProject) && Ranked(b, mainProject) && a != [] && b != []
    requires forall rank: nat :: OfRank(a, rank, mainProject) == OfRank(b, rank, mainProject)
    ensures Rank(a[0], mainProject) == Rank(b[0], mainProject)
  {
    hide Rank;
    SomeOfRank(a, mainProject);
    SomeOfRank(b, mainProject);
    var ra, rb := Rank(a[0], mainProject), Rank(b[0], mainProject);
    var inB, inA := OfRank(b, ra, mainProject)[0], OfRank(a, rb, mainProject)[0];
    assert inB in OfRank(b, ra, mainProject) && inA in OfRank(a, rb, mainProject);
    Filtered(b, (m: Mount) => Rank(m, mainProject) == ra, inB);
    Filtered(a, (m: Mount) => Rank(m, mainProject) == rb, inA);
  }

  lemma OrderedIsIdempotent(mounts: seq<Mount>, mainProject: string)
    ensures Ordered(Ordered(mounts, mainProject), mainProject) == Ordered(mounts, mainProject)
  {
    var once := Ordered(mounts, mainProject);
    forall rank: nat
      ensures Ranked(once, mainProject) && Ranked(Ordered(once, mainProject), mainProject)
      ensures OfRank(Ordered(once, mainProject), rank, mainProject) == OfRank(once, rank, mainProject)
    {
      OrderedIsStable(mounts, mainProject, rank);
      OrderedIsStable(once, mainProject, rank);
    }
    OrderedIsStable(mounts, mainProject, 0);
    OrderedIsStable(once, mainProject, 0);
    OneStableOrder(Ordered(once, mainProject), once, mainProject);
  }

  // ----- The order, kind by kind -----

  // The mounts of the ranks from one on, rank after rank.
  function FromRank(mounts: seq<Mount>, rank: nat, mainProject: string): seq<Mount>
    decreases 5 - rank
  {
    if rank >= 5 then [] else OfRank(mounts, rank, mainProject) + FromRank(mounts, rank + 1, mainProject)
  }

  lemma RankIsLow(m: Mount, mainProject: string)
    ensures Rank(m, mainProject) < 5
  {
  }

  lemma {:induction false} FromRankIs(mounts: seq<Mount>, rank: nat, mainProject: string)
    ensures forall x :: x in FromRank(mounts, rank, mainProject) ==> Rank(x, mainProject) >= rank
    decreases 5 - rank
  {
    hide Rank;
    if rank < 5 {
      FromRankIs(mounts, rank + 1, mainProject);
      forall x ensures x in OfRank(mounts, rank, mainProject) ==> Rank(x, mainProject) == rank {
        Filtered(mounts, (m: Mount) => Rank(m, mainProject) == rank, x);
      }
      hide OfRank;
    }
  }

  lemma {:induction false} EnterAfter(a: seq<Mount>, b: seq<Mount>, m: Mount, mainProject: string)
    requires forall x :: x in a ==> Rank(x, mainProject) < Rank(m, mainProject)
    ensures Enter(a + b, m, mainProject) == a + Enter(b, m, mainProject)
  {
    hide Rank;
    if a == [] {
      assert a + b == b && [] + Enter(b, m, mainProject) == Enter(b, m, mainProject);
    } else {
      EnterAfter(a[1..], b, m, mainProject);
      assert (a + b)[0] == a[0] && (a + b)[1..] == a[1..] + b;
      assert [a[0]] + (a[1..] + Enter(b, m, mainProject)) == a + Enter(b, m, mainProject);
    }
  }

  lemma FromRankStep(mounts: seq<Mount>, rank: nat, mainProject: string)
    ensures FromRank(mounts, rank, mainProject) ==
            if rank >= 5 then [] else OfRank(mounts, rank, mainProject) + FromRank(mounts, rank + 1, mainProject)
  {
  }

  // One more mount comes first among those of its rank.
  lemma {:induction false} FromRankCons(m: Mount, rest: seq<Mount>, rank: nat, mainProject: string)
    ensures FromRank([m] + rest, rank, mainProject) ==
            if Rank(m, mainProject) < rank then FromRank(rest, rank, mainProject)
            else Enter(FromRank(rest, rank, mainProject), m, mainProject)
    decreases 5 - rank
  {
    RankIsLow(m, mainProject);
    hide Rank, FromRank, Enter;
    FromRankStep(rest, rank, mainProject);
    FromRankStep([m] + rest, rank, mainProject);
    if rank < 5 {
      var a, b := OfRank(rest, rank, mainProject), FromRank(rest, rank + 1, mainProject);
      OfRankCons(m, rest, rank, mainProject);
      FromRankCons(m, rest, rank + 1, mainProject);
      FromRankIs(rest, rank, mainProject);
      forall x ensures x in a ==> Rank(x, mainProject) == rank {
        Filtered(rest, (x: Mount) => Rank(x, mainProject) == rank, x);
      }
      hide OfRank;
      if Rank(m, mainProject) == rank {
        EnterFirst(a + b, m, mainProject);
        assert [m] + (a + b) == ([m] + a) + b;
      } else {
        assert [] + a == a;
        if Rank(m, mainProject) > rank {
          EnterAfter(a, b, m, mainProject);
        }
      }
    }
  }

  lemma EnterFirst(s: seq<Mount>, m: Mount, mainProject: string)
    requires forall x :: x in s ==> Rank(m, mainProject) <= Rank(x, mainProject)
    ensures Enter(s, m, mainProject) == [m] + s
  {
    hide Rank;
    if s != [] {
      assert s[0] in s;
    }
  }

  lemma {:induction false} OrderedIsFromRank(mounts: seq<Mount>, mainProject: string)
    ensures Ordered(mounts, mainProject) == FromRank(mounts, 0, mainProject)
  {
    hide Rank, OfRank, Enter;
    if mounts == [] {
      forall rank: nat ensures OfRank([], rank, mainProject) == [] { NoneOfRank(rank, mainProject); }
      NoRanks(0, mainProject);
    } else {
      OrderedIsFromRank(mounts[1..], mainProject);
      FromRankCons(mounts[0], mounts[1..], 0, mainProject);
      assert mounts == [mounts[0]] + mounts[1..];
    }
  }

  lemma NoneOfRank(rank: nat, mainProject: string)
    ensures OfRank([], rank, mainProject) == []
  {
  }

  lemma {:induction false} NoRanks(rank: nat, mainProject: string)
    ensures FromRank([], rank, mainProject) == []
    decreases 5 - rank
  {
    if rank < 5 {
      NoRanks(rank + 1, mainProject);
    }
  }

  lemma OwnRank(mounts: seq<Mount>, mainProject: string)
    ensures OfRank(mounts, 0, mainProject) ==
            Filter(mounts, (m: Mount) => m.ProjectMount? && mainProject != "" && m.project == mainProject)
    ensures OfRank(mounts, 1, mainProject) ==
            Filter(mounts, (m: Mount) => m.ProjectMount? && (mainProject == "" || m.project != mainProject))
  {
    FilterAlike(mounts, (m: Mount) => Rank(m, mainProject) == 0,
                (m: Mount) => m.ProjectMount? && mainProject != "" && m.project == mainProject);
    FilterAlike(mounts, (m: Mount) => Rank(m, mainProject) == 1,
                (m: Mount) => m.ProjectMount? && (mainProject == "" || m.project != mainProject));
  }

  lemma OtherRanks(mounts: seq<Mount>, mainProject: string)
    ensures OfRank(mounts, 2, mainProject) == Filter(mounts, (m: Mount) => m.VolumeMount?)
    ensures OfRank(mounts, 3, mainProject) == Filter(mounts, (m: Mount) => m.SecretMount?)
    ensures OfRank(mounts, 4, mainProject) == Filter(mounts, (m: Mount) => m.TmpfsMount?)
  {
    FilterAlike(mounts, (m: Mount) => Rank(m, mainProject) == 2, (m: Mount) => m.VolumeMount?);
    FilterAlike(mounts, (m: Mount) => Rank(m, mainProject) == 3, (m: Mount) => m.SecretMount?);
    FilterAlike(mounts, (m: Mount) => Rank(m, mainProject) == 4, (m: Mount) => m.TmpfsMount?);
  }

  // The workspace's own project comes first, then the other projects, the volumes, the
  // secrets and the temporary file systems, each kind in the order it was given.
  lemma OrderedByKind(mounts: seq<Mount>, mainProject: string)
    ensures Ordered(mounts, mainProject) ==
            Filter(mounts, (m: Mount) => m.ProjectMount? && mainProject != "" && m.project == mainProject)
            + Filter(mounts, (m: Mount) => m.ProjectMount? && (mainProject == "" || m.project != mainProject))
            + Filter(mounts, (m: Mount) => m.VolumeMount?) + Filter(mounts, (m: Mount) => m.SecretMount?)
            + Filter(mounts, (m: Mount) => m.TmpfsMount?)
  {
    OrderedIsFromRank(mounts, mainProject);
    OwnRank(mounts, mainProject);
    OtherRanks(mounts, mainProject);
    hide FromRank, OfRank, Filter, Ordered, Rank;
    FromRankStep(mounts, 0, mainProject);
    FromRankStep(mounts, 1, mainProject);
    FromRankStep(mounts, 2, mainProject);
    FromRankStep(mounts, 3, mainProject);
    FromRankStep(mounts, 4, mainProject);
    FromRankStep(mounts, 5, mainProject);
  }
}
