// The mount a loaded template cannot remove (withForcedProjectMount of
// src/container-template.ts).
module ForcedMount {
  import opened Options
  import opened Sequences
  import opened TemplateFormat
  import opened ContainerConfig

  // ----- Mount modes (src/mount-enums.ts) -----

  function Lower(c: char): char {
    if 'A' <= c <= 'Z' then ((c as int) + 32) as char else c
  }

  // The modes are spelled in ASCII, and no other letter lowers to one of theirs.
  function LowerCase(s: string): string {
    if s == "" then "" else [Lower(s[0])] + LowerCase(s[1..])
  }

  const MODE_PREFIX := "MOUNT_MODE_"

  function ShortName(value: string): string {
    LowerCase(if StartsWith(value, MODE_PREFIX) then value[|MODE_PREFIX|..] else value)
  }

  // JavaScript's Number(value), where that is an integer.
  type ToNumber = string -> Option<int>

  // normalizeMountMode: the name in any spelling, then the enum number, else
  // read_write.
  function NormalizeMountMode(value: string, number: ToNumber): string {
    if ShortName(value) == "read_only" then "read_only"
    else if ShortName(value) == "read_write" then "read_write"
    else if value != "" && number(value) == Some(1) then "read_only"
    else "read_write"
  }

  lemma {:induction false} LowerIsLower(s: string)
    requires forall i :: 0 <= i < |s| ==> !('A' <= s[i] <= 'Z')
    ensures LowerCase(s) == s
  {
    if s != "" {
      LowerIsLower(s[1..]);
      assert s == [s[0]] + s[1..];
    }
  }

  lemma NoPrefix(s: string)
    requires s != "" && s[0] == 'r'
    ensures !StartsWith(s, MODE_PREFIX)
  {
    assert MODE_PREFIX[0] == 'M';
  }

  lemma NamesStay()
    ensures ShortName("read_only") == "read_only" && ShortName("read_write") == "read_write"
  {
    hide LowerCase, StartsWith;
    NoPrefix("read_only");
    NoPrefix("read_write");
    LowerIsLower("read_only");
    LowerIsLower("read_write");
  }

  // The same name, in capitals anywhere.
  predicate SameLetters(s: string, name: string) {
    |s| == |name| && forall i :: 0 <= i < |s| ==>
      s[i] == name[i] || ('a' <= name[i] <= 'z' && s[i] as int == name[i] as int - 32)
  }

  // A mode is spelled by its name, or by its name after the prefix of the enum.
  ghost predicate Spells(value: string, name: string) {
    (!StartsWith(value, "MOUNT_MODE_") && SameLetters(value, name)) ||
    exists rest :: value == "MOUNT_MODE_" + rest && SameLetters(rest, name)
  }

  lemma {:induction false} LowerIff(s: string, name: string)
    requires forall i :: 0 <= i < |name| ==> !('A' <= name[i] <= 'Z')
    ensures LowerCase(s) == name <==> SameLetters(s, name)
  {
    LowerCaseAt(s);
    if SameLetters(s, name) {
      forall i | 0 <= i < |s| ensures LowerCase(s)[i] == name[i] {
      }
    }
    if LowerCase(s) == name {
      forall i | 0 <= i < |s|
        ensures s[i] == name[i] || ('a' <= name[i] <= 'z' && s[i] as int == name[i] as int - 32)
      {
        assert LowerCase(s)[i] == Lower(s[i]);
      }
    }
  }

  lemma {:induction false} LowerCaseAt(s: string)
    ensures |LowerCase(s)| == |s|
    ensures forall i :: 0 <= i < |s| ==> LowerCase(s)[i] == Lower(s[i])
  {
    if s != "" {
      LowerCaseAt(s[1..]);
    }
  }

  lemma SpellsIff(value: string, name: string)
    requires forall i :: 0 <= i < |name| ==> !('A' <= name[i] <= 'Z')
    ensures ShortName(value) == name <==> Spells(value, name)
  {
    if StartsWith(value, MODE_PREFIX) {
      var rest := value[|MODE_PREFIX|..];
      LowerIff(rest, name);
      assert value == MODE_PREFIX + rest;
      forall r | value == "MOUNT_MODE_" + r ensures r == rest {
        assert (MODE_PREFIX + r)[|MODE_PREFIX|..] == r;
      }
    } else {
      LowerIff(value, name);
      forall r ensures value != "MOUNT_MODE_" + r {
        assert (MODE_PREFIX + r)[..|MODE_PREFIX|] == MODE_PREFIX;
      }
    }
  }

  // A mode is read-only exactly if it is spelled so, or is no spelling of read-write
  // and counts as the number 1.
  lemma ReadOnlyIff(value: string, number: ToNumber)
    ensures NormalizeMountMode(value, number) == "read_only" <==>
            Spells(value, "read_only") || (!Spells(value, "read_write") && value != "" && number(value) == Some(1))
  {
    SpellsIff(value, "read_only");
    SpellsIff(value, "read_write");
    hide ShortName, Spells;
  }

  // A normalized mode is one of the two names, and its own normal form.
  lemma ModeIsNormal(value: string, number: ToNumber)
    ensures var mode := NormalizeMountMode(value, number);
            mode in {"read_only", "read_write"} && NormalizeMountMode(mode, number) == mode
    ensures NormalizeMountMode("read_write", number) == "read_write"
  {
    hide ShortName;
    NamesStay();
  }

  // ----- The workspace's own mount -----

  predicate OwnMount(m: MountInput, project: string) {
    m.kind == "project" && m.project == project
  }

  function WithForcedProjectMount(mounts: seq<MountInput>, workspaceProject: string, number: ToNumber)
    : Option<seq<MountInput>>
  {
    match ProjectPathOf(workspaceProject)
    case None => None
    case Some(project) =>
      var declared := Filter(mounts, (m: MountInput) => OwnMount(m, project));
      var mode := if declared == [] then "read_write" else NormalizeMountMode(declared[0].mode, number);
      Some([MountInput("project", project, "", mode, "", "")]
           + Filter(mounts, (m: MountInput) => !OwnMount(m, project)))
  }

  lemma {:induction false} FilterTwice<T>(s: seq<T>, p: T -> bool, q: T -> bool)
    requires forall x :: x in s ==> !(p(x) && q(x))
    ensures Filter(Filter(s, p), p) == Filter(s, p)
    ensures Filter(Filter(s, p), q) == []
  {
    if s != [] {
      FilterTwice(s[1..], p, q);
      if p(s[0]) {
        var rest := Filter(s[1..], p);
        assert s[0] in s;
        assert ([s[0]] + rest)[1..] == rest;
      }
    }
  }

  // The workspace's project is mounted first and once, whatever the template said, in
  // the mode of its first declaration or else read-write; the other mounts follow as
  // they were, and doing it again changes nothing.
  lemma ForcedMountIsFirst(mounts: seq<MountInput>, workspaceProject: string, number: ToNumber)
    requires ProjectPathOf(workspaceProject).Some?
    ensures var project := ProjectPathOf(workspaceProject).value;
            var forced := WithForcedProjectMount(mounts, workspaceProject, number).value;
            var own := (m: MountInput) => m.kind == "project" && m.project == project;
            var other := (m: MountInput) => m.kind != "project" || m.project != project;
            var declared := Filter(mounts, own);
            && Filter(forced, own) == [forced[0]]
            && forced[0] == MountInput("project", project, "",
                 if declared == [] then "read_write" else NormalizeMountMode(declared[0].mode, number), "", "")
            && Filter(forced, other) == Filter(mounts, other)
            && WithForcedProjectMount(forced, workspaceProject, number) == Some(forced)
  {
    hide ProjectPathOf, NormalizeMountMode;
    var project := ProjectPathOf(workspaceProject).value;
    var own := (m: MountInput) => m.kind == "project" && m.project == project;
    var other := (m: MountInput) => m.kind != "project" || m.project != project;
    forall list ensures Filter(list, (m: MountInput) => OwnMount(m, project)) == Filter(list, own) {
      FilterAlike(list, (m: MountInput) => OwnMount(m, project), own);
    }
    forall list ensures Filter(list, (m: MountInput) => !OwnMount(m, project)) == Filter(list, other) {
      FilterAlike(list, (m: MountInput) => !OwnMount(m, project), other);
    }
    var forced := WithForcedProjectMount(mounts, workspaceProject, number).value;
    var declared, rest := Filter(mounts, own), Filter(mounts, other);
    ModeIsNormal(if declared == [] then "" else declared[0].mode, number);
    FilterTwice(mounts, other, own);
    assert forced == [forced[0]] + rest && forced[1..] == rest;
    assert Filter(forced, own) == [forced[0]] + Filter(rest, own);
    assert Filter(forced, other) == Filter(rest, other);
  }
}
