// src/project-path.ts: project paths and the host directories they name.
module ProjectPath {
  import opened Options
  import opened Sequences
  import opened PathSegments

  function StripTrailingSlash(s: string): (r: string)
    ensures |r| <= |s| && r == s[..|r|]
    ensures r != "" ==> r[|r| - 1] != '/'
    ensures forall i :: |r| <= i < |s| ==> s[i] == '/'
  {
    if s != "" && s[|s| - 1] == '/' then StripTrailingSlash(s[..|s| - 1]) else s
  }

  predicate Stripped(s: string) {
    s == "" || s[|s| - 1] != '/'
  }

  lemma StripIsIdempotent(s: string)
    ensures Stripped(StripTrailingSlash(s))
    ensures Stripped(s) ==> StripTrailingSlash(s) == s
  {
  }

  // normalizeProjectPath, by its loop.
  method NormalizeProjectPath(project: string) returns (name: Option<string>)
    ensures name == Normalize(project)
  {
    var parts := SplitOn(project, '/');
    var segments: seq<string> := [];
    for n := 0 to |parts|
      invariant Walk(parts, []) == Walk(parts[n..], segments)
    {
      assert parts[n..][0] == parts[n] && parts[n..][1..] == parts[n + 1..];
      if parts[n] == "" || parts[n] == "." { continue; }
      if parts[n] == ".." {
        if segments == [] { return None; }
        segments := segments[..|segments| - 1];
        continue;
      }
      segments := segments + [parts[n]];
    }
    return Some(JoinPath(segments));
  }

  function Normalize(project: string): Option<string> {
    match Resolve(project)
    case None => None
    case Some(segments) => Some(JoinPath(segments))
  }

  lemma NormalizeIsIdempotent(project: string)
    ensures Normalize(project).Some? ==>
              && Resolve(Normalize(project).value) == Resolve(project)
              && Normalize(Normalize(project).value) == Normalize(project)
  {
    if Resolve(project).Some? {
      ResolveIsPlain(project);
      ResolveJoined(Resolve(project).value);
    }
  }

  // What a normalized name is: plain segments between single slashes.
  lemma NormalizedIff(name: string)
    ensures Normalize(name) == Some(name) <==>
            exists segments :: AllPlain(segments) && name == JoinPath(segments)
  {
    if Normalize(name) == Some(name) {
      ResolveIsPlain(name);
      assert AllPlain(Resolve(name).value) && name == JoinPath(Resolve(name).value);
    }
    if segments :| AllPlain(segments) && name == JoinPath(segments) {
      ResolveJoined(segments);
    }
  }

  // ----- The two directions -----

  function ProjectNameFromHostPath(projectsRoot: string, path: string): Option<string> {
    var root := StripTrailingSlash(projectsRoot);
    var target := StripTrailingSlash(path);
    if root == "" || target == "" || target == root then None
    else if !StartsWith(target, root + "/") then None
    else Some(target[|root| + 1..])
  }

  function HostPathForProjectName(projectsRoot: string, project: string): string {
    var root := StripTrailingSlash(projectsRoot);
    var name := Normalize(project);
    if root == "" || name == None || name == Some("") then root
    else root + "/" + name.value
  }

  datatype Origin = Typed | Browsed
  datatype Rejection = Empty | AbsolutePath | EscapesRoot | MissingDirectory
  datatype Decision = Accepted(project: string) | Refused(reason: Rejection)

  // White space as String.prototype.trim sees it, below U+00FF and beyond.
  const BLANKS: set<char> := {
    '\t', '\n', '\U{0B}', '\U{0C}', '\r', ' ', '\U{A0}', '\U{1680}', '\U{2000}', '\U{2001}',
    '\U{2002}', '\U{2003}', '\U{2004}', '\U{2005}', '\U{2006}', '\U{2007}', '\U{2008}',
    '\U{2009}', '\U{200A}', '\U{2028}', '\U{2029}', '\U{202F}', '\U{205F}', '\U{3000}', '\U{FEFF}'}

  predicate Blank(s: string) {
    forall c :: c in s ==> c in BLANKS
  }

  // The white space and line terminators of ECMAScript: five controls and the space, and
  // beyond ASCII the no-break and other space separators and U+FEFF.
  lemma BlankIff(s: string)
    ensures Blank(s) <==> forall i :: 0 <= i < |s| ==>
              || '\t' <= s[i] <= '\r' || s[i] == ' ' || s[i] == '\U{A0}' || s[i] == '\U{1680}'
              || '\U{2000}' <= s[i] <= '\U{200A}' || '\U{2028}' <= s[i] <= '\U{2029}'
              || s[i] == '\U{202F}' || s[i] == '\U{205F}' || s[i] == '\U{3000}' || s[i] == '\U{FEFF}'
  {
    assert Blank(s) <==> forall i :: 0 <= i < |s| ==> s[i] in BLANKS;
  }

  function DecideProjectPath(origin: Origin, project: string, directoryExists: bool): Decision {
    if origin == Browsed then Accepted(project)
    else if Blank(project) then Refused(Empty)
    else if project[0] == '/' then Refused(AbsolutePath)
    else
      match Normalize(project)
      case None => Refused(EscapesRoot)
      case Some(name) =>
        if name == "" then Refused(Empty)
        else if !directoryExists then Refused(MissingDirectory)
        else Accepted(name)
  }

  lemma NameEnds(name: string)
    requires Normalize(name) == Some(name) && name != ""
    ensures name[0] != '/' && Stripped(name)
  {
    NormalizedIff(name);
    var segments :| AllPlain(segments) && name == JoinPath(segments);
    JoinedIsPlain(segments);
  }

  // A typed path is accepted exactly when it is relative, stays strictly inside the
  // root and its directory exists; what is stored is its normal form.
  lemma TypedIsAcceptedIff(project: string, directoryExists: bool)
    ensures DecideProjectPath(Typed, project, directoryExists).Accepted? <==>
            && directoryExists && !Blank(project) && project[0] != '/'
            && Resolve(project).Some? && Resolve(project).value != []
    ensures var d := DecideProjectPath(Typed, project, directoryExists);
            d.Accepted? ==> d.project != "" && Normalize(project) == Some(d.project) == Normalize(d.project)
  {
    NormalizeIsIdempotent(project);
    if Resolve(project).Some? {
      ResolveIsPlain(project);
      JoinedPlain(Resolve(project).value);
    }
  }

  // Every refusal has its reason, and a browsed directory is taken as it is.
  lemma DecisionIs(project: string, directoryExists: bool)
    ensures DecideProjectPath(Browsed, project, directoryExists) == Accepted(project)
    ensures DecideProjectPath(Typed, project, directoryExists) ==
            if Blank(project) then Refused(Empty)
            else if StartsWith(project, "/") then Refused(AbsolutePath)
            else if Resolve(project) == None then Refused(EscapesRoot)
            else if Resolve(project) == Some([]) then Refused(Empty)
            else if !directoryExists then Refused(MissingDirectory)
            else Accepted(JoinPath(Resolve(project).value))
  {
    if Resolve(project).Some? {
      ResolveIsPlain(project);
      JoinedPlain(Resolve(project).value);
    }
    if project != "" {
      assert project[..1] == [project[0]];
    }
  }

  // The stored name and the typed path name one directory, and that directory names
  // the stored project again, exactly when there is a root to be inside of.
  lemma TypedRoundTrips(root: string, project: string, directoryExists: bool)
    requires DecideProjectPath(Typed, project, directoryExists).Accepted?
    ensures var name := DecideProjectPath(Typed, project, directoryExists).project;
            && HostPathForProjectName(root, name) == HostPathForProjectName(root, project)
            && (ProjectNameFromHostPath(root, HostPathForProjectName(root, name)) == Some(name) <==>
                StripTrailingSlash(root) != "")
  {
    var name := DecideProjectPath(Typed, project, directoryExists).project;
    TypedIsAcceptedIff(project, directoryExists);
    hide DecideProjectPath, Normalize;
    NameEnds(name);
    var base := StripTrailingSlash(root);
    if base != "" {
      NameBelow(base, name);
      StripIsIdempotent(base + "/" + name);
    }
  }

  lemma NameBelow(base: string, name: string)
    requires name != "" && Stripped(name)
    ensures var path := base + "/" + name;
            && path[..|base| + 1] == base + "/" && path[|base| + 1..] == name
            && Stripped(path) && path != base && StartsWith(path, base + "/")
  {
    var path := base + "/" + name;
    assert path[|path| - 1] == name[|name| - 1];
  }

  // The other way round, a directory inside the root is found again exactly when the
  // rest of it is in normal form: a path that climbs back out is not.
  lemma HostPathRoundTripsIff(root: string, path: string)
    requires ProjectNameFromHostPath(root, path).Some?
    ensures var name := ProjectNameFromHostPath(root, path).value;
            HostPathForProjectName(root, name) == StripTrailingSlash(path) <==> Normalize(name) == Some(name)
  {
    var base, target := StripTrailingSlash(root), StripTrailingSlash(path);
    var name := ProjectNameFromHostPath(root, path).value;
    assert target == base + "/" + name by {
      assert target == target[..|base| + 1] + target[|base| + 1..];
    }
    if HostPathForProjectName(root, name) == target {
      assert |target| > |base|;
      assert target[|base| + 1..] == Normalize(name).value;
    }
    if Normalize(name) == Some(name) {
      assert name != "" by {
        assert target[|target| - 1] == if name == "" then '/' else name[|name| - 1];
      }
    }
  }

  // A directory has a project name exactly when it lies below the root, and the name is
  // what follows the root; a trailing slash of either does not matter.
  lemma ProjectNameIff(root: string, path: string, name: string)
    ensures ProjectNameFromHostPath(root, path) == Some(name) <==>
            && StripTrailingSlash(root) != "" && name != ""
            && StripTrailingSlash(path) == StripTrailingSlash(root) + "/" + name
  {
    var base, target := StripTrailingSlash(root), StripTrailingSlash(path);
    if StartsWith(target, base + "/") {
      assert target == base + "/" + target[|base| + 1..];
      assert target[|target| - 1] == '/' || target[|base| + 1..] != "";
    }
    if target == base + "/" + name {
      assert target[..|base| + 1] == base + "/" && target[|base| + 1..] == name;
    }
  }

  // It is mapped all the same, to a name no project mount can have.
  lemma ClimbingPathIsMapped()
    ensures ProjectNameFromHostPath("/projects", "/projects/../etc") == Some("../etc")
    ensures Normalize("../etc") == None
    ensures HostPathForProjectName("/projects", "../etc") == "/projects"
  {
    var root, path := "/projects", "/projects/../etc";
    StripIsIdempotent(root);
    StripIsIdempotent(path);
    assert path[..|root| + 1] == root + "/" && path[|root| + 1..] == "../etc";
    var parts := SplitOn("../etc", '/');
    assert "../etc" == ".." + "/" + "etc";
    SplitOnAround("..", '/', "etc");
    SplitOnFree("..", '/');
    SplitOnFree("etc", '/');
    assert parts == ["..", "etc"] && parts[0] == "..";
  }

  // ----- Confinement -----

  function ConfineToRoot(root: string, path: string): string {
    var base := StripTrailingSlash(root);
    var target := StripTrailingSlash(path);
    if base == "" || target == base then base
    else if !StartsWith(target, base + "/") then base
    else
      match Normalize(target[|base| + 1..])
      case None => base
      case Some(name) => if name == "" then base else base + "/" + name
  }

  // base, or a path of plain segments below it.
  function Below(base: string, segments: Segments): string {
    if segments == [] then base else base + "/" + JoinPath(segments)
  }

  // The plain segments of a confined path below its root.
  function ConfinedSegments(root: string, path: string): Segments {
    var base := StripTrailingSlash(root);
    var target := StripTrailingSlash(path);
    if base == "" || target == base || !StartsWith(target, base + "/") then []
    else
      match Resolve(target[|base| + 1..])
      case None => []
      case Some(segments) => segments
  }

  // Wherever path points, the confined one is the root or plain segments below it:
  // no dot, no climb, no empty segment.
  lemma ConfinedStaysInside(root: string, path: string)
    ensures AllPlain(ConfinedSegments(root, path))
    ensures ConfineToRoot(root, path) == Below(StripTrailingSlash(root), ConfinedSegments(root, path))
  {
    var base, target := StripTrailingSlash(root), StripTrailingSlash(path);
    if base != "" && target != base && StartsWith(target, base + "/") {
      var rest := target[|base| + 1..];
      ResolveIsPlain(rest);
      if Resolve(rest).Some? {
        JoinedPlain(Resolve(rest).value);
      }
    }
  }

  lemma {:induction false} StripResolves(s: string)
    ensures Resolve(StripTrailingSlash(s)) == Resolve(s)
  {
    if s != "" && s[|s| - 1] == '/' {
      var front := s[..|s| - 1];
      StripResolves(front);
      ResolveStep(front, "");
      assert s == front + "/" + "";
    }
  }

  lemma {:induction false} StripAfter(base: string, rest: string)
    requires Stripped(base)
    ensures StripTrailingSlash(base + "/" + rest) ==
            if StripTrailingSlash(rest) == "" then base else base + "/" + StripTrailingSlash(rest)
    decreases |rest|
  {
    var s := base + "/" + rest;
    if rest == "" {
      assert s[..|s| - 1] == base;
      StripIsIdempotent(base);
    } else {
      assert s[|s| - 1] == rest[|rest| - 1];
      if rest[|rest| - 1] == '/' {
        StripAfter(base, rest[..|rest| - 1]);
        assert s[..|s| - 1] == base + "/" + rest[..|rest| - 1];
      }
    }
  }

  lemma StripKeepsStart(s: string, prefix: string)
    ensures StartsWith(StripTrailingSlash(s), prefix) ==> StartsWith(s, prefix)
  {
    var r := StripTrailingSlash(s);
    if StartsWith(r, prefix) {
      assert s[..|prefix|] == r[..|prefix|];
    }
  }

  // A path written below the root is confined to where it leads, or to the root if it
  // climbs above it; any other is confined to the root.
  lemma ConfinedIs(root: string, rest: string, path: string)
    requires StripTrailingSlash(root) != ""
    ensures var base := StripTrailingSlash(root);
            && ConfineToRoot(root, base + "/" + rest) ==
               Below(base, match Resolve(rest) case None => [] case Some(segments) => segments)
            && (!StartsWith(path, base + "/") ==> ConfineToRoot(root, path) == base)
  {
    var base := StripTrailingSlash(root);
    StripIsIdempotent(root);
    StripAfter(base, rest);
    StripResolves(rest);
    var stripped := StripTrailingSlash(rest);
    if stripped == "" {
      ResolveStep("", "");
    } else {
      ResolveIsPlain(rest);
      var target := base + "/" + stripped;
      assert target[..|base| + 1] == base + "/" && target[|base| + 1..] == stripped;
      if Resolve(stripped).Some? { JoinedPlain(Resolve(stripped).value); }
    }
    if !StartsWith(path, base + "/") {
      StripKeepsStart(path, base + "/");
    }
  }

  // A project's directory is the root, or its normal form below it.
  lemma HostPathIs(root: string, project: string)
    ensures HostPathForProjectName(root, project) ==
            if StripTrailingSlash(root) == "" || Resolve(project) == None then StripTrailingSlash(root)
            else Below(StripTrailingSlash(root), Resolve(project).value)
  {
    if Resolve(project).Some? {
      ResolveIsPlain(project);
      JoinedPlain(Resolve(project).value);
    }
  }

  lemma BelowParts(base: string, segments: Segments)
    requires AllPlain(segments) && segments != []
    ensures var path := Below(base, segments);
            && path[..|base| + 1] == base + "/" && path[|base| + 1..] == JoinPath(segments)
            && |path| > |base| + 1 && Stripped(path)
  {
    JoinedIsPlain(segments);
  }

  // What is already plain segments below the root is left alone.
  lemma ConfineKeepsInside(root: string, segments: Segments)
    requires AllPlain(segments) && StripTrailingSlash(root) != ""
    ensures ConfineToRoot(root, Below(StripTrailingSlash(root), segments)) == Below(StripTrailingSlash(root), segments)
  {
    var base := StripTrailingSlash(root);
    StripIsIdempotent(root);
    StripIsIdempotent(base);
    if segments != [] {
      BelowParts(base, segments);
      StripIsIdempotent(Below(base, segments));
      ResolveJoined(segments);
      JoinedPlain(segments);
    }
  }

  lemma ConfineIsIdempotent(root: string, path: string)
    ensures ConfineToRoot(root, ConfineToRoot(root, path)) == ConfineToRoot(root, path)
  {
    ConfinedStaysInside(root, path);
    if StripTrailingSlash(root) != "" {
      ConfineKeepsInside(root, ConfinedSegments(root, path));
    }
  }

  // ----- Breadcrumbs -----

  function Crumbs(accumulated: string, parts: Segments): seq<string>
    decreases |parts|
  {
    if parts == [] then []
    else if parts[0] == "" then Crumbs(accumulated, parts[1..])
    else [accumulated + "/" + parts[0]] + Crumbs(accumulated + "/" + parts[0], parts[1..])
  }

  method RootCrumbs(root: string, path: string) returns (crumbs: seq<string>)
    ensures crumbs == CrumbsOf(root, path)
  {
    var base := StripTrailingSlash(root);
    var prefix := base + "/";
    if base == "" || !StartsWith(path, prefix) { return []; }
    crumbs := [];
    var accumulated := base;
    var parts := SplitOn(path[|prefix|..], '/');
    for n := 0 to |parts|
      invariant Crumbs(base, parts) == crumbs + Crumbs(accumulated, parts[n..])
    {
      assert parts[n..][0] == parts[n] && parts[n..][1..] == parts[n + 1..];
      if parts[n] == "" { continue; }
      accumulated := accumulated + "/" + parts[n];
      crumbs := crumbs + [accumulated];
    }
  }

  function CrumbsOf(root: string, path: string): seq<string> {
    var base := StripTrailingSlash(root);
    if base == "" || !StartsWith(path, base + "/") then []
    else Crumbs(base, SplitOn(path[|base| + 1..], '/'))
  }

  lemma BelowCons(base: string, first: string, rest: Segments)
    ensures Below(base, [first] + rest) == Below(base + "/" + first, rest)
  {
    if rest != [] {
      assert ([first] + rest)[1..] == rest;
      assert base + "/" + (first + "/" + JoinPath(rest)) == base + "/" + first + "/" + JoinPath(rest);
    } else {
      assert [first] + rest == [first];
    }
  }

  lemma {:induction false} PlainCrumbs(accumulated: string, segments: Segments)
    requires AllPlain(segments)
    ensures |Crumbs(accumulated, segments)| == |segments|
    ensures forall i :: 0 <= i < |segments| ==>
              Crumbs(accumulated, segments)[i] == Below(accumulated, segments[..i + 1])
    decreases |segments|
  {
    if segments != [] {
      assert Plain(segments[0]);
      var next := accumulated + "/" + segments[0];
      PlainCrumbs(next, segments[1..]);
      hide Below;
      forall i | 0 <= i < |segments|
        ensures Crumbs(accumulated, segments)[i] == Below(accumulated, segments[..i + 1])
      {
        BelowCons(accumulated, segments[0], segments[1..][..i]);
        assert segments[..i + 1] == [segments[0]] + segments[1..][..i];
        if i == 0 { BelowNone(next); }
      }
    }
  }

  lemma BelowNone(base: string)
    ensures Below(base, []) == base
  {
  }

  // The breadcrumbs of a confined path: one per segment, each the root and the first
  // segments, the last the path itself; a confined path that is the root has none.
  lemma CrumbsAreAChain(root: string, path: string)
    requires StripTrailingSlash(root) != ""
    ensures var base, segments := StripTrailingSlash(root), ConfinedSegments(root, path);
            var crumbs := CrumbsOf(root, ConfineToRoot(root, path));
            && |crumbs| == |segments|
            && (forall i :: 0 <= i < |crumbs| ==> crumbs[i] == Below(base, segments[..i + 1]))
            && (crumbs != [] ==> crumbs[|crumbs| - 1] == ConfineToRoot(root, path))
  {
    var base, segments := StripTrailingSlash(root), ConfinedSegments(root, path);
    ConfinedStaysInside(root, path);
    if segments != [] {
      BelowParts(base, segments);
      SplitJoined(segments);
      PlainCrumbs(base, segments);
      assert segments[..|segments|] == segments;
    }
  }

  // ----- One level up -----

  function LastSlash(s: string): (i: int)
    ensures -1 <= i < |s|
    ensures i >= 0 ==> s[i] == '/'
    ensures forall j :: i < j < |s| ==> s[j] != '/'
  {
    if s == "" then -1
    else if s[|s| - 1] == '/' then |s| - 1
    else LastSlash(s[..|s| - 1])
  }

  function ParentDirectory(root: string, path: string): string {
    var base := StripTrailingSlash(root);
    var index := LastSlash(path);
    if index <= 0 then base
    else
      var parent := StripTrailingSlash(path[..index]);
      if |parent| < |base| then base else parent
  }

  // Going up never leaves the root.
  lemma ParentStaysInside(root: string, path: string)
    ensures |ParentDirectory(root, path)| >= |StripTrailingSlash(root)|
    ensures ParentDirectory(root, StripTrailingSlash(root)) == StripTrailingSlash(root)
  {
  }

  lemma BelowSnoc(base: string, segments: Segments, segment: string)
    ensures Below(base, segments + [segment]) == Below(base, segments) + "/" + segment
  {
    if segments != [] {
      JoinSnoc(segments, segment);
      assert base + "/" + (JoinPath(segments) + "/" + segment) == base + "/" + JoinPath(segments) + "/" + segment;
    }
  }

  lemma {:induction false} JoinSnoc(segments: Segments, segment: string)
    requires segments != []
    ensures JoinPath(segments + [segment]) == JoinPath(segments) + "/" + segment
    decreases |segments|
  {
    if |segments| > 1 {
      JoinSnoc(segments[1..], segment);
      assert (segments + [segment])[1..] == segments[1..] + [segment];
      assert segments[0] + "/" + (JoinPath(segments[1..]) + "/" + segment) ==
             segments[0] + "/" + JoinPath(segments[1..]) + "/" + segment;
    } else {
      assert (segments + [segment])[1..] == [segment];
      assert (segments + [segment])[0] == segments[0];
      assert JoinPath([segment]) == segment && JoinPath(segments) == segments[0];
    }
  }

  lemma LastSlashBefore(upper: string, segment: string)
    requires Free(segment, '/')
    ensures var path := upper + "/" + segment;
            LastSlash(path) == |upper| && path[..|upper|] == upper
  {
    var path := upper + "/" + segment;
    forall j | |upper| < j < |path| ensures path[j] != '/' {
      assert path[j] == segment[j - |upper| - 1] && segment[j - |upper| - 1] in segment;
    }
    assert path[|upper|] == '/';
  }

  // Going up from a path below the root drops its last segment, so the parent of
  // each breadcrumb is the one before it, and of the first the root.
  lemma ParentDropsLast(root: string, segments: Segments, segment: string)
    requires StripTrailingSlash(root) != "" && AllPlain(segments) && Plain(segment)
    ensures var base := StripTrailingSlash(root);
            ParentDirectory(root, Below(base, segments + [segment])) == Below(base, segments)
  {
    var base := StripTrailingSlash(root);
    var upper := Below(base, segments);
    var path := upper + "/" + segment;
    BelowSnoc(base, segments, segment);
    assert Stripped(upper) && |upper| >= |base| by {
      if segments != [] { BelowParts(base, segments); }
    }
    hide Below;
    LastSlashBefore(upper, segment);
    StripIsIdempotent(upper);
  }
}
