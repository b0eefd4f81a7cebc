// The rules for single values of a container template
// (src/container-template.ts).
module TemplateFormat {
  import opened Options
  import opened Sequences
  import opened Ordering
  import opened Documents
  import opened ContainerConfig
  import opened PathSegments

  const BASE_IMAGES: seq<string> := ["archlinux", "ubuntu", "alpine"]

  function BaseImagePackages(base: string): seq<string> {
    if base == "archlinux" then [
      "base-devel", "ca-certificates", "curl", "diffutils", "fd", "git", "inetutils", "jq", "less",
      "openbsd-netcat", "openssh", "patch", "procps-ng", "python", "ripgrep", "tree", "unzip", "wget", "zstd"]
    else if base == "ubuntu" then [
      "build-essential", "ca-certificates", "curl", "diffutils", "fd-find", "git", "jq", "less",
      "netcat-openbsd", "openssh-client", "patch", "procps", "python3", "ripgrep", "tree", "unzip", "wget", "zstd"]
    else if base == "alpine" then [
      "bash", "build-base", "ca-certificates", "curl", "diffutils", "fd", "git", "jq", "less",
      "openssh-client", "patch", "procps", "python3", "ripgrep", "tree", "unzip", "wget", "zstd"]
    else []
  }

  predicate IsBaseImage(name: string) {
    name in BASE_IMAGES
  }

  // What each base brings, package by package: most come with all three.
  lemma BuiltInIff(base: string, p: string)
    ensures p in BaseImagePackages(base) <==>
            || (base in {"archlinux", "ubuntu", "alpine"} &&
                p in {"ca-certificates", "curl", "diffutils", "git", "jq", "less", "patch", "ripgrep", "tree", "unzip", "wget", "zstd"})
            || (base in {"archlinux", "alpine"} && p == "fd")
            || (base in {"ubuntu", "alpine"} && p in {"openssh-client", "procps", "python3"})
            || (base == "archlinux" && p in {"base-devel", "inetutils", "openbsd-netcat", "openssh", "procps-ng", "python"})
            || (base == "ubuntu" && p in {"build-essential", "fd-find", "netcat-openbsd"})
            || (base == "alpine" && p in {"bash", "build-base"})
  {
  }

  // ----- Names -----

  predicate Alphanumeric(c: char) {
    'A' <= c <= 'Z' || 'a' <= c <= 'z' || '0' <= c <= '9'
  }

  predicate PackageChar(c: char) {
    Alphanumeric(c) || c in {'@', '+', '.', '_', ':'}
  }

  predicate ValidPackageName(s: string) {
    && s != "." && s != ".." && s != ""
    && PackageChar(s[0])
    && forall c :: c in s ==> PackageChar(c) || c == '-'
  }

  // SECRET_PATTERN, which volume names follow too.
  predicate ValidSecretName(s: string) {
    && 1 <= |s| <= 64
    && Alphanumeric(s[0])
    && forall c :: c in s ==> Alphanumeric(c) || c in {'_', '.', '-'}
  }

  const RESERVED := "DSH_PODMAN"

  predicate ValidEnvKey(s: string) {
    && s != "" && '=' !in s && '\0' !in s
    && !StartsWith(s, RESERVED)
  }

  const GIT_IDENTITY_KEYS: set<string> := {
    "GIT_AUTHOR_NAME", "GIT_AUTHOR_EMAIL", "GIT_COMMITTER_NAME", "GIT_COMMITTER_EMAIL"}

  // ----- Packages -----

  // canonicalPackages by its loop: a set, then sorted.
  function PackageNames(items: seq<Node>): Option<seq<string>> {
    if items == [] then Some([])
    else if !items[0].Text? || !ValidPackageName(items[0].text) then None
    else
      match PackageNames(items[1..])
      case None => None
      case Some(rest) => Some([items[0].text] + rest)
  }

  function Extra(base: string, names: seq<string>): seq<string> {
    SortUnique(Filter(names, (name: string) => name !in BaseImagePackages(base)))
  }

  function CanonicalPackages(base: string, items: seq<Node>): Option<seq<string>> {
    match PackageNames(items)
    case None => None
    case Some(names) => Some(Extra(base, names))
  }

  lemma {:induction false} NamesPrefix(items: seq<Node>, n: nat)
    requires n < |items|
    ensures PackageNames(items).Some? ==> items[n].Text? && ValidPackageName(items[n].text)
    ensures PackageNames(items[..n]).Some? ==>
              PackageNames(items[..n + 1]) ==
              if items[n].Text? && ValidPackageName(items[n].text)
              then Some(PackageNames(items[..n]).value + [items[n].text]) else None
  {
    hide ValidPackageName;
    if n > 0 {
      NamesPrefix(items[1..], n - 1);
      assert items[..n][1..] == items[1..][..n - 1] && items[..n + 1][1..] == items[1..][..n];
      var x := if items[n].Text? then items[n].text else "";
      if PackageNames(items[..n]).Some? {
        var rest := PackageNames(items[..n][1..]).value;
        assert [items[0].text] + (rest + [x]) == [items[0].text] + rest + [x];
      }
    } else {
      assert items[..1][1..] == [] && PackageNames([]) == Some([]);
      var x := if items[0].Text? then items[0].text else "";
      assert [x] + [] == [] + [x];
    }
  }

  method CollectPackages(base: string, items: seq<Node>) returns (packages: Option<seq<string>>)
    ensures packages == CanonicalPackages(base, items)
  {
    hide ValidPackageName, BaseImagePackages;
    var builtins := BaseImagePackages(base);
    var keep := (name: string) => name !in BaseImagePackages(base);
    var result: set<string> := {};
    for n := 0 to |items|
      invariant PackageNames(items[..n]).Some?
      invariant result == Elements(Filter(PackageNames(items[..n]).value, keep))
    {
      NamesPrefix(items, n);
      if !items[n].Text? || !ValidPackageName(items[n].text) { return None; }
      ghost var sofar := PackageNames(items[..n]).value;
      FilterAppend(sofar, items[n].text, keep);
      if items[n].text !in builtins {
        result := result + {items[n].text};
      }
    }
    assert items[..|items|] == items;
    var list := SortKeys(result);
    SortUniqueSorts(Filter(PackageNames(items).value, keep));
    SortedIncreases(result);
    SortedOnce(list, Extra(base, PackageNames(items).value));
    return Some(list);
  }

  ghost predicate Packages(base: string, packages: seq<string>) {
    && Increasing(packages)
    && forall p :: p in packages ==> ValidPackageName(p) && p !in BaseImagePackages(base)
  }

  // The canonical list is sorted, has nothing twice and nothing built in, and holds
  // every other package named.
  lemma ExtraIs(base: string, names: seq<string>)
    ensures Increasing(Extra(base, names))
    ensures forall p :: p in Extra(base, names) <==> p in names && p !in BaseImagePackages(base)
  {
    hide BaseImagePackages;
    var keep := (name: string) => name !in BaseImagePackages(base);
    SortUniqueSorts(Filter(names, keep));
    forall p ensures p in Extra(base, names) <==> p in names && p !in BaseImagePackages(base) {
      Filtered(names, keep, p);
      assert p in Extra(base, names) <==> p in Elements(Extra(base, names));
      assert p in Filter(names, keep) <==> p in Elements(Filter(names, keep));
    }
  }

  // Two spellings of one package set come out the same, and nothing else does.
  lemma PackagesCompare(base: string, a: seq<string>, b: seq<string>)
    ensures Extra(base, a) == Extra(base, b) <==>
            forall p :: p !in BaseImagePackages(base) ==> (p in a <==> p in b)
  {
    hide BaseImagePackages;
    ExtraIs(base, a);
    ExtraIs(base, b);
    if forall p :: p !in BaseImagePackages(base) ==> (p in a <==> p in b) {
      assert forall p :: p in Extra(base, a) <==> p in Extra(base, b);
      assert Elements(Extra(base, a)) == Elements(Extra(base, b));
      SortedOnce(Extra(base, a), Extra(base, b));
    }
  }

  lemma {:induction false} NamesAreValid(items: seq<Node>)
    ensures PackageNames(items).Some? ==> forall p :: p in PackageNames(items).value ==> ValidPackageName(p)
  {
    hide ValidPackageName;
    if items != [] {
      NamesAreValid(items[1..]);
    }
  }

  lemma {:induction false} NamesOfTexts(names: seq<string>)
    requires forall p :: p in names ==> ValidPackageName(p)
    ensures PackageNames(Nodes(names, (name: string) => Text(name))) == Some(names)
  {
    hide ValidPackageName;
    if names != [] {
      NamesOfTexts(names[1..]);
      var tree := (name: string) => Text(name);
      assert Nodes(names, tree)[1..] == Nodes(names[1..], tree);
      assert names == [names[0]] + names[1..];
    }
  }

  lemma CanonicalPackagesAre(base: string, items: seq<Node>)
    ensures var r := CanonicalPackages(base, items); r.Some? ==> Packages(base, r.value)
  {
    hide ValidPackageName, BaseImagePackages;
    NamesAreValid(items);
    if PackageNames(items).Some? {
      ExtraIs(base, PackageNames(items).value);
    }
  }

  lemma CanonicalPackagesStay(base: string, packages: seq<string>)
    requires Packages(base, packages)
    ensures CanonicalPackages(base, Nodes(packages, (name: string) => Text(name))) == Some(packages)
  {
    hide ValidPackageName, BaseImagePackages;
    NamesOfTexts(packages);
    ExtraIs(base, packages);
    forall p ensures p in Elements(Extra(base, packages)) <==> p in Elements(packages) {
    }
    SortedOnce(Extra(base, packages), packages);
  }

  // ----- Paths -----

  predicate NoBreaks(s: string) {
    '\0' !in s && '\n' !in s && '\r' !in s
  }

  // The loop of cleanAbsolutePath: dots and empty parts are skipped, a climb is
  // refused.
  function CleanParts(parts: Segments, sofar: Segments): Option<Segments> {
    if parts == [] then Some(sofar)
    else if parts[0] == "" || parts[0] == "." then CleanParts(parts[1..], sofar)
    else if parts[0] == ".." then None
    else CleanParts(parts[1..], sofar + [parts[0]])
  }

  function CleanAbsolutePath(s: string): Option<string> {
    if s == "" || s[0] != '/' || !NoBreaks(s) then None
    else
      match CleanParts(SplitOn(s, '/'), [])
      case None => None
      case Some(segments) =>
        if segments == [] then None
        else
          var cleaned := "/" + JoinPath(segments);
          if cleaned == s then Some(cleaned) else None
  }

  method CleanAbsolute(s: string) returns (path: Option<string>)
    ensures path == CleanAbsolutePath(s)
  {
    if s == "" || s[0] != '/' || !NoBreaks(s) { return None; }
    var parts := SplitOn(s, '/');
    var segments: seq<string> := [];
    for n := 0 to |parts|
      invariant CleanParts(parts, []) == CleanParts(parts[n..], segments)
    {
      assert parts[n..][0] == parts[n] && parts[n..][1..] == parts[n + 1..];
      if parts[n] == "" || parts[n] == "." { continue; }
      if parts[n] == ".." { return None; }
      segments := segments + [parts[n]];
    }
    if segments == [] { return None; }
    var cleaned := "/" + JoinPath(segments);
    return if cleaned == s then Some(cleaned) else None;
  }

  lemma {:induction false} CleanPartsPlain(parts: Segments, sofar: Segments)
    requires Slashless(parts) && AllPlain(sofar)
    ensures CleanParts(parts, sofar).Some? ==> AllPlain(CleanParts(parts, sofar).value)
    ensures AllPlain(parts) ==> CleanParts(parts, sofar) == Some(sofar + parts)
    decreases |parts|
  {
    if parts == [] {
      assert sofar + parts == sofar;
    } else {
      if parts[0] == "" || parts[0] == "." {
        CleanPartsPlain(parts[1..], sofar);
      } else if parts[0] != ".." {
        assert Plain(parts[0]);
        CleanPartsPlain(parts[1..], sofar + [parts[0]]);
        assert sofar + [parts[0]] + parts[1..] == sofar + parts;
      }
      if AllPlain(parts) {
        assert Plain(parts[0]) && AllPlain(parts[1..]);
      }
    }
  }

  // Accepted exactly are plain segments, at least one, each after one slash.
  lemma CleanAbsoluteIff(s: string)
    ensures CleanAbsolutePath(s) == Some(s) || CleanAbsolutePath(s) == None
    ensures CleanAbsolutePath(s) == Some(s) <==>
            NoBreaks(s) && exists segments :: AllPlain(segments) && segments != [] && s == "/" + JoinPath(segments)
  {
    SplitIsSlashless(s);
    CleanPartsPlain(SplitOn(s, '/'), []);
    if segments :| NoBreaks(s) && AllPlain(segments) && segments != [] && s == "/" + JoinPath(segments) {
      SplitJoined(segments);
      CleanPartsPlain(segments, []);
      assert [] + segments == segments;
      assert s[1..] == JoinPath(segments);
      assert SplitOn(s, '/') == [""] + segments;
      assert ([""] + segments)[1..] == segments;
    }
  }

  // normalizeProjectPath of the template format: no line break, not absolute, and
  // something left.
  function ProjectPathOf(s: string): Option<string> {
    if !NoBreaks(s) || (s != "" && s[0] == '/') then None
    else
      match Resolve(s)
      case None => None
      case Some(segments) => if segments == [] then None else Some(JoinPath(segments))
  }

  lemma {:induction false} WalkKeepsFree(parts: Segments, sofar: Segments, c: char)
    requires forall i :: 0 <= i < |parts| ==> Free(parts[i], c)
    requires forall i :: 0 <= i < |sofar| ==> Free(sofar[i], c)
    ensures var r := Walk(parts, sofar); r.Some? ==> forall i :: 0 <= i < |r.value| ==> Free(r.value[i], c)
    decreases |parts|
  {
    if parts != [] {
      if parts[0] == "" || parts[0] == "." {
        WalkKeepsFree(parts[1..], sofar, c);
      } else if parts[0] == ".." {
        if sofar != [] {
          WalkKeepsFree(parts[1..], sofar[..|sofar| - 1], c);
        }
      } else {
        WalkKeepsFree(parts[1..], sofar + [parts[0]], c);
      }
    }
  }

  lemma {:induction false} JoinKeepsFree(parts: Segments, c: char)
    requires c != '/'
    ensures Free(JoinPath(parts), c) <==> forall i :: 0 <= i < |parts| ==> Free(parts[i], c)
  {
    if |parts| > 1 {
      JoinKeepsFree(parts[1..], c);
      var rest := JoinPath(parts[1..]);
      assert JoinPath(parts) == parts[0] + "/" + rest;
      if forall i :: 0 <= i < |parts| ==> Free(parts[i], c) {
        forall i | 0 <= i < |parts[1..]| ensures Free(parts[1..][i], c) {
          assert parts[1..][i] == parts[i + 1];
        }
      } else {
        var i :| 0 <= i < |parts| && !Free(parts[i], c);
        if i > 0 {
          assert parts[1..][i - 1] == parts[i];
        }
      }
    }
  }

  lemma ResolveKeepsFree(s: string, c: char)
    requires c != '/' && Free(s, c)
    ensures Resolve(s).Some? ==> Free(JoinPath(Resolve(s).value), c)
  {
    JoinSplitOn(s, '/');
    JoinKeepsFree(SplitOn(s, '/'), c);
    WalkKeepsFree(SplitOn(s, '/'), [], c);
    if Resolve(s).Some? {
      JoinKeepsFree(Resolve(s).value, c);
    }
  }

  // The normal form is its own normal form.
  lemma ProjectPathStays(s: string)
    ensures var r := ProjectPathOf(s); r.Some? ==> ProjectPathOf(r.value) == r
  {
    if ProjectPathOf(s).Some? {
      var segments := Resolve(s).value;
      ResolveIsPlain(s);
      ResolveJoined(segments);
      JoinedIsPlain(segments);
      ResolveKeepsFree(s, '\0');
      ResolveKeepsFree(s, '\n');
      ResolveKeepsFree(s, '\r');
    }
  }

  method NormalizeProjectPath(s: string) returns (name: Option<string>)
    ensures name == ProjectPathOf(s)
  {
    if !NoBreaks(s) || (s != "" && s[0] == '/') { return None; }
    var parts := SplitOn(s, '/');
    var segments: seq<string> := [];
    for n := 0 to |parts|
      invariant Walk(parts, []) == Walk(parts[n..], segments)
    {
      assert parts[n..][0] == parts[n] && parts[n..][1..] == parts[n + 1..];
      if parts[n] == "" || parts[n] == "." { continue; }
      if parts[n] == ".." {
        if segments == [] { return None; }
        segments := segments[..|segments| - 1];
        continue;
      }
      segments := segments + [parts[n]];
    }
    return if segments == [] then None else Some(JoinPath(segments));
  }
}
