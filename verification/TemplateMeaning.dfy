// What a template document says (docs/usage.md, Container templates), stated without
// the parser, and that validation accepts exactly those documents and reads them so
// (src/container-template.ts).
module TemplateMeaning {
  import opened Options
  import opened Sequences
  import opened Ordering
  import opened Documents
  import opened PathSegments
  import opened TemplateFormat
  import opened MountOrder
  import opened Templates
  import CC = ContainerConfig

  // ----- Names -----

  predicate LetterOrDigit(c: char) {
    'a' <= c <= 'z' || 'A' <= c <= 'Z' || '0' <= c <= '9'
  }

  predicate IsPackage(s: string) {
    && s != "" && s != "." && s != ".." && s[0] != '-'
    && forall i :: 0 <= i < |s| ==> LetterOrDigit(s[i]) || s[i] in {'@', '+', '.', '_', ':', '-'}
  }

  // A secret, or a volume.
  predicate IsSecret(s: string) {
    && s != "" && |s| <= 64 && s[0] !in {'_', '.', '-'}
    && forall i :: 0 <= i < |s| ==> LetterOrDigit(s[i]) || s[i] in {'_', '.', '-'}
  }

  predicate IsVariable(s: string) {
    s != "" && Free(s, '=') && Free(s, '\0') && !("DSH_PODMAN" <= s)
  }

  predicate NoNul(s: string) {
    Free(s, '\0')
  }

  predicate IsIdentity(s: string) {
    s == "GIT_AUTHOR_NAME" || s == "GIT_AUTHOR_EMAIL" || s == "GIT_COMMITTER_NAME" || s == "GIT_COMMITTER_EMAIL"
  }

  predicate IsBase(s: string) {
    s == "archlinux" || s == "ubuntu" || s == "alpine"
  }

  predicate OneLine(s: string) {
    Free(s, '\0') && Free(s, '\n') && Free(s, '\r')
  }

  ghost predicate IsCleanPath(s: string) {
    OneLine(s) && exists segments :: AllPlain(segments) && segments != [] && s == "/" + JoinPath(segments)
  }

  // A project is named by any path that stays below the root, and kept in its normal
  // form.
  ghost predicate NamesProject(s: string, project: string) {
    && OneLine(s) && !StartsWith(s, "/")
    && Resolve(s).Some? && Resolve(s).value != [] && project == JoinPath(Resolve(s).value)
  }

  // ----- Mappings and lists -----

  ghost predicate Only(fields: seq<Field>, keys: set<string>) {
    forall i :: 0 <= i < |fields| ==> fields[i].key in keys || fields[i].key == "__proto__"
  }

  ghost predicate DescribesList<T(!new)>(node: Option<Node>, values: seq<T>, describes: (Node, T) -> bool) {
    match node
    case None => values == []
    case Some(Listing(items)) =>
      |items| == |values| && forall i :: 0 <= i < |items| ==> describes(items[i], values[i])
    case Some(_) => false
  }

  // ----- Mounts, paths and ports -----

  predicate DescribesMode(node: Option<Node>, mode: Mode) {
    match mode
    case ReadOnly => node == None || node == Some(Text("read_only"))
    case ReadWrite => node == Some(Text("read_write"))
  }

  predicate Destination(fields: seq<Field>, destination: string) {
    Get(fields, "destination") == Some(Text(destination))
  }

  ghost predicate DescribesMount(node: Node, m: Mount) {
    node.Mapping? &&
    var fields := node.fields;
    match m
    case ProjectMount(project, mode) =>
      && Get(fields, "kind") == Some(Text("project")) && Only(fields, {"kind", "project", "mode"})
      && (exists s :: Get(fields, "project") == Some(Text(s)) && NamesProject(s, project))
      && DescribesMode(Get(fields, "mode"), mode)
    case VolumeMount(volume, destination, mode) =>
      && Get(fields, "kind") == Some(Text("volume")) && Only(fields, {"kind", "volume", "destination", "mode"})
      && Get(fields, "volume") == Some(Text(volume)) && IsSecret(volume)
      && Destination(fields, destination) && IsCleanPath(destination)
      && DescribesMode(Get(fields, "mode"), mode)
    case SecretMount(secret, destination) =>
      && Get(fields, "kind") == Some(Text("secret")) && Only(fields, {"kind", "secret", "destination"})
      && Get(fields, "secret") == Some(Text(secret)) && IsSecret(secret)
      && Destination(fields, destination) && IsCleanPath(destination)
    case TmpfsMount(destination) =>
      && Get(fields, "kind") == Some(Text("tmpfs")) && Only(fields, {"kind", "destination"})
      && Destination(fields, destination) && IsCleanPath(destination)
  }

  ghost predicate DescribesPath(node: Node, path: string) {
    node == Text(path) && IsCleanPath(path) && Free(path, ':')
  }

  ghost predicate DescribesPort(node: Node, p: Port) {
    && node.Mapping? && Only(node.fields, {"container", "host", "protocol"})
    && Get(node.fields, "container") == Some(Integer(p.container)) && 0 < p.container < 0x1_0000
    && Get(node.fields, "protocol") == Some(Text("tcp"))
    && match p.host
       case None => Get(node.fields, "host") == None
       case Some(host) => Get(node.fields, "host") == Some(Integer(host)) && 1024 <= host < 0x1_0000
  }

  // ----- The image -----

  predicate Given(node: Option<Node>) {
    node != None && node != Some(Null)
  }

  // The packages are those named that the base does not bring, each once, in order;
  // with none left the image is the base.
  ghost predicate DescribesImage(spec: seq<Field>, image: Image) {
    if Given(Get(spec, "image")) then
      !Given(Get(spec, "imageTemplate")) && image.Base? && Get(spec, "image") == Some(Text(image.base)) && IsBase(image.base)
    else exists fields, items :: Get(spec, "imageTemplate") == Some(Mapping(fields)) && DescribesRecipe(fields, items, image)
  }

  ghost predicate DescribesRecipe(fields: seq<Field>, items: seq<Node>, image: Image) {
    && Only(fields, {"base", "packages"})
    && Get(fields, "base") == Some(Text(image.base)) && IsBase(image.base)
    && Get(fields, "packages") == Some(Listing(items))
    && (forall i :: 0 <= i < |items| ==> items[i].Text? && IsPackage(items[i].text))
    && (image.Recipe? ==> Increasing(image.packages) && image.packages != [])
    && forall p :: (image.Recipe? && p in image.packages) <==> Text(p) in items && p !in BaseImagePackages(image.base)
  }

  // ----- Variables -----

  // A name given twice has the last value. The identity variables are left out, and
  // "__proto__" is no variable.
  ghost predicate SetTo(fields: seq<Field>, key: string, value: string) {
    exists i :: 0 <= i < |fields| && fields[i] == Field(key, Text(value)) &&
                forall j :: i < j < |fields| ==> fields[j].key != key
  }

  ghost predicate AllowedFields(fields: seq<Field>, allowed: string -> bool) {
    forall i :: 0 <= i < |fields| && fields[i].key != "__proto__" ==>
      IsVariable(fields[i].key) && fields[i].node.Text? && allowed(fields[i].node.text)
  }

  ghost predicate DescribesEnv(node: Option<Node>, r: CC.Record, allowed: string -> bool) {
    CC.IsRecord(r) &&
    match node
    case None => r == []
    case Some(Mapping(fields)) =>
      && AllowedFields(fields, allowed)
      && (forall e :: e in r <==> SetTo(fields, e.key, e.value) && !IsIdentity(e.key) && e.key != "__proto__")
    case Some(_) => false
  }

  // No variable is given a value and a secret. A missing env is read as a plain object,
  // which has the names every object inherits.
  ghost predicate Apart(t: Template, plain: bool) {
    forall s :: s in t.secretEnv ==>
      (forall e :: e in t.env ==> e.key != s.key) && !(plain && s.key in CC.INHERITED)
  }

  // ----- The document -----

  ghost predicate Describes(raw: Node, t: Template) {
    && raw.Mapping? && Only(raw.fields, {"version", "kind", "spec"})
    && Get(raw.fields, "version") == Some(Integer(1))
    && Get(raw.fields, "kind") == Some(Text("dsh-podman/container-template"))
    && exists spec :: Get(raw.fields, "spec") == Some(Mapping(spec)) && DescribesSpec(spec, t)
  }

  ghost predicate DescribesSpec(spec: seq<Field>, t: Template) {
    && Only(spec, {"image", "imageTemplate", "env", "secretEnv", "mounts", "paths", "ports"})
    && DescribesImage(spec, t.image)
    && DescribesEnv(Get(spec, "env"), t.env, NoNul)
    && DescribesEnv(Get(spec, "secretEnv"), t.secretEnv, IsSecret)
    && Apart(t, Get(spec, "env") == None)
    && DescribesList(Get(spec, "mounts"), t.mounts, DescribesMount)
    && DescribesList(Get(spec, "paths"), t.paths, DescribesPath)
    && DescribesList(Get(spec, "ports"), t.ports, DescribesPort)
  }

  // Two readings that differ at most in the order of their variables.
  ghost predicate SameReading(a: Template, b: Template) {
    && a.image == b.image && a.mounts == b.mounts && a.paths == b.paths && a.ports == b.ports
    && (forall e :: e in a.env <==> e in b.env)
    && (forall e :: e in a.secretEnv <==> e in b.secretEnv)
  }

  // ----- Single values -----

  lemma PackageIff(s: string)
    ensures ValidPackageName(s) <==> IsPackage(s)
  {
    if s != "" {
      assert s[0] in s;
      assert (forall c :: c in s ==> PackageChar(c) || c == '-') <==>
             (forall i :: 0 <= i < |s| ==> PackageChar(s[i]) || s[i] == '-');
    }
  }

  lemma SecretIff(s: string)
    ensures ValidSecretName(s) <==> IsSecret(s)
  {
    if s != "" {
      assert s[0] in s;
      assert (forall c :: c in s ==> Alphanumeric(c) || c in {'_', '.', '-'}) <==>
             (forall i :: 0 <= i < |s| ==> Alphanumeric(s[i]) || s[i] in {'_', '.', '-'});
    }
  }

  lemma VariableIff(s: string)
    ensures ValidEnvKey(s) <==> IsVariable(s)
  {
  }

  lemma IdentityIff(s: string)
    ensures s in GIT_IDENTITY_KEYS <==> IsIdentity(s)
  {
  }

  lemma BaseIff(s: string)
    ensures IsBaseImage(s) <==> IsBase(s)
  {
  }

  lemma CleanPathIff(s: string, path: string)
    ensures CleanAbsolutePath(s) == Some(path) <==> s == path && IsCleanPath(path)
  {
    CleanAbsoluteIff(s);
  }

  lemma ProjectIff(s: string, project: string)
    ensures ProjectPathOf(s) == Some(project) <==> NamesProject(s, project)
  {
    hide Resolve, JoinPath;
    if s != "" {
      assert s[..1] == "/" <==> s[0] == '/';
    }
  }

  lemma {:induction false} OnlyIff(fields: seq<Field>, keys: set<string>)
    ensures UnknownKey(fields, keys) == None <==> Only(fields, keys)
  {
    if fields != [] {
      OnlyIff(fields[1..], keys);
      assert fields == [fields[0]] + fields[1..];
    }
  }

  // ----- Lists -----

  lemma {:induction false} ItemsIff<T(!new)>(items: seq<Node>, at: Path, index: nat, parse: (Node, Path) -> Result<T>,
                                       describes: (Node, T) -> bool, values: seq<T>)
    requires forall n: Node, w: Path, v: T :: parse(n, w) == Ok(v) <==> describes(n, v)
    ensures ParseItems(items, at, index, parse) == Ok(values) <==>
            |items| == |values| && forall i :: 0 <= i < |items| ==> describes(items[i], values[i])
    decreases |items|
  {
    if items != [] && values != [] {
      ItemsIff(items[1..], at, index + 1, parse, describes, values[1..]);
      assert values == [values[0]] + values[1..];
      assert parse(items[0], at + [Index(index)]) == Ok(values[0]) <==> describes(items[0], values[0]);
      var whole := |items| == |values| && forall i :: 0 <= i < |items| ==> describes(items[i], values[i]);
      if whole {
        forall i | 0 <= i < |items[1..]| ensures describes(items[1..][i], values[1..][i]) {
          assert describes(items[i + 1], values[i + 1]);
        }
      }
      if describes(items[0], values[0]) && |items| == |values| &&
         forall i :: 0 <= i < |items[1..]| ==> describes(items[1..][i], values[1..][i]) {
        forall i | 0 <= i < |items| ensures describes(items[i], values[i]) {
          if i > 0 {
            assert describes(items[1..][i - 1], values[1..][i - 1]);
          }
        }
      }
    }
  }

  lemma ListIff<T(!new)>(node: Option<Node>, at: Path, parse: (Node, Path) -> Result<T>,
                         describes: (Node, T) -> bool, values: seq<T>)
    requires forall n: Node, w: Path, v: T :: parse(n, w) == Ok(v) <==> describes(n, v)
    ensures ParseList(node, at, parse) == Ok(values) <==> DescribesList(node, values, describes)
  {
    if node.Some? && node.value.Listing? {
      ItemsIff(node.value.items, at, 0, parse, describes, values);
    }
  }

  // ----- Mounts, paths and ports -----

  lemma ModeIff(node: Option<Node>, at: Path, mode: Mode)
    ensures ParseMode(node, at) == Ok(mode) <==> DescribesMode(node, mode)
  {
  }

  lemma SecretNameIff(node: Option<Node>, at: Path, name: string)
    ensures SecretName(node, at) == Ok(name) <==> node == Some(Text(name)) && IsSecret(name)
  {
    SecretIff(name);
    assert ValidSecretName(name) ==> name != "";
    hide ValidSecretName, IsSecret;
  }

  lemma DestinationIff(fields: seq<Field>, destination: string)
    ensures CleanPathOf(Get(fields, "destination")) == Some(destination) <==>
            Destination(fields, destination) && IsCleanPath(destination)
  {
    match Get(fields, "destination")
    case Some(Text(s)) => CleanPathIff(s, destination);
    case _ =>
  }

  lemma {:induction false} GetOnly(fields: seq<Field>, keys: set<string>, key: string)
    requires Only(fields, keys) && key !in keys && key != "__proto__"
    ensures Get(fields, key) == None
  {
    if fields != [] {
      GetOnly(fields[1..], keys, key);
    }
  }

  // A key of another kind is reported before an unknown one, and both are refused.
  lemma ForbiddenIff(fields: seq<Field>, kind: string)
    ensures FirstPresent(fields, ForbiddenKeys(kind)) == None && UnknownKey(fields, MountKeys(kind)) == None <==>
            Only(fields, MountKeys(kind))
  {
    OnlyIff(fields, MountKeys(kind));
    if Only(fields, MountKeys(kind)) {
      forall k | k in ForbiddenKeys(kind) ensures Get(fields, k) == None {
        GetOnly(fields, MountKeys(kind), k);
      }
      NonePresent(fields, ForbiddenKeys(kind));
    }
  }

  lemma KindIff(fields: seq<Field>, at: Path, m: Mount)
    ensures ParseMount(Mapping(fields), at) == Ok(m) <==>
            && Get(fields, "kind") == Some(Text(KindOf(m))) && Only(fields, MountKeys(KindOf(m)))
            && ParseMountOf(KindOf(m), fields, at) == Ok(m)
  {
    var kind := Get(fields, "kind");
    ForbiddenIff(fields, KindOf(m));
    if kind.Some? && kind.value.Text? && kind.value.text in MOUNT_KINDS {
      KindIsRead(kind.value.text, fields, at, m);
    }
    assert KindOf(m) in MOUNT_KINDS && "" !in MOUNT_KINDS;
    hide FirstPresent, UnknownKey, Only, ForbiddenKeys, MountKeys, Get, ParseMountOf, MOUNT_KINDS, KindOf;
  }

  lemma KindIsRead(kind: string, fields: seq<Field>, at: Path, m: Mount)
    requires kind in MOUNT_KINDS
    ensures ParseMountOf(kind, fields, at) == Ok(m) ==> kind == KindOf(m)
  {
    hide Get, ParseMode, SecretName, CleanPathOf, ProjectPathOf;
  }

  lemma ProjectMountIff(fields: seq<Field>, at: Path, project: string, mode: Mode)
    ensures ParseMountOf("project", fields, at) == Ok(ProjectMount(project, mode)) <==>
            && (exists s :: Get(fields, "project") == Some(Text(s)) && NamesProject(s, project))
            && DescribesMode(Get(fields, "mode"), mode)
  {
    ModeIff(Get(fields, "mode"), at + [Name("mode")], mode);
    forall s ensures ProjectPathOf(s) == Some(project) <==> NamesProject(s, project) { ProjectIff(s, project); }
    hide Get, ParseMode, DescribesMode, ProjectPathOf, NamesProject;
  }

  lemma PlacedMountIff(fields: seq<Field>, at: Path, m: Mount)
    requires !m.ProjectMount?
    ensures ParseMountOf(KindOf(m), fields, at) == Ok(m) <==>
            && Destination(fields, m.destination) && IsCleanPath(m.destination)
            && match m
               case VolumeMount(volume, _, mode) =>
                 Get(fields, "volume") == Some(Text(volume)) && IsSecret(volume) && DescribesMode(Get(fields, "mode"), mode)
               case SecretMount(secret, _) => Get(fields, "secret") == Some(Text(secret)) && IsSecret(secret)
               case TmpfsMount(_) => true
  {
    DestinationIff(fields, m.destination);
    hide Get, ParseMode, DescribesMode, SecretName, IsSecret, CleanPathOf, Destination, IsCleanPath, ProjectPathOf;
    match m
    case VolumeMount(volume, _, mode) =>
      ModeIff(Get(fields, "mode"), at + [Name("mode")], mode);
      SecretNameIff(Get(fields, "volume"), at + [Name("volume")], volume);
    case SecretMount(secret, _) =>
      SecretNameIff(Get(fields, "secret"), at + [Name("secret")], secret);
    case TmpfsMount(_) =>
  }

  // A mount is read exactly as it is described.
  lemma MountIff(node: Node, at: Path, m: Mount)
    ensures ParseMount(node, at) == Ok(m) <==> DescribesMount(node, m)
  {
    if node.Mapping? {
      KindIff(node.fields, at, m);
      if m.ProjectMount? {
        ProjectMountIff(node.fields, at, m.project, m.mode);
      } else {
        PlacedMountIff(node.fields, at, m);
      }
      hide Get, Only, ParseMount, ParseMountOf, DescribesMode, Destination, IsCleanPath, NamesProject, IsSecret;
    }
  }

  lemma PathIff(node: Node, at: Path, path: string)
    ensures ParsePath(node, at) == Ok(path) <==> DescribesPath(node, path)
  {
    if node.Text? {
      CleanPathIff(node.text, path);
      hide CleanAbsolutePath;
    }
  }

  lemma PortIff(node: Node, at: Path, p: Port)
    ensures ParsePort(node, at) == Ok(p) <==> DescribesPort(node, p)
  {
    if node.Mapping? {
      OnlyIff(node.fields, {"container", "host", "protocol"});
      hide Get, Only, UnknownKey;
    }
  }

  // ----- The image -----

  lemma {:induction false} NamesIff(items: seq<Node>, p: string)
    ensures PackageNames(items).Some? <==> forall i :: 0 <= i < |items| ==> items[i].Text? && IsPackage(items[i].text)
    ensures PackageNames(items).Some? ==> (p in PackageNames(items).value <==> Text(p) in items)
  {
    hide ValidPackageName, IsPackage;
    if items != [] {
      NamesIff(items[1..], p);
      assert items == [items[0]] + items[1..];
      if items[0].Text? { PackageIff(items[0].text); }
    }
  }

  lemma RecipeIff(node: Node, at: Path, image: Image)
    ensures ParseRecipe(node, at) == Ok(image) <==>
            node.Mapping? && exists items :: DescribesRecipe(node.fields, items, image)
  {
    if node.Mapping? {
      var fields := node.fields;
      OnlyIff(fields, {"base", "packages"});
      hide BaseImagePackages, ValidPackageName, IsPackage, Get, Only, UnknownKey, PackageNames, Extra;
      match Get(fields, "packages")
      case Some(Listing(items)) =>
        BaseIff(image.base);
        ExtraIff(image.base, items, image);
        hide IsBaseImage, IsBase;
        assert DescribesRecipe(fields, items, image) <==>
               exists listed :: DescribesRecipe(fields, listed, image);
      case _ =>
    }
  }

  lemma ExtraIff(base: string, items: seq<Node>, image: Image)
    requires image.base == base
    ensures var r := CanonicalPackages(base, items);
            (r.Some? && image == (if r.value == [] then Base(base) else Recipe(base, r.value))) <==>
            && (forall i :: 0 <= i < |items| ==> items[i].Text? && IsPackage(items[i].text))
            && (image.Recipe? ==> Increasing(image.packages) && image.packages != [])
            && forall p :: (image.Recipe? && p in image.packages) <==> Text(p) in items && p !in BaseImagePackages(base)
  {
    hide BaseImagePackages, IsPackage, Extra, PackageNames;
    forall p
      ensures PackageNames(items).Some? <==> forall i :: 0 <= i < |items| ==> items[i].Text? && IsPackage(items[i].text)
      ensures PackageNames(items).Some? ==> (p in PackageNames(items).value <==> Text(p) in items)
    {
      NamesIff(items, p);
    }
    NamesIff(items, "");
    if PackageNames(items).Some? {
      var extra := Extra(base, PackageNames(items).value);
      ExtraIs(base, PackageNames(items).value);
      if image.Recipe? {
        if Increasing(image.packages) && forall p :: p in image.packages <==> p in extra {
          assert Elements(image.packages) == Elements(extra);
          SortedOnce(image.packages, extra);
        }
      } else if extra != [] {
        assert extra[0] in extra;
      }
    }
  }

  lemma ImageIff(spec: seq<Field>, image: Image)
    ensures ParseImage(spec) == Ok(image) <==> DescribesImage(spec, image)
  {
    hide Get, ParseRecipe, DescribesRecipe;
    BaseIff(image.base);
    hide IsBaseImage, IsBase;
    var recipe := Get(spec, "imageTemplate");
    if recipe.Some? {
      RecipeIff(recipe.value, [Name("spec"), Name("imageTemplate")], image);
    }
  }

  // ----- Variables -----

  ghost predicate HasKey(fields: seq<Field>, key: string) {
    exists i :: 0 <= i < |fields| && fields[i].key == key
  }

  lemma HasKeyStep(fields: seq<Field>, key: string)
    requires fields != []
    ensures HasKey(fields, key) <==> fields[0].key == key || HasKey(fields[1..], key)
  {
    if HasKey(fields, key) && fields[0].key != key {
      var i :| 0 <= i < |fields| && fields[i].key == key;
      assert fields[1..][i - 1].key == key;
    }
  }

  lemma SetToStep(fields: seq<Field>, key: string, value: string)
    requires fields != []
    ensures SetTo(fields, key, value) <==>
            SetTo(fields[1..], key, value) || (fields[0] == Field(key, Text(value)) && !HasKey(fields[1..], key))
  {
    var rest := fields[1..];
    if i :| 0 <= i < |fields| && fields[i] == Field(key, Text(value)) && forall j :: i < j < |fields| ==> fields[j].key != key {
      forall j | 0 <= j < |rest| && i <= j ensures rest[j].key != key {
        assert rest[j] == fields[j + 1];
      }
      if i > 0 {
        assert rest[i - 1] == Field(key, Text(value));
      }
    }
    if i :| 0 <= i < |rest| && rest[i] == Field(key, Text(value)) && forall j :: i < j < |rest| ==> rest[j].key != key {
      forall j | i + 1 < j < |fields| ensures fields[j].key != key {
        assert fields[j] == rest[j - 1];
      }
      assert fields[i + 1] == Field(key, Text(value));
    }
    if fields[0] == Field(key, Text(value)) && !HasKey(rest, key) {
      forall j | 0 < j < |fields| ensures fields[j].key != key {
        assert fields[j] == rest[j - 1];
      }
    }
  }

  lemma AllowedStep(fields: seq<Field>, allowed: string -> bool)
    requires fields != []
    ensures AllowedFields(fields, allowed) <==>
            && AllowedFields(fields[1..], allowed)
            && (fields[0].key != "__proto__" ==>
                  IsVariable(fields[0].key) && fields[0].node.Text? && allowed(fields[0].node.text))
  {
    hide IsVariable;
    assert fields == [fields[0]] + fields[1..];
    if AllowedFields(fields, allowed) {
      forall i | 0 <= i < |fields[1..]| && fields[1..][i].key != "__proto__"
        ensures IsVariable(fields[1..][i].key) && fields[1..][i].node.Text? && allowed(fields[1..][i].node.text)
      {
        assert fields[i + 1] == fields[1..][i];
      }
    }
  }

  lemma {:induction false} PutIs(r: CC.Record, key: string, value: string, e: CC.Entry)
    requires CC.IsRecord(r)
    ensures e in Put(r, key, value) <==> e == CC.Entry(key, value) || (e in r && e.key != key)
  {
    if r != [] {
      assert r == [r[0]] + r[1..];
      if r[0].key != key {
        PutIs(r[1..], key, value, e);
      } else {
        assert e in r[1..] ==> e.key != key by {
          if e in r[1..] {
            var i :| 0 <= i < |r[1..]| && r[1..][i] == e;
            assert r[i + 1] == e;
          }
        }
      }
    }
  }

  // What a check of a value accepts, wherever the value stands.
  ghost predicate Checks(value: (Option<Node>, Path) -> Result<string>, allowed: string -> bool) {
    forall n: Node, w: Path, v: string :: value(Some(n), w) == Ok(v) <==> n == Text(v) && allowed(v)
  }

  lemma {:induction false} FieldsAreRead(fields: seq<Field>, at: Path, value: (Option<Node>, Path) -> Result<string>,
                                         allowed: string -> bool, sofar: CC.Record, e: CC.Entry)
    requires Checks(value, allowed)
    requires CC.IsRecord(sofar) && forall s :: s in sofar ==> s.key != "__proto__"
    ensures var r := ReadFields(fields, at, value, sofar);
            && (r.Ok? <==> AllowedFields(fields, allowed))
            && (r.Ok? ==>
                  && CC.IsRecord(r.value)
                  && (e in r.value <==>
                      || (e.key != "__proto__" && SetTo(fields, e.key, e.value))
                      || (e in sofar && !HasKey(fields, e.key))))
    decreases |fields|
  {
    hide IsVariable, ValidEnvKey, CC.IsRecord, SetTo, HasKey, AllowedFields;
    if fields == [] {
      assert AllowedFields(fields, allowed) && !HasKey(fields, e.key) && !SetTo(fields, e.key, e.value) by {
        NoFields(e.key, e.value, allowed);
      }
    } else {
      var f := fields[0];
      HasKeyStep(fields, e.key);
      SetToStep(fields, e.key, e.value);
      AllowedStep(fields, allowed);
      VariableIff(f.key);
      if f.key == "__proto__" {
        FieldsAreRead(fields[1..], at, value, allowed, sofar, e);
      } else {
        var read := value(Some(f.node), at + [Name(f.key)]);
        if f.node.Text? {
          assert read == Ok(f.node.text) <==> allowed(f.node.text);
        }
        if read.Ok? {
          assert f.node == Text(read.value);
        }
        if ValidEnvKey(f.key) && read.Ok? {
          PutKeepsRecord(sofar, f.key, read.value);
          PutIs(sofar, f.key, read.value, e);
          FieldsAreRead(fields[1..], at, value, allowed, Put(sofar, f.key, read.value), e);
        }
      }
    }
  }

  lemma NoFields(key: string, value: string, allowed: string -> bool)
    ensures AllowedFields([], allowed) && !HasKey([], key) && !SetTo([], key, value)
  {
  }

  lemma EnvChecks()
    ensures Checks(EnvValue, NoNul) && Checks(SecretName, IsSecret)
  {
    forall n: Node, w: Path, v: string ensures SecretName(Some(n), w) == Ok(v) <==> n == Text(v) && IsSecret(v) {
      SecretNameIff(Some(n), w, v);
    }
  }

  lemma EnvIsRead(node: Option<Node>, at: Path, value: (Option<Node>, Path) -> Result<string>, allowed: string -> bool)
    requires Checks(value, allowed)
    ensures var r := StringMap(node, at, value);
            && (r.Ok? ==> DescribesEnv(node, WithoutGitIdentity(r.value), allowed))
            && (r.Ok? <==> exists rec :: DescribesEnv(node, rec, allowed))
  {
    hide AllowedFields, SetTo, HasKey, Checks, WithoutGitIdentity;
    var r := StringMap(node, at, value);
    match node
    case None =>
      WithoutGitIs([]);
      assert WithoutGitIdentity([]) == [] by { NothingLeft(WithoutGitIdentity([])); }
      assert DescribesEnv(node, [], allowed);
    case Some(Mapping(fields)) =>
      forall e: CC.Entry
        ensures r.Ok? <==> AllowedFields(fields, allowed)
        ensures r.Ok? ==> CC.IsRecord(r.value)
        ensures r.Ok? ==> (e in r.value <==> e.key != "__proto__" && SetTo(fields, e.key, e.value))
      {
        FieldsAreRead(fields, at, value, allowed, [], e);
      }
      FieldsAreRead(fields, at, value, allowed, [], CC.Entry("", ""));
      if r.Ok? {
        WithoutGitIs(r.value);
        var kept := WithoutGitIdentity(r.value);
        forall e ensures e in kept <==> SetTo(fields, e.key, e.value) && !IsIdentity(e.key) && e.key != "__proto__" {
          IdentityIff(e.key);
        }
        assert DescribesEnv(node, kept, allowed);
      }
    case _ =>
  }

  lemma NothingLeft(r: CC.Record)
    ensures (forall e :: e !in r) ==> r == []
  {
    if r != [] {
      assert r[0] in r;
    }
  }

  lemma ClashIff(t: Template, plain: bool)
    requires CC.IsRecord(t.env) && (plain ==> t.env == [])
    ensures Clashes(t.secretEnv, t.env, plain) <==> !Apart(t, plain)
  {
    if plain {
      EmptyEnvClashes(t.secretEnv);
    } else {
      forall e | e in t.secretEnv ensures e.key in CC.AsMap(t.env) <==> exists f :: f in t.env && f.key == e.key {
        CC.HoldsAt(t.env, e.key);
      }
    }
  }

  // ----- The document -----

  lemma ListsIff(spec: seq<Field>, image: Image, env: CC.Record, secretEnv: CC.Record, t: Template)
    ensures ValidateLists(spec, image, env, secretEnv) == Ok(t) <==>
            && t.image == image && t.env == env && t.secretEnv == secretEnv
            && DescribesList(Get(spec, "mounts"), t.mounts, DescribesMount)
            && DescribesList(Get(spec, "paths"), t.paths, DescribesPath)
            && DescribesList(Get(spec, "ports"), t.ports, DescribesPort)
  {
    hide Get, ParseMount, ParsePath, ParsePort, ParseList, DescribesMount, DescribesPath, DescribesPort, DescribesList;
    forall n, w, v ensures ParseMount(n, w) == Ok(v) <==> DescribesMount(n, v) { MountIff(n, w, v); }
    forall n, w, v ensures ParsePath(n, w) == Ok(v) <==> DescribesPath(n, v) { PathIff(n, w, v); }
    forall n, w, v ensures ParsePort(n, w) == Ok(v) <==> DescribesPort(n, v) { PortIff(n, w, v); }
    ListIff(Get(spec, "mounts"), [Name("spec"), Name("mounts")], ParseMount, DescribesMount, t.mounts);
    ListIff(Get(spec, "paths"), [Name("spec"), Name("paths")], ParsePath, DescribesPath, t.paths);
    ListIff(Get(spec, "ports"), [Name("spec"), Name("ports")], ParsePort, DescribesPort, t.ports);
  }

  // What describes the same variables holds the same entries.
  lemma EnvOnce(node: Option<Node>, a: CC.Record, b: CC.Record, allowed: string -> bool)
    requires DescribesEnv(node, a, allowed) && DescribesEnv(node, b, allowed)
    ensures forall e :: e in a <==> e in b
    ensures a == [] <==> b == []
  {
    NothingLeft(a);
    NothingLeft(b);
    if a != [] { assert a[0] in a; }
    if b != [] { assert b[0] in b; }
  }

  lemma ApartAlike(a: Template, b: Template, plain: bool)
    requires (forall e :: e in a.env <==> e in b.env) && forall e :: e in a.secretEnv <==> e in b.secretEnv
    ensures Apart(a, plain) <==> Apart(b, plain)
  {
  }

  // The parts of a spec, as the parser has them when it comes to the lists.
  lemma SpecParts(spec: seq<Field>, t: Template)
    ensures ValidateSpec(spec) == Ok(t) <==>
            && Only(spec, SPEC_KEYS) && ParseImage(spec) == Ok(t.image)
            && (var env, secretEnv := StringMap(Get(spec, "env"), [Name("spec"), Name("env")], EnvValue),
                                      StringMap(Get(spec, "secretEnv"), [Name("spec"), Name("secretEnv")], SecretName);
                && env.Ok? && secretEnv.Ok?
                && !Clashes(WithoutGitIdentity(secretEnv.value), WithoutGitIdentity(env.value), Get(spec, "env").None?)
                && ValidateLists(spec, t.image, WithoutGitIdentity(env.value), WithoutGitIdentity(secretEnv.value)) == Ok(t))
  {
    OnlyIff(spec, SPEC_KEYS);
    forall image, env, secretEnv ensures ValidateLists(spec, image, env, secretEnv) == Ok(t) ==> t.image == image {
      ListsIff(spec, image, env, secretEnv, t);
    }
    hide Get, Only, UnknownKey, SPEC_KEYS, ParseImage, StringMap, WithoutGitIdentity, Clashes, ValidateLists;
  }

  // The variables as the parser keeps them.
  function Kept(node: Option<Node>, at: Path, value: (Option<Node>, Path) -> Result<string>): CC.Record {
    match StringMap(node, at, value)
    case Ok(r) => WithoutGitIdentity(r)
    case Err(_) => []
  }

  lemma SpecSound(spec: seq<Field>, t: Template)
    requires ValidateSpec(spec) == Ok(t)
    ensures DescribesSpec(spec, t)
  {
    var env, secretEnv := Get(spec, "env"), Get(spec, "secretEnv");
    SpecParts(spec, t);
    assert SPEC_KEYS == {"image", "imageTemplate", "env", "secretEnv", "mounts", "paths", "ports"};
    ImageIff(spec, t.image);
    EnvChecks();
    EnvIsRead(env, [Name("spec"), Name("env")], EnvValue, NoNul);
    EnvIsRead(secretEnv, [Name("spec"), Name("secretEnv")], SecretName, IsSecret);
    ListsIff(spec, t.image, Kept(env, [Name("spec"), Name("env")], EnvValue),
             Kept(secretEnv, [Name("spec"), Name("secretEnv")], SecretName), t);
    DescribedRecord(env, t.env, NoNul);
    ClashIff(t, env == None);
    hide Get, Only, ValidateSpec, SPEC_KEYS, ParseImage, StringMap, WithoutGitIdentity, Clashes, ValidateLists, DescribesImage,
         DescribesEnv, DescribesList, Apart, IsSecret, NoNul, EnvValue, SecretName;
  }

  lemma DescribedRecord(node: Option<Node>, r: CC.Record, allowed: string -> bool)
    requires DescribesEnv(node, r, allowed)
    ensures CC.IsRecord(r) && (node == None ==> r == [])
  {
  }

  lemma SpecComplete(spec: seq<Field>, t: Template)
    requires DescribesSpec(spec, t)
    ensures ValidateSpec(spec).Ok? && SameReading(ValidateSpec(spec).value, t)
  {
    var env, secretEnv := Get(spec, "env"), Get(spec, "secretEnv");
    var r := t.(env := Kept(env, [Name("spec"), Name("env")], EnvValue),
                secretEnv := Kept(secretEnv, [Name("spec"), Name("secretEnv")], SecretName));
    SpecParts(spec, r);
    assert SPEC_KEYS == {"image", "imageTemplate", "env", "secretEnv", "mounts", "paths", "ports"};
    ImageIff(spec, t.image);
    EnvChecks();
    EnvIsRead(env, [Name("spec"), Name("env")], EnvValue, NoNul);
    EnvIsRead(secretEnv, [Name("spec"), Name("secretEnv")], SecretName, IsSecret);
    hide Get, Only, ValidateSpec, SPEC_KEYS, ParseImage, StringMap, WithoutGitIdentity, Clashes, ValidateLists, DescribesImage,
         DescribesEnv, DescribesList, Apart, IsSecret, NoNul, EnvValue, SecretName;
    EnvOnce(env, r.env, t.env, NoNul);
    EnvOnce(secretEnv, r.secretEnv, t.secretEnv, IsSecret);
    ListsIff(spec, t.image, r.env, r.secretEnv, r);
    DescribedRecord(env, r.env, NoNul);
    ClashIff(r, env == None);
    ApartAlike(r, t, env == None);
  }

  // Validation accepts exactly the documents the format describes, and reads each as
  // described: no other key, kind, mode, name, path, port or image passes, and the
  // reading differs from any described one at most in the order of the variables.
  lemma ReadsAsDescribed(raw: Node)
    ensures Validate(raw).Ok? <==> exists t :: Describes(raw, t)
    ensures Validate(raw).Ok? ==> Describes(raw, Validate(raw).value)
    ensures Validate(raw).Ok? ==> forall t :: Describes(raw, t) ==> SameReading(Validate(raw).value, t)
  {
    if raw.Mapping? {
      OnlyIff(raw.fields, {"version", "kind", "spec"});
      var spec := Get(raw.fields, "spec");
      forall t ensures spec.Some? && spec.value.Mapping? && DescribesSpec(spec.value.fields, t) ==>
                         ValidateSpec(spec.value.fields).Ok? && SameReading(ValidateSpec(spec.value.fields).value, t)
      {
        if spec.Some? && spec.value.Mapping? && DescribesSpec(spec.value.fields, t) {
          SpecComplete(spec.value.fields, t);
        }
      }
      hide Get, Only, UnknownKey, ValidateSpec, DescribesSpec, SameReading;
      if Validate(raw).Ok? {
        SpecSound(spec.value.fields, Validate(raw).value);
        assert Describes(raw, Validate(raw).value);
      }
    }
  }
}
