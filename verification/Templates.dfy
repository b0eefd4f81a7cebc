// Container templates: validating a document, writing one back
// (src/container-template.ts).
module Templates {
  import opened Options
  import opened Sequences
  import opened Ordering
  import opened Documents
  import opened TemplateFormat
  import opened MountOrder
  import opened PathSegments
  import CC = ContainerConfig

  // ----- Templates -----

  datatype Port = Port(container: int, host: Option<int>)

  // Exactly one of image and imageTemplate.
  datatype Image = Base(base: string) | Recipe(base: string, packages: seq<string>)

  datatype Template = Template(
    image: Image, env: CC.Record, secretEnv: CC.Record, mounts: seq<Mount>, paths: seq<string>, ports: seq<Port>)

  const TEMPLATE_VERSION := 1
  const TEMPLATE_KIND := "dsh-podman/container-template"

  // ----- Single values -----

  function StringValue(node: Option<Node>, at: Path): Result<string> {
    match node
    case Some(Text(text)) => Ok(text)
    case _ => Err(at)
  }

  function NonEmptyString(node: Option<Node>, at: Path): Result<string> {
    match StringValue(node, at)
    case Err(where) => Err(where)
    case Ok(text) => if text == "" then Err(at) else Ok(text)
  }

  // secretName, and the check of a volume name.
  function SecretName(node: Option<Node>, at: Path): Result<string> {
    match NonEmptyString(node, at)
    case Err(where) => Err(where)
    case Ok(name) => if ValidSecretName(name) then Ok(name) else Err(at)
  }

  function EnvValue(node: Option<Node>, at: Path): Result<string> {
    match StringValue(node, at)
    case Err(where) => Err(where)
    case Ok(text) => if '\0' in text then Err(at) else Ok(text)
  }

  // ----- Variables -----

  // result[key] = value
  function Put(r: CC.Record, key: string, value: string): CC.Record {
    if r == [] then [CC.Entry(key, value)]
    else if r[0].key == key then [CC.Entry(key, value)] + r[1..]
    else [r[0]] + Put(r[1..], key, value)
  }

  // stringMap over its fields. A key with "=" is reported without a place.
  function ReadFields(fields: seq<Field>, at: Path, value: (Option<Node>, Path) -> Result<string>, sofar: CC.Record)
    : Result<CC.Record>
    decreases |fields|
  {
    if fields == [] then Ok(sofar)
    else
      var f := fields[0];
      var where := at + [Name(f.key)];
      if f.key == "__proto__" then ReadFields(fields[1..], at, value, sofar)
      else if !ValidEnvKey(f.key) then Err(if f.key != "" && '=' in f.key then [] else where)
      else
        match value(Some(f.node), where)
        case Err(place) => Err(place)
        case Ok(text) => ReadFields(fields[1..], at, value, Put(sofar, f.key, text))
  }

  function StringMap(node: Option<Node>, at: Path, value: (Option<Node>, Path) -> Result<string>): Result<CC.Record> {
    match node
    case None => Ok([])
    case Some(Mapping(fields)) => ReadFields(fields, at, value, [])
    case Some(_) => Err(at)
  }

  method ReadStringMap(fields: seq<Field>, at: Path, value: (Option<Node>, Path) -> Result<string>)
    returns (result: Result<CC.Record>)
    ensures result == StringMap(Some(Mapping(fields)), at, value)
  {
    var sofar: CC.Record := [];
    for n := 0 to |fields|
      invariant ReadFields(fields, at, value, []) == ReadFields(fields[n..], at, value, sofar)
    {
      var f := fields[n];
      assert fields[n..][0] == f && fields[n..][1..] == fields[n + 1..];
      var where := at + [Name(f.key)];
      if f.key == "__proto__" { continue; }
      if !ValidEnvKey(f.key) { return Err(if f.key != "" && '=' in f.key then [] else where); }
      match value(Some(f.node), where) {
        case Err(place) => return Err(place);
        case Ok(text) => sofar := Put(sofar, f.key, text);
      }
    }
    return Ok(sofar);
  }

  function WithoutGitIdentity(r: CC.Record): CC.Record {
    Filter(r, (e: CC.Entry) => e.key !in GIT_IDENTITY_KEYS)
  }

  // ----- Mounts and ports -----

  const MOUNT_KINDS: set<string> := {"project", "volume", "secret", "tmpfs"}

  function MountKeys(kind: string): set<string> {
    if kind == "project" then {"kind", "project", "mode"}
    else if kind == "volume" then {"kind", "volume", "destination", "mode"}
    else if kind == "secret" then {"kind", "secret", "destination"}
    else {"kind", "destination"}
  }

  // The keys of another kind, in the order they are looked for.
  function ForbiddenKeys(kind: string): seq<string> {
    if kind == "project" then ["destination", "volume", "secret"]
    else if kind == "tmpfs" then ["project", "volume", "secret", "size", "mode"]
    else if kind == "secret" then ["mode"]
    else []
  }

  function FirstPresent(fields: seq<Field>, keys: seq<string>): Option<string> {
    if keys == [] then None
    else if Get(fields, keys[0]).Some? then Some(keys[0])
    else FirstPresent(fields, keys[1..])
  }

  function ParseMode(node: Option<Node>, at: Path): Result<Mode> {
    match node
    case None => Ok(ReadOnly)
    case Some(Text(text)) =>
      if text == "read_only" then Ok(ReadOnly) else if text == "read_write" then Ok(ReadWrite) else Err(at)
    case Some(_) => Err(at)
  }

  function CleanPathOf(node: Option<Node>): Option<string> {
    match node
    case Some(Text(text)) => CleanAbsolutePath(text)
    case _ => None
  }

  function ParseMount(node: Node, at: Path): Result<Mount> {
    if !node.Mapping? then Err(at)
    else
      var fields := node.fields;
      match NonEmptyString(Get(fields, "kind"), at + [Name("kind")])
      case Err(where) => Err(where)
      case Ok(kind) =>
        if kind !in MOUNT_KINDS then Err(at + [Name("kind")])
        else if FirstPresent(fields, ForbiddenKeys(kind)).Some? then
          Err(at + [Name(FirstPresent(fields, ForbiddenKeys(kind)).value)])
        else if UnknownKey(fields, MountKeys(kind)).Some? then
          Err(at + [Name(UnknownKey(fields, MountKeys(kind)).value)])
        else ParseMountOf(kind, fields, at)
  }

  function ParseMountOf(kind: string, fields: seq<Field>, at: Path): Result<Mount> {
    if kind == "project" then
      match (match Get(fields, "project") case Some(Text(text)) => ProjectPathOf(text) case _ => None)
      case None => Err(at + [Name("project")])
      case Some(project) =>
        match ParseMode(Get(fields, "mode"), at + [Name("mode")])
        case Err(where) => Err(where)
        case Ok(mode) => Ok(ProjectMount(project, mode))
    else
      match CleanPathOf(Get(fields, "destination"))
      case None => Err(at + [Name("destination")])
      case Some(destination) =>
        if kind == "tmpfs" then Ok(TmpfsMount(destination))
        else if kind == "secret" then
          match SecretName(Get(fields, "secret"), at + [Name("secret")])
          case Err(where) => Err(where)
          case Ok(name) => Ok(SecretMount(name, destination))
        else
          match SecretName(Get(fields, "volume"), at + [Name("volume")])
          case Err(where) => Err(where)
          case Ok(name) =>
            match ParseMode(Get(fields, "mode"), at + [Name("mode")])
            case Err(where) => Err(where)
            case Ok(mode) => Ok(VolumeMount(name, destination, mode))
  }

  function ParsePort(node: Node, at: Path): Result<Port> {
    if !node.Mapping? then Err(at)
    else
      var fields := node.fields;
      match UnknownKey(fields, {"container", "host", "protocol"})
      case Some(key) => Err(at + [Name(key)])
      case None =>
        match Get(fields, "container")
        case Some(Integer(container)) =>
          if !(1 <= container <= 65535) then Err(at + [Name("container")])
          else if Get(fields, "protocol") != Some(Text("tcp")) then Err(at + [Name("protocol")])
          else (
            match Get(fields, "host")
            case None => Ok(Port(container, None))
            case Some(Integer(host)) =>
              if 1024 <= host <= 65535 then Ok(Port(container, Some(host))) else Err(at + [Name("host")])
            case Some(_) => Err(at + [Name("host")]))
        case _ => Err(at + [Name("container")])
  }

  function ParsePath(node: Node, at: Path): Result<string> {
    match node
    case Text(text) =>
      if ':' in text || !NoBreaks(text) then Err(at)
      else (match CleanAbsolutePath(text) case None => Err(at) case Some(path) => Ok(path))
    case _ => Err(at)
  }

  // ----- The image -----

  predicate Present(node: Option<Node>) {
    node.Some? && node.value != Null
  }

  function ParseBase(node: Option<Node>, at: Path): Result<string> {
    match node
    case Some(Text(text)) => if IsBaseImage(text) then Ok(text) else Err(at)
    case _ => Err(at)
  }

  function ParseImage(spec: seq<Field>): Result<Image> {
    var image, recipe := Get(spec, "image"), Get(spec, "imageTemplate");
    if Present(image) == Present(recipe) then Err([Name("spec")])
    else if Present(image) then
      match ParseBase(image, [Name("spec"), Name("image")])
      case Err(where) => Err(where)
      case Ok(base) => Ok(Base(base))
    else ParseRecipe(recipe.value, [Name("spec"), Name("imageTemplate")])
  }

  function ParseRecipe(node: Node, at: Path): Result<Image> {
    if !node.Mapping? then Err(at)
    else
      match UnknownKey(node.fields, {"base", "packages"})
      case Some(key) => Err(at + [Name(key)])
      case None =>
        match ParseBase(Get(node.fields, "base"), at + [Name("base")])
        case Err(where) => Err(where)
        case Ok(base) =>
          match Get(node.fields, "packages")
          case Some(Listing(items)) => (
            match CanonicalPackages(base, items)
            case None => Err(at + [Name("packages")])
            case Some(packages) => if packages == [] then Ok(Base(base)) else Ok(Recipe(base, packages)))
          case _ => Err(at + [Name("packages")])
  }

  // ----- The whole document -----

  const SPEC_KEYS: set<string> := {"image", "imageTemplate", "env", "secretEnv", "mounts", "paths", "ports"}

  // A variable of both maps. The map read for a missing env is a plain object, which
  // has the names every object inherits; one read from the document has not.
  predicate Clashes(secretEnv: CC.Record, env: CC.Record, plain: bool) {
    exists e :: e in secretEnv && if plain then CC.In(e.key, env) else e.key in CC.AsMap(env)
  }

  function Validate(raw: Node): Result<Template> {
    if !raw.Mapping? then Err([])
    else
      match UnknownKey(raw.fields, {"version", "kind", "spec"})
      case Some(key) => Err([Name(key)])
      case None =>
        if Get(raw.fields, "version") != Some(Integer(TEMPLATE_VERSION)) then Err([Name("version")])
        else if Get(raw.fields, "kind") != Some(Text(TEMPLATE_KIND)) then Err([Name("kind")])
        else
          match Get(raw.fields, "spec")
          case Some(Mapping(spec)) => ValidateSpec(spec)
          case _ => Err([Name("spec")])
  }

  function ValidateSpec(spec: seq<Field>): Result<Template> {
    match UnknownKey(spec, SPEC_KEYS)
    case Some(key) => Err([Name("spec"), Name(key)])
    case None =>
      match ParseImage(spec)
      case Err(where) => Err(where)
      case Ok(image) =>
        match StringMap(Get(spec, "env"), [Name("spec"), Name("env")], EnvValue)
        case Err(where) => Err(where)
        case Ok(env) =>
          match StringMap(Get(spec, "secretEnv"), [Name("spec"), Name("secretEnv")], SecretName)
          case Err(where) => Err(where)
          case Ok(secretEnv) =>
            if Clashes(WithoutGitIdentity(secretEnv), WithoutGitIdentity(env), Get(spec, "env").None?) then
              Err([Name("spec")])
            else ValidateLists(spec, image, WithoutGitIdentity(env), WithoutGitIdentity(secretEnv))
  }

  function ValidateLists(spec: seq<Field>, image: Image, env: CC.Record, secretEnv: CC.Record): Result<Template> {
    match ParseList(Get(spec, "mounts"), [Name("spec"), Name("mounts")], ParseMount)
    case Err(where) => Err(where)
    case Ok(mounts) =>
      match ParseList(Get(spec, "paths"), [Name("spec"), Name("paths")], ParsePath)
      case Err(where) => Err(where)
      case Ok(paths) =>
        match ParseList(Get(spec, "ports"), [Name("spec"), Name("ports")], ParsePort)
        case Err(where) => Err(where)
        case Ok(ports) => Ok(Template(image, env, secretEnv, mounts, paths, ports))
  }

  // ----- The canonical form -----

  predicate CanonicalMount(m: Mount) {
    match m
    case ProjectMount(project, _) => ProjectPathOf(project) == Some(project)
    case VolumeMount(volume, destination, _) =>
      ValidSecretName(volume) && CleanAbsolutePath(destination) == Some(destination)
    case SecretMount(secret, destination) =>
      ValidSecretName(secret) && CleanAbsolutePath(destination) == Some(destination)
    case TmpfsMount(destination) => CleanAbsolutePath(destination) == Some(destination)
  }

  predicate CanonicalPort(p: Port) {
    1 <= p.container <= 65535 && (p.host.Some? ==> 1024 <= p.host.value <= 65535)
  }

  predicate CanonicalPath(path: string) {
    ':' !in path && CleanAbsolutePath(path) == Some(path)
  }

  ghost predicate CanonicalImage(image: Image) {
    && IsBaseImage(image.base)
    && (image.Recipe? ==> image.packages != [] && Packages(image.base, image.packages))
  }

  predicate VariableName(key: string) {
    ValidEnvKey(key) && key != "__proto__" && key !in GIT_IDENTITY_KEYS
  }

  ghost predicate CanonicalEnv(r: CC.Record) {
    CC.IsRecord(r) && forall e :: e in r ==> VariableName(e.key) && '\0' !in e.value
  }

  ghost predicate CanonicalSecretEnv(r: CC.Record) {
    CC.IsRecord(r) && forall e :: e in r ==> VariableName(e.key) && ValidSecretName(e.value)
  }

  ghost predicate Canonical(t: Template) {
    && CanonicalImage(t.image)
    && CanonicalEnv(t.env) && CanonicalSecretEnv(t.secretEnv)
    && !Clashes(t.secretEnv, t.env, false)
    && (forall m :: m in t.mounts ==> CanonicalMount(m))
    && (forall path :: path in t.paths ==> CanonicalPath(path))
    && (forall p :: p in t.ports ==> CanonicalPort(p))
  }

  // ----- What validation returns is canonical -----

  lemma {:induction false} PutKeepsRecord(r: CC.Record, key: string, value: string)
    requires CC.IsRecord(r)
    ensures CC.IsRecord(Put(r, key, value))
    ensures forall e :: e in Put(r, key, value) ==> e in r || e == CC.Entry(key, value)
  {
    if r != [] && r[0].key != key {
      PutKeepsRecord(r[1..], key, value);
      var rest := Put(r[1..], key, value);
      forall i | 0 <= i < |rest| ensures rest[i].key != r[0].key {
        assert rest[i] in rest;
        if rest[i] in r[1..] {
          var j :| 0 <= j < |r[1..]| && r[1..][j] == rest[i];
          assert r[j + 1] == rest[i];
        }
      }
    }
  }

  ghost predicate ReadEntry(e: CC.Entry, value: (Option<Node>, Path) -> Result<string>) {
    ValidEnvKey(e.key) && e.key != "__proto__" && exists n: Option<Node>, at: Path :: value(n, at) == Ok(e.value)
  }

  lemma {:induction false} ReadIsRecord(fields: seq<Field>, at: Path, value: (Option<Node>, Path) -> Result<string>,
                                        sofar: CC.Record)
    requires CC.IsRecord(sofar) && forall e :: e in sofar ==> ReadEntry(e, value)
    ensures var r := ReadFields(fields, at, value, sofar);
            r.Ok? ==> CC.IsRecord(r.value) && forall e :: e in r.value ==> ReadEntry(e, value)
    decreases |fields|
  {
    hide ValidEnvKey;
    if fields != [] {
      var f := fields[0];
      var where := at + [Name(f.key)];
      if f.key == "__proto__" {
        ReadIsRecord(fields[1..], at, value, sofar);
      } else if ValidEnvKey(f.key) && value(Some(f.node), where).Ok? {
        var text := value(Some(f.node), where).value;
        PutKeepsRecord(sofar, f.key, text);
        assert ReadEntry(CC.Entry(f.key, text), value);
        ReadIsRecord(fields[1..], at, value, Put(sofar, f.key, text));
      }
    }
  }

  lemma {:induction false} FilterKeepsRecord(r: CC.Record, p: CC.Entry -> bool)
    requires CC.IsRecord(r)
    ensures CC.IsRecord(Filter(r, p))
  {
    if r != [] {
      FilterKeepsRecord(r[1..], p);
      var rest := Filter(r[1..], p);
      forall i | 0 <= i < |rest| ensures rest[i].key != r[0].key {
        Filtered(r[1..], p, rest[i]);
        assert rest[i] in rest;
        var j :| 0 <= j < |r[1..]| && r[1..][j] == rest[i];
        assert r[j + 1] == rest[i];
      }
    }
  }

  lemma WithoutGitIs(r: CC.Record)
    requires CC.IsRecord(r)
    ensures CC.IsRecord(WithoutGitIdentity(r))
    ensures forall e :: e in WithoutGitIdentity(r) <==> e in r && e.key !in GIT_IDENTITY_KEYS
  {
    var keep := (e: CC.Entry) => e.key !in GIT_IDENTITY_KEYS;
    FilterKeepsRecord(r, keep);
    forall e ensures e in WithoutGitIdentity(r) <==> e in r && e.key !in GIT_IDENTITY_KEYS {
      Filtered(r, keep, e);
    }
  }

  lemma EnvIsCanonical(node: Option<Node>, at: Path)
    ensures var r := StringMap(node, at, EnvValue); r.Ok? ==> CanonicalEnv(WithoutGitIdentity(r.value))
  {
    hide ValidEnvKey;
    if node.Some? && node.value.Mapping? {
      ReadIsRecord(node.value.fields, at, EnvValue, []);
    }
    var r := StringMap(node, at, EnvValue);
    if r.Ok? {
      WithoutGitIs(r.value);
    }
  }

  lemma SecretEnvIsCanonical(node: Option<Node>, at: Path)
    ensures var r := StringMap(node, at, SecretName); r.Ok? ==> CanonicalSecretEnv(WithoutGitIdentity(r.value))
  {
    hide ValidEnvKey, ValidSecretName;
    if node.Some? && node.value.Mapping? {
      ReadIsRecord(node.value.fields, at, SecretName, []);
    }
    var r := StringMap(node, at, SecretName);
    if r.Ok? {
      WithoutGitIs(r.value);
    }
  }

  lemma MountIsCanonical(node: Node, at: Path)
    ensures var r := ParseMount(node, at); r.Ok? ==> CanonicalMount(r.value)
  {
    hide Get, UnknownKey, FirstPresent, ProjectPathOf, CleanAbsolutePath, ValidSecretName, MOUNT_KINDS;
    if node.Mapping? {
      if text :| Get(node.fields, "project") == Some(Text(text)) {
        ProjectPathStays(text);
      }
      if text :| Get(node.fields, "destination") == Some(Text(text)) {
        CleanAbsoluteIff(text);
      }
    }
  }

  lemma PathIsCanonical(node: Node, at: Path)
    ensures var r := ParsePath(node, at); r.Ok? ==> CanonicalPath(r.value)
  {
    if node.Text? {
      CleanAbsoluteIff(node.text);
    }
  }

  lemma ImageIsCanonical(spec: seq<Field>)
    ensures var r := ParseImage(spec); r.Ok? ==> CanonicalImage(r.value)
  {
    hide Get, UnknownKey, CanonicalPackages, Packages;
    forall base, items
      ensures CanonicalPackages(base, items).Some? ==> Packages(base, CanonicalPackages(base, items).value)
    {
      CanonicalPackagesAre(base, items);
    }
  }

  lemma ListsAreCanonical(spec: seq<Field>, image: Image, env: CC.Record, secretEnv: CC.Record)
    ensures var r := ValidateLists(spec, image, env, secretEnv);
            r.Ok? ==>
              && r.value.image == image && r.value.env == env && r.value.secretEnv == secretEnv
              && (forall m :: m in r.value.mounts ==> CanonicalMount(m))
              && (forall path :: path in r.value.paths ==> CanonicalPath(path))
              && (forall p :: p in r.value.ports ==> CanonicalPort(p))
  {
    hide Get, ParseMount, ParsePath, ParsePort, CanonicalMount, CanonicalPath, CanonicalPort, ParseItems;
    var r := ValidateLists(spec, image, env, secretEnv);
    if r.Ok? {
      forall node, at ensures ParseMount(node, at).Ok? ==> CanonicalMount(ParseMount(node, at).value) {
        MountIsCanonical(node, at);
      }
      forall node, at ensures ParsePath(node, at).Ok? ==> CanonicalPath(ParsePath(node, at).value) {
        PathIsCanonical(node, at);
      }
      forall node, at ensures ParsePort(node, at).Ok? ==> CanonicalPort(ParsePort(node, at).value) {
        PortIsCanonical(node, at);
      }
      ReadItems(Get(spec, "mounts"), [Name("spec"), Name("mounts")], ParseMount);
      ReadItems(Get(spec, "paths"), [Name("spec"), Name("paths")], ParsePath);
      ReadItems(Get(spec, "ports"), [Name("spec"), Name("ports")], ParsePort);
    }
  }

  lemma PortIsCanonical(node: Node, at: Path)
    ensures var r := ParsePort(node, at); r.Ok? ==> CanonicalPort(r.value)
  {
  }

  lemma ReadItems<T>(node: Option<Node>, at: Path, parse: (Node, Path) -> Result<T>)
    ensures var r := ParseList(node, at, parse);
            r.Ok? ==> forall v :: v in r.value ==> exists n: Node, w: Path :: parse(n, w) == Ok(v)
  {
    if node.Some? && node.value.Listing? {
      ParsedItems(node.value.items, at, 0, parse);
      var r := ParseList(node, at, parse);
      if r.Ok? {
        forall v | v in r.value ensures exists n: Node, w: Path :: parse(n, w) == Ok(v) {
          var i :| 0 <= i < |r.value| && r.value[i] == v;
        }
      }
    }
  }

  // Whatever the document, an accepted one comes out canonical.
  lemma ValidatedIsCanonical(raw: Node)
    ensures Validate(raw).Ok? ==> Canonical(Validate(raw).value)
  {
    hide Get, UnknownKey, ParseImage, StringMap, ValidateLists, WithoutGitIdentity, CanonicalImage,
         CanonicalEnv, CanonicalSecretEnv, CanonicalMount, CanonicalPath, CanonicalPort;
    if Validate(raw).Ok? {
      var spec := Get(raw.fields, "spec").value.fields;
      var envAt, secretAt := [Name("spec"), Name("env")], [Name("spec"), Name("secretEnv")];
      ImageIsCanonical(spec);
      EnvIsCanonical(Get(spec, "env"), envAt);
      SecretEnvIsCanonical(Get(spec, "secretEnv"), secretAt);
      ListsAreCanonical(spec, ParseImage(spec).value,
                        WithoutGitIdentity(StringMap(Get(spec, "env"), envAt, EnvValue).value),
                        WithoutGitIdentity(StringMap(Get(spec, "secretEnv"), secretAt, SecretName).value));
    }
  }

  // ----- Writing a template as a document -----

  function TextNode(text: string): Node {
    Text(text)
  }

  function EnvTree(r: CC.Record): Node {
    Mapping(EnvFields(r))
  }

  function EnvFields(r: CC.Record): seq<Field> {
    if r == [] then [] else [Field(r[0].key, Text(r[0].value))] + EnvFields(r[1..])
  }

  function ModeText(mode: Mode): string {
    if mode == ReadOnly then "read_only" else "read_write"
  }

  function MountSlots(m: Mount): seq<Slot> {
    match m
    case ProjectMount(project, mode) =>
      [Slot("kind", Some(Text("project"))), Slot("project", Some(Text(project))), Slot("mode", Some(Text(ModeText(mode))))]
    case VolumeMount(volume, destination, mode) =>
      [Slot("kind", Some(Text("volume"))), Slot("volume", Some(Text(volume))),
       Slot("destination", Some(Text(destination))), Slot("mode", Some(Text(ModeText(mode))))]
    case SecretMount(secret, destination) =>
      [Slot("kind", Some(Text("secret"))), Slot("secret", Some(Text(secret))),
       Slot("destination", Some(Text(destination)))]
    case TmpfsMount(destination) =>
      [Slot("kind", Some(Text("tmpfs"))), Slot("destination", Some(Text(destination)))]
  }

  function MountTree(m: Mount): Node {
    Mapping(Build(MountSlots(m)))
  }

  function PortSlots(p: Port): seq<Slot> {
    [Slot("container", Some(Integer(p.container))),
     Slot("host", if p.host.None? then None else Some(Integer(p.host.value))),
     Slot("protocol", Some(Text("tcp")))]
  }

  function PortTree(p: Port): Node {
    Mapping(Build(PortSlots(p)))
  }

  function RecipeSlots(base: string, packages: seq<string>): seq<Slot> {
    [Slot("base", Some(Text(base))), Slot("packages", Some(Listing(Nodes(packages, (name: string) => Text(name)))))]
  }

  // A group is written when it holds something, or always.
  function Group(always: bool, empty: bool, node: Node): Option<Node> {
    if always || !empty then Some(node) else None
  }

  function SpecSlots(t: Template, always: bool): seq<Slot> {
    [Slot("image", if t.image.Base? then Some(Text(t.image.base)) else None),
     Slot("imageTemplate",
          if t.image.Recipe? then Some(Mapping(Build(RecipeSlots(t.image.base, t.image.packages)))) else None),
     Slot("env", Group(always, t.env == [], EnvTree(t.env))),
     Slot("secretEnv", Group(always, t.secretEnv == [], EnvTree(t.secretEnv))),
     Slot("mounts", Group(always, t.mounts == [], Listing(Nodes(t.mounts, MountTree)))),
     Slot("paths", Group(always, t.paths == [], Listing(Nodes(t.paths, TextNode)))),
     Slot("ports", Group(always, t.ports == [], Listing(Nodes(t.ports, PortTree))))]
  }

  function DocumentSlots(t: Template, always: bool): seq<Slot> {
    [Slot("version", Some(Integer(TEMPLATE_VERSION))), Slot("kind", Some(Text(TEMPLATE_KIND))),
     Slot("spec", Some(Mapping(Build(SpecSlots(t, always)))))]
  }

  function Document(t: Template, always: bool): Node {
    Mapping(Build(DocumentSlots(t, always)))
  }

  // The template object itself, as validation returns it: every group is there.
  function ObjectTree(t: Template): Node {
    Document(t, true)
  }

  // Object.keys(env).sort(), with the values.
  function Keys(r: CC.Record): seq<string> {
    Map(r, (e: CC.Entry) => e.key)
  }

  function ValueAt(r: CC.Record, key: string): string {
    if key in CC.AsMap(r) then CC.AsMap(r)[key] else ""
  }

  function SortedEnv(r: CC.Record): CC.Record {
    Map(SortUnique(Keys(r)), (key: string) => CC.Entry(key, ValueAt(r, key)))
  }

  // The order the renderer writes a template in.
  function Arranged(t: Template, mainProject: string): Template {
    t.(env := SortedEnv(t.env), secretEnv := SortedEnv(t.secretEnv), mounts := Ordered(t.mounts, mainProject))
  }

  // The document renderContainerTemplate writes: arranged, empty groups left out.
  function Rendered(t: Template, mainProject: string): Node {
    Document(Arranged(t, mainProject), false)
  }

  // ----- Reading it back -----

  lemma MountReadsBack(m: Mount, at: Path)
    requires CanonicalMount(m)
    ensures ParseMount(MountTree(m), at) == Ok(m)
  {
    hide ValidSecretName, CleanAbsolutePath, ProjectPathOf, Get, Build, UnknownKey;
    var slots := MountSlots(m);
    assert DistinctSlots(slots);
    BuildGet(slots, 0);
    BuildGet(slots, 1);
    MountKnows(m);
    MountForbids(m);
    match m
    case ProjectMount(_, mode) =>
      BuildGet(slots, 2);
    case VolumeMount(volume, _, mode) =>
      BuildGet(slots, 2);
      BuildGet(slots, 3);
      SecretReadsBack(volume, at + [Name("volume")]);
    case SecretMount(secret, _) =>
      BuildGet(slots, 2);
      SecretReadsBack(secret, at + [Name("secret")]);
    case TmpfsMount(_) =>
  }

  lemma SecretReadsBack(name: string, at: Path)
    requires ValidSecretName(name)
    ensures SecretName(Some(Text(name)), at) == Ok(name)
  {
  }

  function KindOf(m: Mount): string {
    match m
    case ProjectMount(_, _) => "project"
    case VolumeMount(_, _, _) => "volume"
    case SecretMount(_, _) => "secret"
    case TmpfsMount(_) => "tmpfs"
  }

  lemma MountKnows(m: Mount)
    ensures UnknownKey(Build(MountSlots(m)), MountKeys(KindOf(m))) == None
  {
    BuildKnown(MountSlots(m), MountKeys(KindOf(m)));
  }

  lemma {:induction false} NonePresent(fields: seq<Field>, keys: seq<string>)
    requires forall k :: k in keys ==> Get(fields, k) == None
    ensures FirstPresent(fields, keys) == None
  {
    if keys != [] {
      NonePresent(fields, keys[1..]);
    }
  }

  lemma MountForbids(m: Mount)
    ensures FirstPresent(Build(MountSlots(m)), ForbiddenKeys(KindOf(m))) == None
  {
    var slots := MountSlots(m);
    forall k | k in ForbiddenKeys(KindOf(m)) ensures Get(Build(slots), k) == None {
      BuildNone(slots, k);
    }
    NonePresent(Build(slots), ForbiddenKeys(KindOf(m)));
  }

  lemma PortReadsBack(p: Port, at: Path)
    requires CanonicalPort(p)
    ensures ParsePort(PortTree(p), at) == Ok(p)
  {
    hide Get, Build, UnknownKey;
    var slots := PortSlots(p);
    BuildGet(slots, 0);
    BuildGet(slots, 1);
    BuildGet(slots, 2);
    BuildKnown(slots, {"container", "host", "protocol"});
  }

  lemma PathReadsBack(path: string, at: Path)
    requires CanonicalPath(path)
    ensures ParsePath(Text(path), at) == Ok(path)
  {
    CleanAbsoluteIff(path);
  }

  lemma ImageReadsBack(t: Template, always: bool)
    requires CanonicalImage(t.image)
    ensures ParseImage(Build(SpecSlots(t, always))) == Ok(t.image)
  {
    hide Get, Build, UnknownKey, CanonicalPackages, Packages, Nodes, EnvTree;
    var slots := SpecSlots(t, always);
    BuildGet(slots, 0);
    BuildGet(slots, 1);
    if t.image.Recipe? {
      var recipe := RecipeSlots(t.image.base, t.image.packages);
      BuildGet(recipe, 0);
      BuildGet(recipe, 1);
      BuildKnown(recipe, {"base", "packages"});
      CanonicalPackagesStay(t.image.base, t.image.packages);
    }
  }

  lemma {:induction false} PutNew(r: CC.Record, key: string, value: string)
    requires forall e :: e in r ==> e.key != key
    ensures Put(r, key, value) == r + [CC.Entry(key, value)]
  {
    if r != [] {
      PutNew(r[1..], key, value);
      assert r == [r[0]] + r[1..];
    }
  }

  lemma {:induction false} FieldsReadBack(r: CC.Record, at: Path, value: (Option<Node>, Path) -> Result<string>,
                                          sofar: CC.Record)
    requires CC.IsRecord(sofar + r)
    requires forall e :: e in r ==> ValidEnvKey(e.key) && e.key != "__proto__"
    requires forall e, where: Path :: e in r ==> value(Some(Text(e.value)), where) == Ok(e.value)
    ensures ReadFields(EnvFields(r), at, value, sofar) == Ok(sofar + r)
    decreases |r|
  {
    hide ValidEnvKey;
    if r == [] {
      assert sofar + r == sofar;
    } else {
      var fields := EnvFields(r);
      assert fields[1..] == EnvFields(r[1..]);
      forall e | e in sofar ensures e.key != r[0].key {
        var i :| 0 <= i < |sofar| && sofar[i] == e;
        assert (sofar + r)[i] == e && (sofar + r)[|sofar|] == r[0];
      }
      PutNew(sofar, r[0].key, r[0].value);
      assert sofar + [r[0]] + r[1..] == sofar + r;
      assert CC.Entry(r[0].key, r[0].value) == r[0];
      FieldsReadBack(r[1..], at, value, sofar + [r[0]]);
    }
  }

  lemma {:induction false} FilterAll<T>(s: seq<T>, p: T -> bool)
    requires forall x :: x in s ==> p(x)
    ensures Filter(s, p) == s
  {
    if s != [] {
      FilterAll(s[1..], p);
      assert s == [s[0]] + s[1..];
    }
  }

  lemma EnvReadsBack(r: CC.Record, at: Path, group: Option<Node>)
    requires CanonicalEnv(r)
    requires group == Some(EnvTree(r)) || (group == None && r == [])
    ensures StringMap(group, at, EnvValue) == Ok(r) && WithoutGitIdentity(r) == r
  {
    hide ValidEnvKey;
    assert [] + r == r;
    FieldsReadBack(r, at, EnvValue, []);
    FilterAll(r, (e: CC.Entry) => e.key !in GIT_IDENTITY_KEYS);
  }

  lemma SecretEnvReadsBack(r: CC.Record, at: Path, group: Option<Node>)
    requires CanonicalSecretEnv(r)
    requires group == Some(EnvTree(r)) || (group == None && r == [])
    ensures StringMap(group, at, SecretName) == Ok(r) && WithoutGitIdentity(r) == r
  {
    assert [] + r == r;
    forall e, where: Path | e in r ensures SecretName(Some(Text(e.value)), where) == Ok(e.value) {
      SecretReadsBack(e.value, where);
    }
    hide ValidEnvKey, ValidSecretName, SecretName;
    FieldsReadBack(r, at, SecretName, []);
    FilterAll(r, (e: CC.Entry) => e.key !in GIT_IDENTITY_KEYS);
  }

  lemma GroupsReadBack(t: Template, always: bool)
    requires Canonical(t)
    ensures ValidateLists(Build(SpecSlots(t, always)), t.image, t.env, t.secretEnv) == Ok(t)
  {
    hide Get, Build, EnvTree, ParseMount, ParsePath, ParsePort, MountTree, PortTree, CanonicalMount,
         CanonicalPath, CanonicalPort, CanonicalImage, CanonicalEnv, CanonicalSecretEnv, Clashes, ParseItems, Nodes;
    var slots := SpecSlots(t, always);
    BuildGet(slots, 4);
    BuildGet(slots, 5);
    BuildGet(slots, 6);
    forall m, where: Path | m in t.mounts ensures ParseMount(MountTree(m), where) == Ok(m) {
      MountReadsBack(m, where);
    }
    forall path, where: Path | path in t.paths ensures ParsePath(TextNode(path), where) == Ok(path) {
      PathReadsBack(path, where);
    }
    forall p, where: Path | p in t.ports ensures ParsePort(PortTree(p), where) == Ok(p) {
      PortReadsBack(p, where);
    }
    ParseNodes(t.mounts, MountTree, [Name("spec"), Name("mounts")], 0, ParseMount);
    ParseNodes(t.paths, TextNode, [Name("spec"), Name("paths")], 0, ParsePath);
    ParseNodes(t.ports, PortTree, [Name("spec"), Name("ports")], 0, ParsePort);
  }

  // A secret variable named like a member of every object.
  predicate InheritedName(r: CC.Record) {
    exists e :: e in r && e.key in CC.INHERITED
  }

  lemma DocumentReadsBack(t: Template, always: bool)
    requires Canonical(t)
    ensures Validate(Document(t, always)) ==
            if !always && t.env == [] && InheritedName(t.secretEnv) then Err([Name("spec")]) else Ok(t)
  {
    hide Get, Build, UnknownKey, EnvTree, Nodes, StringMap, ParseImage, ValidateLists, WithoutGitIdentity,
         CanonicalImage, CanonicalEnv, CanonicalSecretEnv;
    var slots, spec := DocumentSlots(t, always), SpecSlots(t, always);
    BuildGet(slots, 0);
    BuildGet(slots, 1);
    BuildGet(slots, 2);
    BuildKnown(slots, {"version", "kind", "spec"});
    BuildGet(spec, 2);
    BuildGet(spec, 3);
    BuildKnown(spec, SPEC_KEYS);
    ImageReadsBack(t, always);
    EnvReadsBack(t.env, [Name("spec"), Name("env")], Get(Build(spec), "env"));
    SecretEnvReadsBack(t.secretEnv, [Name("spec"), Name("secretEnv")], Get(Build(spec), "secretEnv"));
    GroupsReadBack(t, always);
    EmptyEnvClashes(t.secretEnv);
  }

  lemma EmptyEnvClashes(secretEnv: CC.Record)
    ensures Clashes(secretEnv, [], true) <==> InheritedName(secretEnv)
  {
  }

  // Validation is a fixpoint: the object it returned is accepted unchanged.
  lemma ValidationIsFixpoint(raw: Node)
    requires Validate(raw).Ok?
    ensures Validate(ObjectTree(Validate(raw).value)) == Validate(raw)
  {
    hide Validate, Canonical, Document;
    ValidatedIsCanonical(raw);
    DocumentReadsBack(Validate(raw).value, true);
  }

  // ----- Rendering -----

  lemma KeyListed(r: CC.Record, key: string)
    ensures key in Keys(r) <==> CC.Named(r, key)
  {
    if key in Keys(r) {
      var i :| 0 <= i < |Keys(r)| && Keys(r)[i] == key;
      assert r[i] in r;
    }
    if e :| e in r && e.key == key {
      var i :| 0 <= i < |r| && r[i] == e;
      assert Keys(r)[i] == key;
    }
  }

  lemma KeysOfRecord(r: CC.Record)
    requires CC.IsRecord(r)
    ensures Elements(Keys(r)) == CC.AsMap(r).Keys
  {
    hide CC.AsMap, Keys;
    forall key ensures key in Elements(Keys(r)) <==> key in CC.AsMap(r) {
      KeyListed(r, key);
      CC.HoldsAt(r, key);
    }
  }

  lemma SameEntries(a: CC.Record, b: CC.Record)
    requires CC.IsRecord(a) && CC.IsRecord(b) && forall e :: e in a <==> e in b
    ensures CC.AsMap(a) == CC.AsMap(b)
  {
    hide CC.AsMap, CC.IsRecord;
    forall key: string
      ensures key in CC.AsMap(a) <==> key in CC.AsMap(b)
      ensures key in CC.AsMap(a) ==> CC.AsMap(a)[key] == CC.AsMap(b)[key]
    {
      CC.HoldsAt(a, key);
      CC.HoldsAt(b, key);
      if e :| e in a && e.key == key {
        assert CC.AsMap(a)[key] == e.value && CC.AsMap(b)[key] == e.value;
      }
    }
  }

  // An entry of the sorted list is the record's.
  lemma SortedEntry(r: CC.Record, i: nat)
    requires CC.IsRecord(r) && i < |SortedEnv(r)|
    ensures SortedEnv(r)[i] in r && SortedEnv(r)[i].key == SortUnique(Keys(r))[i]
  {
    hide CC.AsMap, Keys;
    var key := SortUnique(Keys(r))[i];
    SortUniqueSorts(Keys(r));
    assert key in Elements(SortUnique(Keys(r)));
    KeyListed(r, key);
    CC.HoldsAt(r, key);
    var e :| e in r && e.key == key;
    assert SortedEnv(r)[i] == e;
  }

  lemma EntrySorted(r: CC.Record, e: CC.Entry)
    requires CC.IsRecord(r) && e in r
    ensures e in SortedEnv(r)
  {
    hide CC.AsMap, Keys;
    SortUniqueSorts(Keys(r));
    KeyListed(r, e.key);
    CC.HoldsAt(r, e.key);
    assert e.key in Elements(SortUnique(Keys(r)));
    var i :| 0 <= i < |SortUnique(Keys(r))| && SortUnique(Keys(r))[i] == e.key;
    assert SortedEnv(r)[i] == e;
  }

  // Sorting the variables keeps them.
  lemma SortedEnvIs(r: CC.Record)
    requires CC.IsRecord(r)
    ensures CC.IsRecord(SortedEnv(r)) && CC.AsMap(SortedEnv(r)) == CC.AsMap(r)
    ensures forall e :: e in SortedEnv(r) <==> e in r
    ensures Increasing(Keys(SortedEnv(r)))
  {
    var keys, s := SortUnique(Keys(r)), SortedEnv(r);
    SortUniqueSorts(Keys(r));
    forall i | 0 <= i < |s| ensures s[i] in r && s[i].key == keys[i] {
      SortedEntry(r, i);
    }
    assert Keys(s) == keys;
    hide CC.AsMap, SortedEnv, Keys;
    forall i, j | 0 <= i < j < |s| ensures s[i].key != s[j].key {
      BelowAsymmetric(keys[i], keys[j]);
    }
    forall e | e in r ensures e in s {
      EntrySorted(r, e);
    }
    SameEntries(s, r);
  }

  lemma SortedEnvCompares(a: CC.Record, b: CC.Record)
    requires CC.IsRecord(a) && CC.IsRecord(b)
    ensures SortedEnv(a) == SortedEnv(b) <==> CC.AsMap(a) == CC.AsMap(b)
  {
    SortedEnvIs(a);
    SortedEnvIs(b);
    KeysOfRecord(a);
    KeysOfRecord(b);
    if CC.AsMap(a) == CC.AsMap(b) {
      SortIsCanonical(Keys(a), Keys(b));
      hide CC.AsMap;
      assert |SortedEnv(a)| == |SortedEnv(b)|;
      forall i | 0 <= i < |SortedEnv(a)| ensures SortedEnv(a)[i] == SortedEnv(b)[i] {
      }
    }
  }

  lemma ArrangedIsCanonical(t: Template, mainProject: string)
    requires Canonical(t)
    ensures Canonical(Arranged(t, mainProject))
    ensures (Arranged(t, mainProject).env == [] <==> t.env == [])
    ensures InheritedName(Arranged(t, mainProject).secretEnv) <==> InheritedName(t.secretEnv)
  {
    hide VariableName, ValidSecretName, CanonicalMount, CanonicalPath, CanonicalPort, CanonicalImage, Ordered, CC.AsMap;
    var a := Arranged(t, mainProject);
    SortedEnvIs(t.env);
    SortedEnvIs(t.secretEnv);
    hide SortedEnv;
    OrderedIsStable(t.mounts, mainProject, 0);
    forall m | m in a.mounts ensures m in t.mounts {
      assert m in multiset(a.mounts);
    }
    if t.env != [] { assert t.env[0] in a.env; }
    if a.env != [] { assert a.env[0] in t.env; }
  }

  // Reading a rendered template gives it back, its variables sorted and its mounts
  // in list order, unless it has no plain variable and a secret one named like a
  // member of every object: the group left out is read as a plain object, and that
  // name is then found in it.
  lemma RenderingReadsBack(t: Template, mainProject: string)
    requires Canonical(t)
    ensures Validate(Rendered(t, mainProject)) == Ok(Arranged(t, mainProject)) <==>
            !(t.env == [] && InheritedName(t.secretEnv))
    ensures Validate(Rendered(t, mainProject)).Ok? <==> !(t.env == [] && InheritedName(t.secretEnv))
  {
    hide Validate, Canonical, Document, Arranged, InheritedName;
    ArrangedIsCanonical(t, mainProject);
    DocumentReadsBack(Arranged(t, mainProject), false);
  }

  // It does happen.
  lemma InheritedNameIsRefused()
    ensures var t := Template(Base("alpine"), [], [CC.Entry("toString", "token")], [], [], []);
            Canonical(t) && Validate(ObjectTree(t)) == Ok(t) && Validate(Rendered(t, "")) == Err([Name("spec")])
  {
    var t := Template(Base("alpine"), [], [CC.Entry("toString", "token")], [], [], []);
    var a := Arranged(t, "");
    assert t.secretEnv[0] == CC.Entry("toString", "token");
    assert InheritedName(t.secretEnv);
    hide Validate, Document, Arranged, InheritedName;
    DocumentReadsBack(t, true);
    ArrangedIsCanonical(t, "");
    DocumentReadsBack(a, false);
  }

  // Rendering what was read back gives the same document.
  lemma RenderingIsIdempotent(t: Template, mainProject: string)
    requires Canonical(t)
    ensures Arranged(Arranged(t, mainProject), mainProject) == Arranged(t, mainProject)
    ensures Rendered(Arranged(t, mainProject), mainProject) == Rendered(t, mainProject)
  {
    hide Document, Ordered;
    OrderedIsIdempotent(t.mounts, mainProject);
    SortedEnvIs(t.env);
    SortedEnvIs(t.secretEnv);
    SortedEnvCompares(SortedEnv(t.env), t.env);
    SortedEnvCompares(SortedEnv(t.secretEnv), t.secretEnv);
  }

  // What the document says, whatever order its parts were in.
  ghost predicate SameTemplate(a: Template, b: Template, mainProject: string) {
    && a.image == b.image && a.paths == b.paths && a.ports == b.ports
    && CC.AsMap(a.env) == CC.AsMap(b.env) && CC.AsMap(a.secretEnv) == CC.AsMap(b.secretEnv)
    && forall rank: nat :: OfRank(a.mounts, rank, mainProject) == OfRank(b.mounts, rank, mainProject)
  }

  lemma OrderedCompares(a: seq<Mount>, b: seq<Mount>, mainProject: string)
    ensures Ordered(a, mainProject) == Ordered(b, mainProject) <==>
            forall rank: nat :: OfRank(a, rank, mainProject) == OfRank(b, rank, mainProject)
  {
    hide OfRank, Ordered;
    forall rank: nat
      ensures OfRank(Ordered(a, mainProject), rank, mainProject) == OfRank(a, rank, mainProject)
      ensures OfRank(Ordered(b, mainProject), rank, mainProject) == OfRank(b, rank, mainProject)
    {
      OrderedIsStable(a, mainProject, rank);
      OrderedIsStable(b, mainProject, rank);
    }
    OrderedIsStable(a, mainProject, 0);
    OrderedIsStable(b, mainProject, 0);
    if forall rank: nat :: OfRank(a, rank, mainProject) == OfRank(b, rank, mainProject) {
      forall rank: nat
        ensures OfRank(Ordered(a, mainProject), rank, mainProject) == OfRank(Ordered(b, mainProject), rank, mainProject)
      {
        assert OfRank(a, rank, mainProject) == OfRank(b, rank, mainProject);
      }
      OneStableOrder(Ordered(a, mainProject), Ordered(b, mainProject), mainProject);
    }
  }

  // The rendering is canonical: two templates are written alike exactly when they
  // are the same up to the order of variables and of mounts of different kinds.
  lemma RenderingIsCanonical(a: Template, b: Template, mainProject: string)
    requires Canonical(a) && Canonical(b)
    requires !(a.env == [] && InheritedName(a.secretEnv)) && !(b.env == [] && InheritedName(b.secretEnv))
    ensures Rendered(a, mainProject) == Rendered(b, mainProject) <==> SameTemplate(a, b, mainProject)
  {
    hide Validate, Document, Ordered, OfRank, SortedEnv, InheritedName;
    RenderingReadsBack(a, mainProject);
    RenderingReadsBack(b, mainProject);
    OrderedCompares(a.mounts, b.mounts, mainProject);
    SortedEnvCompares(a.env, b.env);
    SortedEnvCompares(a.secretEnv, b.secretEnv);
  }

  // ----- What is written -----

  ghost function Shown(key: string, empty: bool, node: Node): seq<Field> {
    if empty then [] else [Field(key, node)]
  }

  // The group that names the image.
  ghost function ImageField(image: Image): seq<Field> {
    match image
    case Base(base) => [Field("image", Text(base))]
    case Recipe(base, packages) =>
      [Field("imageTemplate", Mapping([
         Field("base", Text(base)), Field("packages", Listing(Nodes(packages, (name: string) => Text(name))))]))]
  }

  lemma BuildCons(slot: Slot, rest: seq<Slot>)
    ensures Build([slot] + rest) == (if slot.node.Some? then [Field(slot.key, slot.node.value)] else []) + Build(rest)
  {
    assert ([slot] + rest)[1..] == rest;
  }

  // A slot's field, if it holds something.
  ghost function FieldOf(slot: Slot): seq<Field> {
    if slot.node.Some? then [Field(slot.key, slot.node.value)] else []
  }

  lemma BuildAt(slots: seq<Slot>, i: nat)
    requires i < |slots|
    ensures Build(slots[i..]) == FieldOf(slots[i]) + Build(slots[i + 1..])
  {
    BuildCons(slots[i], slots[i + 1..]);
    assert [slots[i]] + slots[i + 1..] == slots[i..];
  }

  lemma BuildTwo(s: seq<Slot>)
    requires |s| == 2
    ensures Build(s) == FieldOf(s[0]) + FieldOf(s[1])
  {
    BuildAt(s, 0);
    BuildAt(s, 1);
    BuildNothing();
    assert s[0..] == s && s[2..] == [];
    hide Build, FieldOf;
    assert FieldOf(s[1]) + [] == FieldOf(s[1]);
  }

  lemma BuildFirst(s: seq<Slot>)
    requires s != []
    ensures Build(s) == FieldOf(s[0]) + Build(s[1..])
  {
    BuildAt(s, 0);
    assert s[0..] == s;
  }

  lemma BuildThree(s: seq<Slot>)
    requires |s| == 3
    ensures Build(s) == FieldOf(s[0]) + (FieldOf(s[1]) + FieldOf(s[2]))
  {
    hide Build, FieldOf;
    BuildFirst(s);
    BuildTwo(s[1..]);
  }

  lemma BuildFour(s: seq<Slot>)
    requires |s| == 4
    ensures Build(s) == FieldOf(s[0]) + (FieldOf(s[1]) + (FieldOf(s[2]) + FieldOf(s[3])))
  {
    hide Build, FieldOf;
    BuildFirst(s);
    BuildThree(s[1..]);
  }

  lemma BuildSeven(s: seq<Slot>)
    requires |s| == 7
    ensures Build(s) == FieldOf(s[0]) + (FieldOf(s[1]) + (FieldOf(s[2]) + (FieldOf(s[3])
                        + (FieldOf(s[4]) + (FieldOf(s[5]) + FieldOf(s[6]))))))
  {
    hide Build, FieldOf;
    BuildFirst(s);
    BuildFirst(s[1..]);
    BuildFirst(s[2..]);
    BuildFour(s[3..]);
    assert s[1..][1..] == s[2..] && s[2..][1..] == s[3..];
  }

  // Each mount is written with the fields of its kind, in this order.
  lemma MountTreeIs(m: Mount)
    ensures MountTree(m) == Mapping(
              match m
              case ProjectMount(project, mode) =>
                [Field("kind", Text("project")), Field("project", Text(project)),
                 Field("mode", Text(if mode == ReadOnly then "read_only" else "read_write"))]
              case VolumeMount(volume, destination, mode) =>
                [Field("kind", Text("volume")), Field("volume", Text(volume)), Field("destination", Text(destination)),
                 Field("mode", Text(if mode == ReadOnly then "read_only" else "read_write"))]
              case SecretMount(secret, destination) =>
                [Field("kind", Text("secret")), Field("secret", Text(secret)), Field("destination", Text(destination))]
              case TmpfsMount(destination) => [Field("kind", Text("tmpfs")), Field("destination", Text(destination))])
  {
    hide Build;
    match m
    case ProjectMount(_, _) => BuildThree(MountSlots(m));
    case VolumeMount(_, _, _) => BuildFour(MountSlots(m));
    case SecretMount(_, _) => BuildThree(MountSlots(m));
    case TmpfsMount(_) => BuildTwo(MountSlots(m));
  }

  lemma BuildNothing()
    ensures Build([]) == []
  {
  }

  lemma PortTreeIs(p: Port)
    ensures PortTree(p) == Mapping(
              [Field("container", Integer(p.container))]
              + (if p.host.None? then [] else [Field("host", Integer(p.host.value))])
              + [Field("protocol", Text("tcp"))])
  {
    BuildThree(PortSlots(p));
    hide Build;
  }

  // The document that is written: its groups in this order, those without an entry left
  // out, variables sorted by name and mounts by kind.
  lemma RenderedIs(t: Template, mainProject: string)
    ensures var a := Arranged(t, mainProject);
            Rendered(t, mainProject) == Mapping([
              Field("version", Integer(1)), Field("kind", Text("dsh-podman/container-template")),
              Field("spec", Mapping(
                ImageField(t.image)
                + (Shown("env", a.env == [], Mapping(EnvFields(a.env)))
                + (Shown("secretEnv", a.secretEnv == [], Mapping(EnvFields(a.secretEnv)))
                + (Shown("mounts", a.mounts == [], Listing(Nodes(a.mounts, MountTree)))
                + (Shown("paths", t.paths == [], Listing(Nodes(t.paths, TextNode)))
                + Shown("ports", t.ports == [], Listing(Nodes(t.ports, PortTree)))))))))])
  {
    var a := Arranged(t, mainProject);
    DocumentIs(a);
    SpecIs(a);
    hide Document, Build, SortedEnv, Ordered, EnvFields, Nodes;
  }

  lemma DocumentIs(a: Template)
    ensures Document(a, false) == Mapping([
              Field("version", Integer(1)), Field("kind", Text("dsh-podman/container-template")),
              Field("spec", Mapping(Build(SpecSlots(a, false))))])
  {
    BuildThree(DocumentSlots(a, false));
    hide Build, SpecSlots;
  }

  lemma SpecIs(a: Template)
    ensures Build(SpecSlots(a, false)) ==
            ImageField(a.image)
            + (Shown("env", a.env == [], Mapping(EnvFields(a.env)))
            + (Shown("secretEnv", a.secretEnv == [], Mapping(EnvFields(a.secretEnv)))
            + (Shown("mounts", a.mounts == [], Listing(Nodes(a.mounts, MountTree)))
            + (Shown("paths", a.paths == [], Listing(Nodes(a.paths, TextNode)))
            + Shown("ports", a.ports == [], Listing(Nodes(a.ports, PortTree)))))))
  {
    var s := SpecSlots(a, false);
    BuildSeven(s);
    hide Build, EnvFields, Nodes, RecipeSlots;
    assert FieldOf(s[0]) + (FieldOf(s[1]) + []) == ImageField(a.image) by {
      RecipeIs(a.image.base, if a.image.Recipe? then a.image.packages else []);
    }
    assert FieldOf(s[2]) == Shown("env", a.env == [], Mapping(EnvFields(a.env)));
    assert FieldOf(s[3]) == Shown("secretEnv", a.secretEnv == [], Mapping(EnvFields(a.secretEnv)));
    assert FieldOf(s[4]) == Shown("mounts", a.mounts == [], Listing(Nodes(a.mounts, MountTree)));
    assert FieldOf(s[5]) == Shown("paths", a.paths == [], Listing(Nodes(a.paths, TextNode)));
    assert FieldOf(s[6]) == Shown("ports", a.ports == [], Listing(Nodes(a.ports, PortTree)));
    hide SpecSlots, FieldOf, Shown, ImageField;
    Regroup(FieldOf(s[0]), FieldOf(s[1]),
            FieldOf(s[2]) + (FieldOf(s[3]) + (FieldOf(s[4]) + (FieldOf(s[5]) + FieldOf(s[6])))));
  }

  lemma Regroup<T>(a: seq<T>, b: seq<T>, c: seq<T>)
    ensures a + (b + c) == (a + (b + [])) + c
  {
  }

  lemma RecipeIs(base: string, packages: seq<string>)
    ensures Build(RecipeSlots(base, packages)) ==
            [Field("base", Text(base)), Field("packages", Listing(Nodes(packages, (name: string) => Text(name))))]
  {
    BuildTwo(RecipeSlots(base, packages));
    hide Build, Nodes;
  }
}
