// Where a refused template breaks a rule (src/container-template.ts): the place a refusal
// names is one that does.
module TemplateErrors {
  import opened Options
  import opened Sequences
  import opened Documents
  import opened TemplateFormat
  import opened MountOrder
  import opened Templates
  import opened TemplateMeaning
  import CC = ContainerConfig

  // ----- Broken rules, place by place -----

  predicate Unlisted(fields: seq<Field>, keys: set<string>, k: string) {
    k !in keys && k != "__proto__" && Get(fields, k) != None
  }

  ghost predicate MountBroken(fields: seq<Field>, k: string) {
    match Get(fields, "kind")
    case Some(Text(kind)) =>
      if kind == "project" then
        || Unlisted(fields, {"kind", "project", "mode"}, k)
        || (k == "project" && !exists s, project :: Get(fields, k) == Some(Text(s)) && NamesProject(s, project))
        || (k == "mode" && BadMode(fields))
      else if kind == "volume" then
        || Unlisted(fields, {"kind", "volume", "destination", "mode"}, k)
        || (k == "destination" && BadDestination(fields)) || (k == "volume" && BadSecret(fields, k))
        || (k == "mode" && BadMode(fields))
      else if kind == "secret" then
        || Unlisted(fields, {"kind", "secret", "destination"}, k)
        || (k == "destination" && BadDestination(fields)) || (k == "secret" && BadSecret(fields, k))
      else if kind == "tmpfs" then
        Unlisted(fields, {"kind", "destination"}, k) || (k == "destination" && BadDestination(fields))
      else k == "kind"
    case _ => k == "kind"
  }

  ghost predicate BadMode(fields: seq<Field>) {
    forall mode :: !DescribesMode(Get(fields, "mode"), mode)
  }

  ghost predicate BadDestination(fields: seq<Field>) {
    forall destination :: !(Destination(fields, destination) && IsCleanPath(destination))
  }

  ghost predicate BadSecret(fields: seq<Field>, k: string) {
    forall name :: !(Get(fields, k) == Some(Text(name)) && IsSecret(name))
  }

  predicate PortBroken(fields: seq<Field>, k: string) {
    || Unlisted(fields, {"container", "host", "protocol"}, k)
    || (k == "container" && !InRange(Get(fields, k), 1))
    || (k == "protocol" && Get(fields, k) != Some(Text("tcp")))
    || (k == "host" && Get(fields, k) != None && !InRange(Get(fields, k), 1024))
  }

  predicate InRange(node: Option<Node>, low: int) {
    match node case Some(Integer(n)) => low <= n < 0x1_0000 case _ => false
  }

  ghost predicate RecipeBroken(fields: seq<Field>, k: string) {
    || Unlisted(fields, {"base", "packages"}, k)
    || (k == "base" && BadBase(Get(fields, k)))
    || (k == "packages" && BadPackages(Get(fields, k)))
  }

  ghost predicate BadBase(node: Option<Node>) {
    forall base :: !(node == Some(Text(base)) && IsBase(base))
  }

  ghost predicate BadPackages(node: Option<Node>) {
    match node
    case Some(Listing(items)) => exists i :: 0 <= i < |items| && !(items[i].Text? && IsPackage(items[i].text))
    case _ => true
  }

  ghost predicate VariableBroken(node: Option<Node>, k: string, allowed: string -> bool) {
    match node
    case Some(Mapping(fields)) =>
      exists i :: 0 <= i < |fields| && fields[i].key == k && k != "__proto__" &&
                  !(IsVariable(k) && fields[i].node.Text? && allowed(fields[i].node.text))
    case _ => false
  }

  ghost predicate HasVariable(node: Option<Node>, k: string) {
    match node case Some(Mapping(fields)) => HasKey(fields, k) case _ => false
  }

  // A variable that is given a value and a secret.
  ghost predicate BothWays(spec: seq<Field>, k: string) {
    !IsIdentity(k) && HasVariable(Get(spec, "secretEnv"), k) &&
    (HasVariable(Get(spec, "env"), k) || (Get(spec, "env") == None && k in CC.INHERITED))
  }

  ghost predicate ListItem(node: Option<Node>, step: Step, item: Node) {
    match node
    case Some(Listing(items)) => step.Index? && step.index < |items| && items[step.index] == item
    case _ => false
  }

  // A rule broken inside the spec, at a place below it.
  ghost predicate PartBroken(spec: seq<Field>, at: Path) {
    at != [] && at[0].Name? &&
    var k, node := at[0].name, Get(spec, at[0].name);
    if |at| == 1 then
      || Unlisted(spec, {"image", "imageTemplate", "env", "secretEnv", "mounts", "paths", "ports"}, k)
      || (k == "image" && Given(node) && BadBase(node))
      || (k == "imageTemplate" && Given(node) && !node.value.Mapping?)
      || ((k == "env" || k == "secretEnv") && node.Some? && !node.value.Mapping?)
      || ((k == "mounts" || k == "paths" || k == "ports") && node.Some? && !node.value.Listing?)
    else if |at| == 2 then
      || (k == "imageTemplate" && node.Some? && node.value.Mapping? && at[1].Name? && RecipeBroken(node.value.fields, at[1].name))
      || (k == "env" && at[1].Name? && VariableBroken(node, at[1].name, NoNul))
      || (k == "secretEnv" && at[1].Name? && VariableBroken(node, at[1].name, IsSecret))
      || ((k == "mounts" || k == "ports") && exists item :: ListItem(node, at[1], item) && !item.Mapping?)
      || (k == "paths" && exists item :: ListItem(node, at[1], item) && forall path :: !DescribesPath(item, path))
    else
      |at| == 3 && at[2].Name? &&
      exists item :: ListItem(node, at[1], item) && item.Mapping? &&
        ((k == "mounts" && MountBroken(item.fields, at[2].name)) || (k == "ports" && PortBroken(item.fields, at[2].name)))
  }

  // A rule broken at a place of the document. A variable whose name holds "=" is
  // reported without one.
  ghost predicate Broken(raw: Node, at: Path) {
    if !raw.Mapping? then at == []
    else if at == [] then
      exists spec, k :: Get(raw.fields, "spec") == Some(Mapping(spec)) && '=' in k &&
                        (HasVariable(Get(spec, "env"), k) || HasVariable(Get(spec, "secretEnv"), k))
    else if |at| == 1 then
      at[0].Name? &&
      var k, node := at[0].name, Get(raw.fields, at[0].name);
      || Unlisted(raw.fields, {"version", "kind", "spec"}, k)
      || (k == "version" && node != Some(Integer(1)))
      || (k == "kind" && node != Some(Text("dsh-podman/container-template")))
      || (k == "spec" && (node == None || !node.value.Mapping?))
      || (k == "spec" && node.Some? && node.value.Mapping? &&
          (|| Given(Get(node.value.fields, "image")) == Given(Get(node.value.fields, "imageTemplate"))
           || exists v :: BothWays(node.value.fields, v)))
    else
      at[0] == Name("spec") &&
      exists spec :: Get(raw.fields, "spec") == Some(Mapping(spec)) && PartBroken(spec, at[1..])
  }

  // ----- Keys and items -----

  lemma {:induction false} UnknownIsExtra(fields: seq<Field>, keys: set<string>)
    ensures UnknownKey(fields, keys).Some? ==> Unlisted(fields, keys, UnknownKey(fields, keys).value)
  {
    if fields != [] {
      UnknownIsExtra(fields[1..], keys);
    }
  }

  lemma {:induction false} PresentIsThere(fields: seq<Field>, keys: seq<string>)
    ensures var r := FirstPresent(fields, keys); r.Some? ==> r.value in keys && Get(fields, r.value) != None
  {
    if keys != [] {
      PresentIsThere(fields, keys[1..]);
    }
  }

  lemma {:induction false} ItemsBlame<T>(items: seq<Node>, at: Path, index: nat, parse: (Node, Path) -> Result<T>)
    returns (i: nat)
    requires ParseItems(items, at, index, parse).Err?
    ensures i < |items| && parse(items[i], at + [Index(index + i)]) == Err(ParseItems(items, at, index, parse).at)
    decreases |items|
  {
    if parse(items[0], at + [Index(index)]).Err? {
      i := 0;
    } else {
      var j := ItemsBlame(items[1..], at, index + 1, parse);
      i := j + 1;
    }
  }

  lemma {:induction false} FieldsBlame(fields: seq<Field>, at: Path, value: (Option<Node>, Path) -> Result<string>,
                                       sofar: CC.Record) returns (i: nat)
    requires ReadFields(fields, at, value, sofar).Err?
    ensures i < |fields| && fields[i].key != "__proto__"
    ensures var f, err := fields[i], ReadFields(fields, at, value, sofar).at;
            if ValidEnvKey(f.key) then value(Some(f.node), at + [Name(f.key)]) == Err(err)
            else err == if f.key != "" && '=' in f.key then [] else at + [Name(f.key)]
    decreases |fields|
  {
    hide ValidEnvKey;
    var f := fields[0];
    if f.key == "__proto__" {
      var j := FieldsBlame(fields[1..], at, value, sofar);
      i := j + 1;
    } else if ValidEnvKey(f.key) && value(Some(f.node), at + [Name(f.key)]).Ok? {
      var j := FieldsBlame(fields[1..], at, value, Put(sofar, f.key, value(Some(f.node), at + [Name(f.key)]).value));
      i := j + 1;
    } else {
      i := 0;
    }
  }

  // ----- Mounts and ports -----

  lemma ModeBlames(fields: seq<Field>, at: Path)
    ensures ParseMode(Get(fields, "mode"), at).Err? ==> ParseMode(Get(fields, "mode"), at) == Err(at) && BadMode(fields)
  {
  }

  lemma SecretBlames(fields: seq<Field>, k: string, at: Path)
    ensures SecretName(Get(fields, k), at).Err? ==> SecretName(Get(fields, k), at) == Err(at) && BadSecret(fields, k)
  {
    forall name ensures SecretName(Get(fields, k), at) == Ok(name) <==> Get(fields, k) == Some(Text(name)) && IsSecret(name) {
      SecretNameIff(Get(fields, k), at, name);
    }
    hide ValidSecretName, IsSecret;
  }

  lemma DestinationBlames(fields: seq<Field>)
    ensures CleanPathOf(Get(fields, "destination")) == None ==> BadDestination(fields)
  {
    forall destination
      ensures CleanPathOf(Get(fields, "destination")) == Some(destination) <==>
              Destination(fields, destination) && IsCleanPath(destination)
    {
      DestinationIff(fields, destination);
    }
    hide CleanPathOf, Destination, IsCleanPath;
  }

  lemma MountOfBlames(kind: string, fields: seq<Field>, at: Path) returns (k: string)
    requires Get(fields, "kind") == Some(Text(kind)) && kind in MOUNT_KINDS
    requires ParseMountOf(kind, fields, at).Err?
    ensures ParseMountOf(kind, fields, at) == Err(at + [Name(k)]) && MountBroken(fields, k)
  {
    ModeBlames(fields, at + [Name("mode")]);
    SecretBlames(fields, "secret", at + [Name("secret")]);
    SecretBlames(fields, "volume", at + [Name("volume")]);
    DestinationBlames(fields);
    forall s, project ensures ProjectPathOf(s) == Some(project) <==> NamesProject(s, project) { ProjectIff(s, project); }
    assert kind == "project" || kind == "volume" || kind == "secret" || kind == "tmpfs";
    hide Get, BadMode, BadSecret, BadDestination, ParseMode, SecretName, CleanPathOf, NamesProject, ProjectPathOf, Unlisted;
    var project := match Get(fields, "project") case Some(Text(text)) => ProjectPathOf(text) case _ => None;
    if kind == "project" {
      k := if project.None? then "project" else "mode";
    } else if CleanPathOf(Get(fields, "destination")).None? {
      k := "destination";
    } else if kind == "secret" {
      k := "secret";
    } else {
      k := if SecretName(Get(fields, "volume"), at + [Name("volume")]).Err? then "volume" else "mode";
    }
  }

  lemma MountBlames(fields: seq<Field>, at: Path) returns (k: string)
    requires ParseMount(Mapping(fields), at).Err?
    ensures ParseMount(Mapping(fields), at) == Err(at + [Name(k)]) && MountBroken(fields, k)
  {
    var kind := Get(fields, "kind");
    if kind.None? || !kind.value.Text? || kind.value.text !in MOUNT_KINDS {
      k := "kind";
      assert "" !in MOUNT_KINDS;
      NoKind(fields);
      hide Get, FirstPresent, UnknownKey, ParseMountOf, MOUNT_KINDS, MountBroken;
    } else {
      var name := kind.value.text;
      assert name != "";
      k := KindBlames(name, fields, at);
    }
  }

  lemma NoKind(fields: seq<Field>)
    requires var kind := Get(fields, "kind"); kind.None? || !kind.value.Text? || kind.value.text !in MOUNT_KINDS
    ensures MountBroken(fields, "kind")
  {
    hide Get, Unlisted, BadMode, BadSecret, BadDestination, NamesProject;
  }

  lemma KindBlames(kind: string, fields: seq<Field>, at: Path) returns (k: string)
    requires Get(fields, "kind") == Some(Text(kind)) && kind in MOUNT_KINDS && kind != ""
    requires ParseMount(Mapping(fields), at).Err?
    ensures ParseMount(Mapping(fields), at) == Err(at + [Name(k)]) && MountBroken(fields, k)
  {
    PresentIsThere(fields, ForbiddenKeys(kind));
    UnknownIsExtra(fields, MountKeys(kind));
    var forbidden, unknown := FirstPresent(fields, ForbiddenKeys(kind)), UnknownKey(fields, MountKeys(kind));
    if forbidden.Some? {
      k := forbidden.value;
      ForbiddenIsExtra(kind, fields, k);
      hide Get, MountBroken, FirstPresent, UnknownKey, ParseMountOf, MOUNT_KINDS, MountKeys, ForbiddenKeys;
    } else if unknown.Some? {
      k := unknown.value;
      ExtraBreaks(kind, fields, k);
      hide Get, MountBroken, FirstPresent, UnknownKey, ParseMountOf, MOUNT_KINDS, MountKeys, ForbiddenKeys;
    } else {
      hide Get, MountBroken, FirstPresent, UnknownKey, ParseMountOf, MOUNT_KINDS, MountKeys, ForbiddenKeys;
      k := MountOfBlames(kind, fields, at);
    }
  }

  lemma ExtraBreaks(kind: string, fields: seq<Field>, k: string)
    requires Get(fields, "kind") == Some(Text(kind)) && kind in MOUNT_KINDS && Unlisted(fields, MountKeys(kind), k)
    ensures MountBroken(fields, k)
  {
    hide Get, BadMode, BadSecret, BadDestination, NamesProject;
  }

  lemma ForbiddenIsExtra(kind: string, fields: seq<Field>, k: string)
    requires Get(fields, "kind") == Some(Text(kind)) && kind in MOUNT_KINDS
    requires k in ForbiddenKeys(kind) && Get(fields, k) != None
    ensures MountBroken(fields, k)
  {
    assert Unlisted(fields, MountKeys(kind), k) by {
      hide Get;
      assert k !in MountKeys(kind) && k != "__proto__";
    }
    ExtraBreaks(kind, fields, k);
  }

  lemma PortBlames(fields: seq<Field>, at: Path) returns (k: string)
    requires ParsePort(Mapping(fields), at).Err?
    ensures ParsePort(Mapping(fields), at) == Err(at + [Name(k)]) && PortBroken(fields, k)
  {
    var unknown := UnknownKey(fields, {"container", "host", "protocol"});
    UnknownIsExtra(fields, {"container", "host", "protocol"});
    hide Get, UnknownKey, Unlisted;
    if unknown.Some? {
      k := unknown.value;
    } else if !InRange(Get(fields, "container"), 1) {
      k := "container";
    } else if Get(fields, "protocol") != Some(Text("tcp")) {
      k := "protocol";
    } else {
      k := "host";
    }
  }

  // ----- The image -----

  // A place below the spec where a rule is broken.
  ghost predicate InSpec(spec: seq<Field>, at: Path) {
    |at| >= 2 && at[0] == Name("spec") && PartBroken(spec, at[1..])
  }

  lemma BaseBlames(node: Option<Node>, at: Path)
    ensures ParseBase(node, at).Err? ==> ParseBase(node, at) == Err(at) && BadBase(node)
  {
    forall base: string ensures IsBaseImage(base) <==> IsBase(base) { BaseIff(base); }
    hide IsBaseImage, IsBase;
  }

  lemma {:induction false} NamesBlame(items: seq<Node>)
    ensures PackageNames(items) == None ==> BadPackages(Some(Listing(items)))
  {
    NamesIff(items, "");
    hide IsPackage, PackageNames;
  }

  lemma RecipeBlames(fields: seq<Field>, at: Path) returns (k: string)
    requires ParseRecipe(Mapping(fields), at).Err?
    ensures ParseRecipe(Mapping(fields), at) == Err(at + [Name(k)]) && RecipeBroken(fields, k)
  {
    UnknownIsExtra(fields, {"base", "packages"});
    BaseBlames(Get(fields, "base"), at + [Name("base")]);
    var packages := Get(fields, "packages");
    if packages.Some? && packages.value.Listing? { NamesBlame(packages.value.items); }
    hide Get, UnknownKey, Unlisted, BadBase, PackageNames, Extra;
    if UnknownKey(fields, {"base", "packages"}).Some? {
      k := UnknownKey(fields, {"base", "packages"}).value;
    } else if ParseBase(Get(fields, "base"), at + [Name("base")]).Err? {
      k := "base";
    } else {
      k := "packages";
    }
  }

  lemma ImageBlames(spec: seq<Field>)
    requires ParseImage(spec).Err?
    ensures var err := ParseImage(spec).at;
            || (err == [Name("spec")] && Given(Get(spec, "image")) == Given(Get(spec, "imageTemplate")))
            || InSpec(spec, err)
  {
    var image, recipe := Get(spec, "image"), Get(spec, "imageTemplate");
    var err := ParseImage(spec).at;
    BaseBlames(image, [Name("spec"), Name("image")]);
    if !Present(image) && Present(recipe) && recipe.value.Mapping? {
      var k := RecipeBlames(recipe.value.fields, [Name("spec"), Name("imageTemplate")]);
      hide Get, ParseRecipe, RecipeBroken, BadBase, Unlisted;
      assert err[1..] == [Name("imageTemplate"), Name(k)];
    } else {
      hide Get, RecipeBroken, BadBase, Unlisted;
      if |err| >= 2 {
        assert err[1..] == [Name(if Present(image) then "image" else "imageTemplate")];
      }
    }
  }

  // ----- Variables -----

  ghost predicate BlamesHere(value: (Option<Node>, Path) -> Result<string>) {
    forall n: Node, w: Path :: value(Some(n), w).Err? ==> value(Some(n), w) == Err(w)
  }

  lemma EnvBlames(spec: seq<Field>, k: string, value: (Option<Node>, Path) -> Result<string>, allowed: string -> bool)
    requires (k == "env" && allowed == NoNul) || (k == "secretEnv" && allowed == IsSecret)
    requires Checks(value, allowed) && BlamesHere(value)
    requires StringMap(Get(spec, k), [Name("spec"), Name(k)], value).Err?
    ensures var err := StringMap(Get(spec, k), [Name("spec"), Name(k)], value).at;
            || InSpec(spec, err)
            || (err == [] && exists v :: '=' in v && HasVariable(Get(spec, k), v))
  {
    var node, at := Get(spec, k), [Name("spec"), Name(k)];
    var err := StringMap(node, at, value).at;
    if node.value.Mapping? {
      var fields := node.value.fields;
      assert ReadFields(fields, at, value, []) == Err(err);
      var f := FieldBlames(fields, at, value, allowed);
      hide Get, ReadFields, IsVariable, Checks, BlamesHere, StringMap, PartBroken, InSpec;
      if err == [] {
        assert HasVariable(node, f.key);
      } else {
        assert VariableBroken(node, f.key, allowed);
        VariablePlace(spec, k, f.key, allowed);
        assert err == [Name("spec"), Name(k), Name(f.key)];
      }
    } else {
      hide Get, RecipeBroken, BadBase, Unlisted, MountBroken;
      assert err[1..] == [Name(k)];
    }
  }

  lemma VariablePlace(spec: seq<Field>, k: string, v: string, allowed: string -> bool)
    requires (k == "env" && allowed == NoNul) || (k == "secretEnv" && allowed == IsSecret)
    requires VariableBroken(Get(spec, k), v, allowed)
    ensures InSpec(spec, [Name("spec"), Name(k), Name(v)])
  {
    hide Get, VariableBroken, RecipeBroken, BadBase, Unlisted, MountBroken, ListItem;
    assert [Name("spec"), Name(k), Name(v)][1..] == [Name(k), Name(v)];
  }

  lemma FieldBlames(fields: seq<Field>, at: Path, value: (Option<Node>, Path) -> Result<string>, allowed: string -> bool)
    returns (f: Field)
    requires Checks(value, allowed) && BlamesHere(value) && ReadFields(fields, at, value, []).Err?
    ensures var err := ReadFields(fields, at, value, []).at;
            && (exists i :: 0 <= i < |fields| && fields[i] == f)
            && f.key != "__proto__"
            && if err == [] then '=' in f.key
               else err == at + [Name(f.key)] && !(IsVariable(f.key) && f.node.Text? && allowed(f.node.text))
  {
    var i := FieldsBlame(fields, at, value, []);
    f := fields[i];
    VariableIff(f.key);
    var err, where := ReadFields(fields, at, value, []).at, at + [Name(f.key)];
    hide ReadFields, IsVariable;
    if ValidEnvKey(f.key) {
      var read := value(Some(f.node), where);
      assert read.Err? && read == Err(where);
      if f.node.Text? && allowed(f.node.text) {
        assert value(Some(f.node), where) == Ok(f.node.text);
      }
    }
  }

  lemma EnvBlame()
    ensures BlamesHere(EnvValue) && BlamesHere(SecretName)
  {
  }

  // ----- Lists -----

  // A list that is none, or an item of one of the two that is no mapping, or breaks a rule.
  lemma ItemPlace(spec: seq<Field>, k: string, i: nat, j: string)
    requires k == "mounts" || k == "ports"
    requires Get(spec, k).Some? && Get(spec, k).value.Listing? && i < |Get(spec, k).value.items|
    ensures var item := Get(spec, k).value.items[i];
            && (!item.Mapping? ==> InSpec(spec, [Name("spec"), Name(k), Index(i)]))
            && (item.Mapping? && (if k == "mounts" then MountBroken(item.fields, j) else PortBroken(item.fields, j)) ==>
                  InSpec(spec, [Name("spec"), Name(k), Index(i), Name(j)]))
  {
    hide Get, PortBroken, MountBroken, RecipeBroken, BadBase, Unlisted, VariableBroken, DescribesPath;
    var item := Get(spec, k).value.items[i];
    assert ListItem(Get(spec, k), Index(i), item);
    hide ListItem;
    var at, below := [Name("spec"), Name(k), Index(i)], [Name("spec"), Name(k), Index(i), Name(j)];
    assert at[1..] == [Name(k), Index(i)] && below[1..] == [Name(k), Index(i), Name(j)];
  }

  lemma ListPlace(spec: seq<Field>, k: string)
    requires k == "mounts" || k == "paths" || k == "ports"
    requires Get(spec, k).Some? && !Get(spec, k).value.Listing?
    ensures InSpec(spec, [Name("spec"), Name(k)])
  {
    hide Get, MountBroken, RecipeBroken, BadBase, Unlisted;
    assert [Name("spec"), Name(k)][1..] == [Name(k)];
  }

  lemma NoMapping(node: Node, at: Path)
    ensures !node.Mapping? ==> ParseMount(node, at) == Err(at)
    ensures node.Mapping? ==> node == Mapping(node.fields)
  {
  }

  lemma MountPlace(spec: seq<Field>, i: nat)
    requires Get(spec, "mounts").Some? && Get(spec, "mounts").value.Listing? && i < |Get(spec, "mounts").value.items|
    ensures var r := ParseMount(Get(spec, "mounts").value.items[i], [Name("spec"), Name("mounts"), Index(i)]);
            r.Err? ==> InSpec(spec, r.at)
  {
    var item, at := Get(spec, "mounts").value.items[i], [Name("spec"), Name("mounts"), Index(i)];
    NoMapping(item, at);
    hide Get, InSpec, MountBroken, ParseMount;
    if item.Mapping? && ParseMount(item, at).Err? {
      var k := MountBlames(item.fields, at);
      ItemPlace(spec, "mounts", i, k);
      assert at + [Name(k)] == [Name("spec"), Name("mounts"), Index(i), Name(k)];
    } else {
      ItemPlace(spec, "mounts", i, "");
    }
  }

  lemma MountsBlame(spec: seq<Field>)
    requires ParseList(Get(spec, "mounts"), [Name("spec"), Name("mounts")], ParseMount).Err?
    ensures InSpec(spec, ParseList(Get(spec, "mounts"), [Name("spec"), Name("mounts")], ParseMount).at)
  {
    hide Get, InSpec, ParseItems, ParseMount;
    var node, at := Get(spec, "mounts"), [Name("spec"), Name("mounts")];
    if node.value.Listing? {
      var i := ItemsBlame(node.value.items, at, 0, ParseMount);
      MountPlace(spec, i);
      assert at + [Index(i)] == [Name("spec"), Name("mounts"), Index(i)];
    } else {
      ListPlace(spec, "mounts");
    }
  }

  lemma PortsBlame(spec: seq<Field>)
    requires ParseList(Get(spec, "ports"), [Name("spec"), Name("ports")], ParsePort).Err?
    ensures InSpec(spec, ParseList(Get(spec, "ports"), [Name("spec"), Name("ports")], ParsePort).at)
  {
    var node, at := Get(spec, "ports"), [Name("spec"), Name("ports")];
    if node.value.Listing? {
      var items := node.value.items;
      var i := ItemsBlame(items, at, 0, ParsePort);
      var k := "";
      if items[i].Mapping? { k := PortBlames(items[i].fields, at + [Index(i)]); }
      ItemPlace(spec, "ports", i, k);
      hide Get, InSpec, ParseItems, PortBroken;
      assert at + [Index(i)] == [Name("spec"), Name("ports"), Index(i)];
      assert at + [Index(i)] + [Name(k)] == [Name("spec"), Name("ports"), Index(i), Name(k)];
    } else {
      ListPlace(spec, "ports");
    }
  }

  lemma PathBlames(node: Node, at: Path)
    ensures ParsePath(node, at).Err? ==> ParsePath(node, at) == Err(at) && forall path :: !DescribesPath(node, path)
  {
    forall path ensures ParsePath(node, at) == Ok(path) <==> DescribesPath(node, path) { PathIff(node, at, path); }
    hide CleanAbsolutePath, DescribesPath;
  }

  lemma PathsBlame(spec: seq<Field>)
    requires ParseList(Get(spec, "paths"), [Name("spec"), Name("paths")], ParsePath).Err?
    ensures InSpec(spec, ParseList(Get(spec, "paths"), [Name("spec"), Name("paths")], ParsePath).at)
  {
    var node, at := Get(spec, "paths"), [Name("spec"), Name("paths")];
    var err := ParseList(node, at, ParsePath).at;
    if node.value.Listing? {
      var items := node.value.items;
      var i := ItemsBlame(items, at, 0, ParsePath);
      assert ListItem(node, Index(i), items[i]);
      PathBlames(items[i], at + [Index(i)]);
      hide Get, ParseItems, ParsePath, DescribesPath, MountBroken, RecipeBroken, BadBase, Unlisted, ListItem;
      assert err[1..] == [Name("paths"), Index(i)];
    } else {
      hide Get, MountBroken, RecipeBroken, BadBase, Unlisted;
      assert err[1..] == [Name("paths")];
    }
  }

  // ----- The document -----

  lemma KeptIsSet(node: Option<Node>, at: Path, value: (Option<Node>, Path) -> Result<string>, allowed: string -> bool,
                  e: CC.Entry)
    requires Checks(value, allowed) && StringMap(node, at, value).Ok?
    requires e in WithoutGitIdentity(StringMap(node, at, value).value)
    ensures HasVariable(node, e.key) && !IsIdentity(e.key)
  {
    EnvIsRead(node, at, value, allowed);
    var kept := WithoutGitIdentity(StringMap(node, at, value).value);
    assert DescribesEnv(node, kept, allowed);
    hide WithoutGitIdentity, StringMap, AllowedFields;
    if node.Some? && node.value.Mapping? {
      assert SetTo(node.value.fields, e.key, e.value);
    }
  }

  lemma ClashBlames(spec: seq<Field>)
    requires var env, secretEnv := StringMap(Get(spec, "env"), [Name("spec"), Name("env")], EnvValue),
                                   StringMap(Get(spec, "secretEnv"), [Name("spec"), Name("secretEnv")], SecretName);
             env.Ok? && secretEnv.Ok? &&
             Clashes(WithoutGitIdentity(secretEnv.value), WithoutGitIdentity(env.value), Get(spec, "env").None?)
    ensures exists v :: BothWays(spec, v)
  {
    var envAt, secretAt := [Name("spec"), Name("env")], [Name("spec"), Name("secretEnv")];
    var env, secretEnv := StringMap(Get(spec, "env"), envAt, EnvValue).value,
                          StringMap(Get(spec, "secretEnv"), secretAt, SecretName).value;
    EnvChecks();
    EnvIsRead(Get(spec, "env"), envAt, EnvValue, NoNul);
    var plain := Get(spec, "env").None?;
    var kept := WithoutGitIdentity(env);
    assert DescribesEnv(Get(spec, "env"), kept, NoNul);
    DescribedRecord(Get(spec, "env"), kept, NoNul);
    var e :| e in WithoutGitIdentity(secretEnv) && if plain then CC.In(e.key, kept) else e.key in CC.AsMap(kept);
    KeptIsSet(Get(spec, "secretEnv"), secretAt, SecretName, IsSecret, e);
    CC.HoldsAt(kept, e.key);
    if f :| f in kept && f.key == e.key {
      KeptIsSet(Get(spec, "env"), envAt, EnvValue, NoNul, f);
    }
    assert BothWays(spec, e.key);
  }

  lemma SpecBlames(spec: seq<Field>)
    requires ValidateSpec(spec).Err?
    ensures var err := ValidateSpec(spec).at;
            || InSpec(spec, err)
            || (err == [] && exists v :: '=' in v && (HasVariable(Get(spec, "env"), v) || HasVariable(Get(spec, "secretEnv"), v)))
            || (err == [Name("spec")] &&
                (Given(Get(spec, "image")) == Given(Get(spec, "imageTemplate")) || exists v :: BothWays(spec, v)))
  {
    var unknown := UnknownKey(spec, SPEC_KEYS);
    UnknownIsExtra(spec, SPEC_KEYS);
    assert SPEC_KEYS == {"image", "imageTemplate", "env", "secretEnv", "mounts", "paths", "ports"};
    var env, secretEnv := StringMap(Get(spec, "env"), [Name("spec"), Name("env")], EnvValue),
                          StringMap(Get(spec, "secretEnv"), [Name("spec"), Name("secretEnv")], SecretName);
    var err := ValidateSpec(spec).at;
    hide Get, UnknownKey, SPEC_KEYS, StringMap, ParseImage, WithoutGitIdentity, Clashes, ValidateLists, RecipeBroken, BadBase,
         VariableBroken, ListItem, BothWays, HasVariable, Given;
    if unknown.Some? {
      assert err[1..] == [Name(unknown.value)];
    } else if ParseImage(spec).Err? {
      ImageBlames(spec);
    } else if env.Err? {
      EnvChecks();
      EnvBlame();
      EnvBlames(spec, "env", EnvValue, NoNul);
    } else if secretEnv.Err? {
      EnvChecks();
      EnvBlame();
      EnvBlames(spec, "secretEnv", SecretName, IsSecret);
    } else if Clashes(WithoutGitIdentity(secretEnv.value), WithoutGitIdentity(env.value), Get(spec, "env").None?) {
      ClashBlames(spec);
    } else {
      ListsBlame(spec, ParseImage(spec).value, WithoutGitIdentity(env.value), WithoutGitIdentity(secretEnv.value));
    }
  }

  lemma ListsBlame(spec: seq<Field>, image: Image, env: CC.Record, secretEnv: CC.Record)
    requires ValidateLists(spec, image, env, secretEnv).Err?
    ensures InSpec(spec, ValidateLists(spec, image, env, secretEnv).at)
  {
    hide Get, ParseList, PartBroken;
    if ParseList(Get(spec, "mounts"), [Name("spec"), Name("mounts")], ParseMount).Err? {
      MountsBlame(spec);
    } else if ParseList(Get(spec, "paths"), [Name("spec"), Name("paths")], ParsePath).Err? {
      PathsBlame(spec);
    } else {
      PortsBlame(spec);
    }
  }

  // A refusal names a place of the document that breaks a rule: a key no rule allows
  // there, or a missing or wrong value of the one named.
  lemma RefusalIsBroken(raw: Node)
    ensures Validate(raw).Err? ==> Broken(raw, Validate(raw).at)
  {
    if Validate(raw).Err? && raw.Mapping? {
      UnknownIsExtra(raw.fields, {"version", "kind", "spec"});
      var spec := Get(raw.fields, "spec");
      if spec.Some? && spec.value.Mapping? && ValidateSpec(spec.value.fields).Err? {
        SpecBlames(spec.value.fields);
      }
      hide Get, UnknownKey, ValidateSpec, PartBroken, Unlisted, BothWays, HasVariable, Given;
    }
  }
}
