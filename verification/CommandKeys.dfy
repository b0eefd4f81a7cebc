// The keys in-flight commands are tracked under (src/client/card-protocol.ts and
// commandKey of src/client/container-card-controller.ts).
module CommandKeys {
  import opened Sequences

  // The operations a container row looks its commands up by.
  const CONTAINER_OPS: seq<string> := [
    "remove", "recreate", "create", "container_mount_add", "container_mount_remove",
    "container_mount_update", "container_path_set", "container_secret_add",
    "container_secret_remove", "container_publish_port", "container_unpublish_port"]

  // The cases of commandKey.
  predicate ByContainer(op: string) {
    || op == "remove" || op == "recreate" || op == "create"
    || op == "container_mount_add" || op == "container_mount_remove" || op == "container_mount_update"
    || op == "container_path_set" || op == "container_secret_add" || op == "container_secret_remove"
    || op == "container_publish_port" || op == "container_unpublish_port"
  }

  const BARE_OPS: seq<string> := ["image_rebuild_all", "ptc_remove", "ptc_recreate", "ptc_build"]

  const SCOPED_OPS: seq<string> := [
    "cache_clean", "default_env_sync", "workspace_remove", "volume_create", "volume_remove",
    "image_remove", "image_rebuild", "image_build", "image_base_rebuild", "image_base_pull",
    "secret_create", "secret_remove", "secret_set"]

  predicate IsOp(op: string) {
    ByContainer(op) || op in BARE_OPS || op in SCOPED_OPS
  }

  // The fields of a request its key depends on.
  datatype Request = Request(op: string, workspace: string, container: string, cacheMode: string)

  function ContainerActionKey(op: string, workspace: string, container: string): string {
    op + ":" + workspace + ":" + container
  }

  function ScopedActionKey(op: string, scope: string): string {
    op + ":" + scope
  }

  function BareActionKey(op: string): string {
    op
  }

  function CommandKey(r: Request): string {
    if ByContainer(r.op) then ContainerActionKey(r.op, r.workspace, r.container)
    else if r.op == "cache_clean" then ScopedActionKey(r.op, r.cacheMode)
    else if r.op in BARE_OPS then BareActionKey(r.op)
    else if r.op == "default_env_sync" then ScopedActionKey(r.op, if r.workspace == "" then "all" else r.workspace)
    else ScopedActionKey(r.op, r.workspace)
  }

  // What a command acts on.
  datatype Target = Target(op: string, scope: seq<string>)

  function TargetOf(r: Request): Target {
    if ByContainer(r.op) then Target(r.op, [r.workspace, r.container])
    else if r.op == "cache_clean" then Target(r.op, [r.cacheMode])
    else if r.op in BARE_OPS then Target(r.op, [])
    else if r.op == "default_env_sync" && r.workspace == "" then Target(r.op, ["all"])
    else Target(r.op, [r.workspace])
  }

  // Workspace slugs hold no colon. Container names may: they come last.
  predicate Scoped(r: Request) {
    IsOp(r.op) && (ByContainer(r.op) ==> Free(r.workspace, ':'))
  }

  lemma EarlierColon(a: string, x: string, b: string, y: string)
    requires Free(b, ':') && |a| < |b|
    ensures a + ":" + x != b + ":" + y
  {
    assert (a + ":" + x)[|a|] == ':';
    assert (b + ":" + y)[|a|] == b[|a|];
  }

  lemma FirstPart(a: string, x: string, b: string, y: string)
    requires Free(a, ':') && Free(b, ':')
    ensures a + ":" + x == b + ":" + y <==> a == b && x == y
  {
    var s := a + ":" + x;
    var t := b + ":" + y;
    if |a| < |b| { EarlierColon(a, x, b, y); }
    if |b| < |a| { EarlierColon(b, y, a, x); }
    if s == t {
      assert s[..|a|] == a && t[..|b|] == b;
      assert s[|a| + 1..] == x && t[|b| + 1..] == y;
    }
  }

  lemma NoColonInOps(op: string)
    requires IsOp(op)
    ensures Free(op, ':')
  {
  }

  lemma OpsApart(op: string)
    ensures ByContainer(op) ==> op !in BARE_OPS && op !in SCOPED_OPS
    ensures op in BARE_OPS ==> op !in SCOPED_OPS
  {
  }

  // The part of a key after the operation.
  function Scope(r: Request): string {
    if ByContainer(r.op) then r.workspace + ":" + r.container
    else if r.op == "cache_clean" then r.cacheMode
    else if r.op == "default_env_sync" && r.workspace == "" then "all"
    else r.workspace
  }

  lemma KeyShape(r: Request)
    requires IsOp(r.op)
    ensures r.op in BARE_OPS ==> CommandKey(r) == r.op
    ensures r.op !in BARE_OPS ==> CommandKey(r) == r.op + ":" + Scope(r)
  {
    OpsApart(r.op);
    if ByContainer(r.op) {
      assert r.op + ":" + r.workspace + ":" + r.container == r.op + ":" + (r.workspace + ":" + r.container);
    }
  }

  lemma TargetShape(a: Request, b: Request)
    requires Scoped(a) && Scoped(b) && a.op == b.op && a.op !in BARE_OPS
    ensures Scope(a) == Scope(b) <==> TargetOf(a) == TargetOf(b)
  {
    if ByContainer(a.op) {
      FirstPart(a.workspace, a.container, b.workspace, b.container);
      assert TargetOf(a).scope[0] == a.workspace && TargetOf(a).scope[1] == a.container;
      assert TargetOf(b).scope[0] == b.workspace && TargetOf(b).scope[1] == b.container;
    } else {
      assert TargetOf(a).scope == [Scope(a)] && TargetOf(b).scope == [Scope(b)];
    }
  }

  // The two halves derive the key the same way: a container row looks up exactly the
  // operations that are keyed by their container.
  lemma HalvesAgree(op: string)
    ensures op in CONTAINER_OPS <==> ByContainer(op)
  {
  }

  // The keys, operation by operation.
  lemma KeyIs(r: Request)
    ensures r.op == "image_rebuild_all" || r.op == "ptc_remove" || r.op == "ptc_recreate" || r.op == "ptc_build" ==>
              IsOp(r.op) && CommandKey(r) == r.op
    ensures r.op == "cache_clean" ==> IsOp(r.op) && CommandKey(r) == "cache_clean:" + r.cacheMode
    ensures r.op == "default_env_sync" ==>
              IsOp(r.op) && CommandKey(r) == if r.workspace == "" then "default_env_sync:all" else "default_env_sync:" + r.workspace
    ensures || r.op == "workspace_remove" || r.op == "volume_create" || r.op == "volume_remove" || r.op == "image_remove"
            || r.op == "image_rebuild" || r.op == "image_build" || r.op == "image_base_rebuild" || r.op == "image_base_pull"
            || r.op == "secret_create" || r.op == "secret_remove" || r.op == "secret_set" ==>
              IsOp(r.op) && CommandKey(r) == r.op + ":" + r.workspace
    ensures || r.op == "remove" || r.op == "recreate" || r.op == "create" || r.op == "container_path_set"
            || r.op == "container_mount_add" || r.op == "container_mount_remove" || r.op == "container_mount_update"
            || r.op == "container_secret_add" || r.op == "container_secret_remove"
            || r.op == "container_publish_port" || r.op == "container_unpublish_port" ==>
              IsOp(r.op) && CommandKey(r) == r.op + ":" + r.workspace + ":" + r.container
  {
  }

  // Two commands share a key exactly when they do the same to the same thing.
  lemma KeyIdentifies(a: Request, b: Request)
    requires Scoped(a) && Scoped(b)
    ensures CommandKey(a) == CommandKey(b) <==> TargetOf(a) == TargetOf(b)
  {
    NoColonInOps(a.op);
    NoColonInOps(b.op);
    KeyShape(a);
    KeyShape(b);
    hide CommandKey, IsOp, Scope;
    if a.op in BARE_OPS && b.op !in BARE_OPS {
      assert CommandKey(b)[|b.op|] == ':';
    } else if a.op !in BARE_OPS && b.op in BARE_OPS {
      assert CommandKey(a)[|a.op|] == ':';
    } else if a.op !in BARE_OPS {
      FirstPart(a.op, Scope(a), b.op, Scope(b));
      if a.op == b.op {
        TargetShape(a, b);
      }
    }
  }

  // With a colon in the workspace they may not.
  lemma ColonCollides()
    ensures var a := Request("remove", "a:b", "c", "");
            var b := Request("remove", "a", "b:c", "");
            CommandKey(a) == CommandKey(b) && TargetOf(a) != TargetOf(b)
  {
  }

  // What a container row asks: is any command on this container in flight?
  predicate ContainerActionPending(actions: seq<string>, workspace: string, container: string) {
    exists op :: op in CONTAINER_OPS && ContainerActionKey(op, workspace, container) in actions
  }
}
