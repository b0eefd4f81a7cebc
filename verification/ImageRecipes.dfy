// Template images (src/container-template.ts, src/template-image.ts): what an image
// exports as, what a template's image needs, and making it available.
module ImageRecipes {
  import opened Options
  import opened Sequences
  import opened Ordering
  import opened Documents
  import opened TemplateFormat
  import opened Templates

  datatype Status = Built | Pulled | Absent        // Absent is reported as "missing"

  datatype Row = Row(imageId: string, parent: string, packages: seq<string>, status: Status, basePublic: bool)

  ghost predicate UniqueIds(rows: seq<Row>) {
    forall i, j :: 0 <= i < j < |rows| ==> rows[i].imageId != rows[j].imageId
  }

  // images.find
  function FindRow(rows: seq<Row>, id: string): Option<Row> {
    if rows == [] then None
    else if rows[0].imageId == id then Some(rows[0])
    else FindRow(rows[1..], id)
  }

  // new Map(images.map(...)): a later row of an id replaces an earlier one.
  function ById(rows: seq<Row>): map<string, Row> {
    if rows == [] then map[]
    else ById(rows[..|rows| - 1])[rows[|rows| - 1].imageId := rows[|rows| - 1]]
  }

  lemma {:induction false} FindRowIs(rows: seq<Row>, id: string)
    ensures var found := FindRow(rows, id);
            && (found.Some? ==> found.value in rows && found.value.imageId == id)
            && (found.None? ==> forall r :: r in rows ==> r.imageId != id)
    ensures UniqueIds(rows) ==> forall r :: r in rows && r.imageId == id ==> FindRow(rows, id) == Some(r)
  {
    if rows != [] {
      FindRowIs(rows[1..], id);
      assert rows == [rows[0]] + rows[1..];
      if UniqueIds(rows) {
        forall r | r in rows && r.imageId == id ensures FindRow(rows, id) == Some(r) {
          if r in rows[1..] {
            var i :| 0 <= i < |rows[1..]| && rows[1..][i] == r;
            assert rows[i + 1] == r;
          }
        }
      }
    }
  }

  lemma {:induction false} ByIdIs(rows: seq<Row>, id: string)
    ensures id in ById(rows) ==> ById(rows)[id] in rows && ById(rows)[id].imageId == id
    ensures id !in ById(rows) ==> forall r :: r in rows ==> r.imageId != id
    ensures UniqueIds(rows) ==> forall r :: r in rows && r.imageId == id ==> id in ById(rows) && ById(rows)[id] == r
  {
    if rows != [] {
      var front, last := rows[..|rows| - 1], rows[|rows| - 1];
      ByIdIs(front, id);
      assert rows == front + [last];
      if UniqueIds(rows) {
        forall r | r in rows && r.imageId == id ensures id in ById(rows) && ById(rows)[id] == r {
          if r in front {
            var i :| 0 <= i < |front| && front[i] == r;
            assert rows[i] == r;
          }
        }
      }
    }
  }

  // With one row an id, both look-ups find the same.
  lemma LookupsAgree(rows: seq<Row>, id: string)
    requires UniqueIds(rows)
    ensures FindRow(rows, id) == if id in ById(rows) then Some(ById(rows)[id]) else None
  {
    FindRowIs(rows, id);
    ByIdIs(rows, id);
  }

  lemma SameRows(a: seq<Row>, b: seq<Row>)
    requires UniqueIds(a) && UniqueIds(b) && forall r :: r in a <==> r in b
    ensures ById(a) == ById(b)
  {
    forall id: string
      ensures id in ById(a) <==> id in ById(b)
      ensures id in ById(a) ==> ById(a)[id] == ById(b)[id]
    {
      ByIdIs(a, id);
      ByIdIs(b, id);
    }
  }

  // ----- Exporting an image -----

  datatype ExportError = Cyclic | NotListed(id: string) | NoParent(id: string) | BadPackage
  datatype Export = Exported(image: Image) | Failed(error: ExportError)

  function ExportOf(base: string, packages: seq<string>): Export {
    if exists p :: p in packages && !ValidPackageName(p) then Failed(BadPackage)
    else
      var extra := Extra(base, packages);
      Exported(if extra == [] then Base(base) else Recipe(base, extra))
  }

  // The loop of templateExportImage from one image on.
  function Walk(byId: map<string, Row>, current: string, seen: set<string>, packages: seq<string>): Export
    decreases |byId.Keys - seen|
  {
    if current in seen then Failed(Cyclic)
    else if IsBaseImage(current) then ExportOf(current, packages)
    else if current !in byId then Failed(NotListed(current))
    else
      var row := byId[current];
      if row.parent == "" then Failed(NoParent(current))
      else
        assert byId.Keys - (seen + {current}) == (byId.Keys - seen) - {current};
        Walk(byId, row.parent, seen + {current}, packages + row.packages)
  }

  function ExportImage(imageId: string, rows: seq<Row>): Export {
    if IsBaseImage(imageId) then Exported(Base(imageId)) else Walk(ById(rows), imageId, {}, [])
  }

  method TemplateExportImage(imageId: string, rows: seq<Row>) returns (result: Export)
    ensures result == ExportImage(imageId, rows)
  {
    if IsBaseImage(imageId) { return Exported(Base(imageId)); }
    var byId := ById(rows);
    var seen: set<string> := {};
    var current := imageId;
    var packages: seq<string> := [];
    while true
      invariant Walk(byId, imageId, {}, []) == Walk(byId, current, seen, packages)
      decreases |byId.Keys - seen|
    {
      if current in seen { return Failed(Cyclic); }
      if IsBaseImage(current) { return ExportOf(current, packages); }
      if current !in byId { return Failed(NotListed(current)); }
      var row := byId[current];
      if row.parent == "" { return Failed(NoParent(current)); }
      assert byId.Keys - (seen + {current}) == (byId.Keys - seen) - {current};
      seen := seen + {current};
      packages := packages + row.packages;
      current := row.parent;
    }
  }

  // A chain of listed images, each the parent of the one before, ending at a base.
  ghost predicate IsChain(byId: map<string, Row>, chain: seq<string>) {
    && chain != [] && IsBaseImage(chain[|chain| - 1])
    && forall i :: 0 <= i < |chain| - 1 ==> IsParent(byId, chain[i], chain[i + 1])
  }

  predicate IsParent(byId: map<string, Row>, id: string, parent: string) {
    !IsBaseImage(id) && id in byId && byId[id].parent != "" && byId[id].parent == parent
  }

  function ChainPackages(byId: map<string, Row>, chain: seq<string>): seq<string> {
    if |chain| <= 1 || chain[0] !in byId then []
    else byId[chain[0]].packages + ChainPackages(byId, chain[1..])
  }

  lemma TailChain(byId: map<string, Row>, chain: seq<string>)
    requires IsChain(byId, chain) && |chain| > 1
    ensures IsChain(byId, chain[1..]) && IsParent(byId, chain[0], chain[1]) && chain[1..][0] == chain[1]
  {
    var tail := chain[1..];
    forall i | 0 <= i < |tail| - 1 ensures IsParent(byId, tail[i], tail[i + 1]) {
      assert IsParent(byId, chain[i + 1], chain[i + 2]);
    }
  }

  // Each image has one parent, so a chain that reaches a base repeats nothing.
  lemma {:induction false} ChainIsAcyclic(byId: map<string, Row>, chain: seq<string>, i: nat, j: nat)
    requires IsChain(byId, chain) && i < j < |chain|
    ensures chain[i] != chain[j]
    decreases |chain| - j
  {
    assert IsParent(byId, chain[i], chain[i + 1]);
    if j < |chain| - 1 {
      assert IsParent(byId, chain[j], chain[j + 1]);
      ChainIsAcyclic(byId, chain, i + 1, j + 1);
    }
  }

  lemma {:induction false} WalkFollowsChain(byId: map<string, Row>, chain: seq<string>, seen: set<string>,
                                           packages: seq<string>)
    requires IsChain(byId, chain) && forall i :: 0 <= i < |chain| ==> chain[i] !in seen
    ensures Walk(byId, chain[0], seen, packages) ==
            ExportOf(chain[|chain| - 1], packages + ChainPackages(byId, chain))
    decreases |chain|
  {
    if |chain| == 1 {
      assert packages + [] == packages;
    } else {
      TailChain(byId, chain);
      forall i | 0 <= i < |chain[1..]| ensures chain[1..][i] !in seen + {chain[0]} {
        ChainIsAcyclic(byId, chain, 0, i + 1);
      }
      var row := byId[chain[0]];
      WalkFollowsChain(byId, chain[1..], seen + {chain[0]}, packages + row.packages);
      assert packages + row.packages + ChainPackages(byId, chain[1..]) ==
             packages + (row.packages + ChainPackages(byId, chain[1..]));
    }
  }

  // A walk that reaches a base has followed a chain.
  lemma {:induction false} WalkFindsChain(byId: map<string, Row>, current: string, seen: set<string>,
                                         packages: seq<string>) returns (chain: seq<string>)
    requires var r := Walk(byId, current, seen, packages); r.Exported? || r.error == BadPackage
    ensures IsChain(byId, chain) && chain[0] == current
    decreases |byId.Keys - seen|
  {
    if IsBaseImage(current) {
      chain := [current];
    } else {
      var row := byId[current];
      assert byId.Keys - (seen + {current}) == (byId.Keys - seen) - {current};
      var rest := WalkFindsChain(byId, row.parent, seen + {current}, packages + row.packages);
      chain := [current] + rest;
      assert IsParent(byId, current, rest[0]);
    }
  }

  // An image exports exactly when its parents lead through listed rows to a base and
  // every package named on the way is valid.
  lemma ExportsIff(imageId: string, rows: seq<Row>)
    requires !IsBaseImage(imageId)
    ensures ExportImage(imageId, rows).Exported? <==>
            exists chain :: IsChain(ById(rows), chain) && chain[0] == imageId &&
                            forall p :: p in ChainPackages(ById(rows), chain) ==> ValidPackageName(p)
  {
    hide ValidPackageName, IsBaseImage, Extra;
    var byId := ById(rows);
    var r := ExportImage(imageId, rows);
    if r.Exported? || r.error == BadPackage {
      var chain := WalkFindsChain(byId, imageId, {}, []);
      WalkFollowsChain(byId, chain, {}, []);
      assert [] + ChainPackages(byId, chain) == ChainPackages(byId, chain);
      if r.Exported? {
        assert forall p :: p in ChainPackages(byId, chain) ==> ValidPackageName(p);
      }
    }
    if chain :| IsChain(byId, chain) && chain[0] == imageId &&
                forall p :: p in ChainPackages(byId, chain) ==> ValidPackageName(p) {
      WalkFollowsChain(byId, chain, {}, []);
      assert [] + ChainPackages(byId, chain) == ChainPackages(byId, chain);
    }
  }

  // ----- Why an export fails -----

  // The images from one on, each the parent of the one before.
  ghost predicate IsPath(byId: map<string, Row>, path: seq<string>) {
    path != [] && forall i :: 0 <= i < |path| - 1 ==> IsParent(byId, path[i], path[i + 1])
  }

  // No image follows: a base, an image not listed, or one that names no parent.
  predicate Ends(byId: map<string, Row>, id: string) {
    IsBaseImage(id) || id !in byId || byId[id].parent == ""
  }

  // What is wrong where the parents lead.
  ghost predicate EndsAs(byId: map<string, Row>, path: seq<string>, error: ExportError)
    requires path != []
  {
    var last := path[|path| - 1];
    match error
    case Cyclic => last in path[..|path| - 1]
    case NotListed(id) => id == last && !IsBaseImage(last) && last !in byId
    case NoParent(id) => id == last && !IsBaseImage(last) && last in byId && byId[last].parent == ""
    case BadPackage => IsBaseImage(last) && exists p :: p in ChainPackages(byId, path) && !ValidPackageName(p)
  }

  lemma {:induction false} EndedIsAcyclic(byId: map<string, Row>, path: seq<string>, i: nat, j: nat)
    requires IsPath(byId, path) && Ends(byId, path[|path| - 1]) && i < j < |path|
    ensures path[i] != path[j]
    decreases |path| - j
  {
    hide IsBaseImage;
    assert IsParent(byId, path[i], path[i + 1]);
    if j < |path| - 1 {
      assert IsParent(byId, path[j], path[j + 1]);
      EndedIsAcyclic(byId, path, i + 1, j + 1);
    }
  }

  // Each image has one parent: a path that ends goes on from any other's start.
  lemma {:induction false} OnePath(byId: map<string, Row>, p: seq<string>, q: seq<string>, i: nat)
    requires IsPath(byId, p) && IsPath(byId, q) && p[0] == q[0] && Ends(byId, q[|q| - 1]) && i < |p|
    ensures i < |q| && p[i] == q[i]
  {
    hide IsBaseImage;
    if i > 0 {
      OnePath(byId, p, q, i - 1);
      assert IsParent(byId, p[i - 1], p[i]);
      if i < |q| {
        assert IsParent(byId, q[i - 1], q[i]);
      }
    }
  }

  lemma OneEnd(byId: map<string, Row>, p: seq<string>, q: seq<string>)
    requires IsPath(byId, p) && IsPath(byId, q) && p[0] == q[0] && Ends(byId, q[|q| - 1])
    ensures p[|p| - 1] !in p[..|p| - 1]
    ensures Ends(byId, p[|p| - 1]) ==> p == q
  {
    OnePath(byId, p, q, |p| - 1);
    forall i | 0 <= i < |p| ensures i < |q| && p[i] == q[i] { OnePath(byId, p, q, i); }
    forall i | 0 <= i < |p| - 1 ensures p[i] != p[|p| - 1] { EndedIsAcyclic(byId, q, i, |p| - 1); }
    if Ends(byId, p[|p| - 1]) {
      OnePath(byId, q, p, |q| - 1);
    }
  }

  predicate GoesOn(byId: map<string, Row>, current: string, seen: set<string>) {
    current !in seen && !Ends(byId, current)
  }

  lemma WalkGoesOn(byId: map<string, Row>, current: string, seen: set<string>, packages: seq<string>)
    requires GoesOn(byId, current, seen)
    ensures current in byId && |byId.Keys - (seen + {current})| < |byId.Keys - seen|
    ensures IsParent(byId, current, byId[current].parent)
    ensures Walk(byId, current, seen, packages) ==
            Walk(byId, byId[current].parent, seen + {current}, packages + byId[current].packages)
  {
    hide IsBaseImage;
    assert byId.Keys - (seen + {current}) == (byId.Keys - seen) - {current};
  }

  lemma WalkStops(byId: map<string, Row>, path: seq<string>, seen: set<string>, packages: seq<string>)
    requires path != [] && !GoesOn(byId, path[|path| - 1], seen) && forall id :: id in seen <==> id in path[..|path| - 1]
    ensures var r := Walk(byId, path[|path| - 1], seen, packages);
            r.Failed? && r.error != BadPackage ==> EndsAs(byId, path, r.error)
  {
    hide IsBaseImage, ValidPackageName, Extra, ChainPackages;
  }

  lemma LongerPath(byId: map<string, Row>, path: seq<string>, parent: string)
    requires IsPath(byId, path) && IsParent(byId, path[|path| - 1], parent)
    ensures IsPath(byId, path + [parent])
  {
    hide IsParent;
    var longer := path + [parent];
    forall i | 0 <= i < |longer| - 1 ensures IsParent(byId, longer[i], longer[i + 1]) {
      if i < |path| - 1 { assert IsParent(byId, path[i], path[i + 1]); }
    }
  }

  // A walk that fails on the way has followed a path to where it failed.
  lemma {:induction false} WalkFails(byId: map<string, Row>, current: string, seen: set<string>, packages: seq<string>,
                                     before: seq<string>) returns (path: seq<string>)
    requires IsPath(byId, before + [current]) && forall id :: id in seen <==> id in before
    requires var r := Walk(byId, current, seen, packages); r.Failed? && r.error != BadPackage
    ensures IsPath(byId, path) && path[0] == (before + [current])[0]
    ensures EndsAs(byId, path, Walk(byId, current, seen, packages).error)
    decreases |byId.Keys - seen|
  {
    path := before + [current];
    assert path[..|path| - 1] == before && path != [];
    hide Walk, EndsAs, IsParent, GoesOn;
    if GoesOn(byId, current, seen) {
      WalkGoesOn(byId, current, seen, packages);
      var row := byId[current];
      LongerPath(byId, path, row.parent);
      path := WalkFails(byId, row.parent, seen + {current}, packages + row.packages, path);
    } else {
      WalkStops(byId, path, seen, packages);
    }
  }

  // What a failed export reports is what is wrong where the parents lead: they come
  // back to an image seen, or to one that is not listed or names no parent, or to a base
  // with a package whose name is refused.
  lemma ExportFailsIff(imageId: string, rows: seq<Row>, error: ExportError)
    requires !IsBaseImage(imageId)
    ensures ExportImage(imageId, rows) == Failed(error) <==>
            exists path :: IsPath(ById(rows), path) && path[0] == imageId && EndsAs(ById(rows), path, error)
  {
    var byId := ById(rows);
    var r := ExportImage(imageId, rows);
    hide ValidPackageName, IsBaseImage, Extra;
    var found := ExportEnds(imageId, rows);
    if path :| IsPath(byId, path) && path[0] == imageId && EndsAs(byId, path, error) {
      hide ById;
      if Ends(byId, found[|found| - 1]) {
        OneEnd(byId, path, found);
      } else if Ends(byId, path[|path| - 1]) {
        OneEnd(byId, found, path);
      }
    }
  }

  lemma ExportEnds(imageId: string, rows: seq<Row>) returns (path: seq<string>)
    requires !IsBaseImage(imageId)
    ensures var byId, r := ById(rows), ExportImage(imageId, rows);
            && IsPath(byId, path) && path[0] == imageId
            && (r.Failed? ==> EndsAs(byId, path, r.error))
            && (r.Exported? ==> IsBaseImage(path[|path| - 1]) && forall p :: p in ChainPackages(byId, path) ==> ValidPackageName(p))
            && (Ends(byId, path[|path| - 1]) || r == Failed(Cyclic))
  {
    hide ValidPackageName, IsBaseImage, Extra;
    var byId := ById(rows);
    var r := ExportImage(imageId, rows);
    if r.Exported? || r.error == BadPackage {
      path := WalkFindsChain(byId, imageId, {}, []);
      WalkFollowsChain(byId, path, {}, []);
      assert [] + ChainPackages(byId, path) == ChainPackages(byId, path);
    } else {
      assert [] + [imageId] == [imageId];
      path := WalkFails(byId, imageId, {}, [], []);
    }
  }

  // It then is that base with the packages of the chain the base does not have:
  // sorted, each once, none left out.
  lemma ExportIs(imageId: string, rows: seq<Row>, chain: seq<string>)
    requires IsChain(ById(rows), chain) && chain[0] == imageId && !IsBaseImage(imageId)
    requires ExportImage(imageId, rows).Exported?
    ensures var image, base := ExportImage(imageId, rows).image, chain[|chain| - 1];
            && image.base == base
            && (image.Recipe? ==> Increasing(image.packages) && image.packages != [])
            && forall p :: (image.Recipe? && p in image.packages) <==>
                           p in ChainPackages(ById(rows), chain) && p !in BaseImagePackages(base)
  {
    hide ValidPackageName, IsBaseImage, BaseImagePackages, Extra;
    var packages := ChainPackages(ById(rows), chain);
    WalkFollowsChain(ById(rows), chain, {}, []);
    assert [] + packages == packages;
    ExtraIs(chain[|chain| - 1], packages);
  }

  // The order of the list does not matter when ids are unique.
  lemma ExportIgnoresOrder(imageId: string, a: seq<Row>, b: seq<Row>)
    requires UniqueIds(a) && UniqueIds(b) && forall r :: r in a <==> r in b
    ensures ExportImage(imageId, a) == ExportImage(imageId, b)
  {
    SameRows(a, b);
  }

  // ----- Planning -----

  datatype Reason = Ready | MissingImage | OtherPackages | OtherParent

  datatype Plan = Plan(effective: Image, imageId: string, present: bool, rebuild: bool, needsBuild: bool, reason: Reason)

  function ImagePlan(effective: Image, imageId: string, rows: seq<Row>): Plan {
    match effective
    case Base(base) => (
      match FindRow(rows, base)
      case None => Plan(effective, base, false, false, true, MissingImage)
      case Some(row) =>
        if row.status != Built && row.status != Pulled then Plan(effective, base, false, false, true, MissingImage)
        else Plan(effective, base, true, false, false, Ready))
    case Recipe(base, packages) => (
      match FindRow(rows, imageId)
      case None => Plan(effective, imageId, false, false, true, MissingImage)
      case Some(row) =>
        if row.status == Absent then Plan(effective, imageId, false, false, true, MissingImage)
        else if row.parent != base then Plan(effective, imageId, true, true, true, OtherParent)
        else if Sort(row.packages) != packages then Plan(effective, imageId, true, true, true, OtherPackages)
        else Plan(effective, imageId, true, false, false, Ready))
  }

  // The image a template runs: its base, or the template's own.
  function ImageOf(effective: Image, templateId: string): string {
    if effective.Base? then effective.base else templateId
  }

  // What the image store says, whatever is planned: an image of that id is there, and
  // it is there as the template needs it.
  ghost predicate Stored(rows: seq<Row>, id: string) {
    exists row :: row in rows && row.imageId == id && (row.status == Built || row.status == Pulled)
  }

  ghost predicate Matches(effective: Image, row: Row) {
    effective.Recipe? ==>
      row.parent == effective.base && multiset(row.packages) == multiset(effective.packages)
  }

  ghost predicate Available(effective: Image, id: string, rows: seq<Row>) {
    exists row :: row in rows && row.imageId == id && (row.status == Built || row.status == Pulled) &&
                  Matches(effective, row)
  }

  lemma OneRow(effective: Image, id: string, rows: seq<Row>)
    requires UniqueIds(rows)
    ensures match FindRow(rows, id)
            case None => !Stored(rows, id) && !Available(effective, id, rows)
            case Some(row) =>
              && row in rows && row.imageId == id
              && (Stored(rows, id) <==> row.status == Built || row.status == Pulled)
              && (Available(effective, id, rows) <==> Stored(rows, id) && Matches(effective, row))
  {
    FindRowIs(rows, id);
    hide FindRow, Matches;
  }

  // A plan builds nothing exactly when the image is there as the template needs it: a
  // base, or an image with the template's parent and packages, each as often. It tells
  // a missing image from one of another parent and one of other packages.
  lemma PlanIsReadyIff(effective: Image, templateId: string, rows: seq<Row>)
    requires UniqueIds(rows) && (effective.Recipe? ==> Increasing(effective.packages))
    ensures var plan, id := ImagePlan(effective, templateId, rows), ImageOf(effective, templateId);
            && plan.effective == effective && plan.imageId == id
            && (plan.needsBuild <==> !Available(effective, id, rows))
            && (plan.present <==> Stored(rows, id))
            && (plan.rebuild <==> Stored(rows, id) && !Available(effective, id, rows))
            && (plan.reason == Ready <==> Available(effective, id, rows))
            && (plan.reason == MissingImage <==> !Stored(rows, id))
            && (plan.reason == OtherParent <==>
                effective.Recipe? && exists row :: row in rows && row.imageId == id &&
                                                   row.status != Absent && row.parent != effective.base)
  {
    hide Sort, Available, Stored;
    var id := ImageOf(effective, templateId);
    OneRow(effective, id, rows);
    FindRowIs(rows, id);
    if effective.Recipe? && FindRow(rows, id).Some? {
      SortCompares(effective.packages, effective.packages);
      SortCompares(FindRow(rows, id).value.packages, effective.packages);
    }
  }

  lemma ChildOfBaseExports(rows: seq<Row>, row: Row)
    requires UniqueIds(rows) && row in rows && !IsBaseImage(row.imageId) && IsBaseImage(row.parent)
    ensures ExportImage(row.imageId, rows) == ExportOf(row.parent, row.packages)
  {
    hide IsBaseImage, ExportOf, UniqueIds;
    ByIdIs(rows, row.imageId);
    BaseIsNamed(row.parent);
    var byId, chain := ById(rows), [row.imageId, row.parent];
    assert IsParent(byId, chain[0], chain[1]);
    WalkFollowsChain(byId, chain, {}, []);
    assert chain[1..] == [row.parent];
    assert ChainPackages(byId, chain) == row.packages + [];
    assert [] + (row.packages + []) == row.packages;
  }

  // A ready image exports as the template's own image.
  lemma ReadyExportsAsPlanned(effective: Image, imageId: string, rows: seq<Row>)
    requires UniqueIds(rows) && CanonicalImage(effective) && !IsBaseImage(imageId)
    requires Available(effective, ImageOf(effective, imageId), rows)
    ensures ExportImage(ImageOf(effective, imageId), rows) == Exported(effective)
  {
    hide ValidPackageName, IsBaseImage, BaseImagePackages, Extra, UniqueIds, Walk;
    if effective.Recipe? {
      var row :| row in rows && row.imageId == imageId && (row.status == Built || row.status == Pulled) &&
                 Matches(effective, row);
      ChildOfBaseExports(rows, row);
      SamePackages(row.packages, effective.packages, effective.base);
    }
  }

  lemma BaseIsNamed(base: string)
    requires IsBaseImage(base)
    ensures base != ""
  {
  }

  lemma SamePackages(listed: seq<string>, packages: seq<string>, base: string)
    requires multiset(listed) == multiset(packages) && Packages(base, packages)
    ensures Extra(base, listed) == packages
    ensures forall p :: p in listed ==> ValidPackageName(p)
  {
    hide ValidPackageName, BaseImagePackages;
    forall p ensures p in listed <==> p in packages {
      assert p in multiset(listed) <==> p in multiset(packages);
    }
    ExtraIs(base, listed);
    forall p ensures p in Elements(Extra(base, listed)) <==> p in Elements(packages) {
    }
    SortedOnce(Extra(base, listed), packages);
  }

  // ----- The orchestrator's images -----

  // What the host's control calls do to the listed images, for a store that honours
  // them; up says whether the engine behind it can build, pull and remove just now.
  datatype Store = Store(rows: seq<Row>, public: bool, inUse: set<string>)

  datatype Call =
    | ListImages
    | RemoveImage(id: string)
    | PullBaseImage(name: string)
    | RebuildBaseImage(name: string)
    | BuildImage(id: string, parent: string, packages: seq<string>)

  function SetStatus(rows: seq<Row>, id: string, status: Status): seq<Row> {
    if rows == [] then []
    else [if rows[0].imageId == id then rows[0].(status := status) else rows[0]] + SetStatus(rows[1..], id, status)
  }

  function PutRow(rows: seq<Row>, row: Row): seq<Row> {
    if rows == [] then [row]
    else if rows[0].imageId == row.imageId then [row] + rows[1..]
    else [rows[0]] + PutRow(rows[1..], row)
  }

  // Whether a call is accepted, and the store after it.
  predicate Accepts(s: Store, call: Call, up: bool) {
    match call
    case ListImages => true
    case RemoveImage(id) => up && !IsBaseImage(id) && id !in s.inUse && FindRow(s.rows, id).Some?
    case PullBaseImage(name) => up && IsBaseImage(name) && s.public
    case RebuildBaseImage(name) => up && IsBaseImage(name) && !s.public
    case BuildImage(id, parent, _) => up && !IsBaseImage(id) && (IsBaseImage(parent) || FindRow(s.rows, parent).Some?)
  }

  function Serve(s: Store, call: Call, up: bool): Store {
    if !Accepts(s, call, up) then s
    else
      match call
      case ListImages => s
      case RemoveImage(id) => s.(rows := Filter(s.rows, (r: Row) => r.imageId != id))
      case PullBaseImage(name) => s.(rows := SetStatus(s.rows, name, Pulled))
      case RebuildBaseImage(name) => s.(rows := SetStatus(s.rows, name, Built))
      case BuildImage(id, parent, packages) => s.(rows := PutRow(s.rows, Row(id, parent, packages, Built, false)))
  }

  // Ids are unique, and the three bases are always listed, with the mode they are
  // provisioned in.
  ghost predicate Listed(s: Store) {
    && UniqueIds(s.rows)
    && forall base :: base in BASE_IMAGES ==>
         FindRow(s.rows, base).Some? && FindRow(s.rows, base).value.basePublic == s.public
  }

  lemma {:induction false} SetStatusIs(rows: seq<Row>, id: string, status: Status, other: string)
    ensures |SetStatus(rows, id, status)| == |rows|
    ensures forall i :: 0 <= i < |rows| ==> SetStatus(rows, id, status)[i].imageId == rows[i].imageId
    ensures FindRow(SetStatus(rows, id, status), other) ==
            match FindRow(rows, other)
            case None => None
            case Some(row) => Some(if other == id then row.(status := status) else row)
  {
    if rows != [] {
      SetStatusIs(rows[1..], id, status, other);
      assert SetStatus(rows, id, status)[1..] == SetStatus(rows[1..], id, status);
    }
  }

  lemma {:induction false} PutRowIs(rows: seq<Row>, row: Row, other: string)
    ensures FindRow(PutRow(rows, row), other) == if other == row.imageId then Some(row) else FindRow(rows, other)
    ensures forall r :: r in PutRow(rows, row) ==> r in rows || r == row
    ensures UniqueIds(rows) ==> UniqueIds(PutRow(rows, row))
  {
    if rows != [] {
      PutRowIs(rows[1..], row, other);
      if rows[0].imageId == row.imageId {
        assert ([row] + rows[1..])[1..] == rows[1..];
      } else {
        var rest := PutRow(rows[1..], row);
        assert ([rows[0]] + rest)[1..] == rest;
        if UniqueIds(rows) {
          forall j | 0 <= j < |rest| ensures rest[j].imageId != rows[0].imageId {
            assert rest[j] in rest;
            if rest[j] in rows[1..] {
              var i :| 0 <= i < |rows[1..]| && rows[1..][i] == rest[j];
              assert rows[i + 1] == rest[j];
            }
          }
        }
      }
    }
  }

  lemma {:induction false} RemovedRows(rows: seq<Row>, id: string, other: string)
    ensures var kept := Filter(rows, (r: Row) => r.imageId != id);
            && FindRow(kept, other) == (if other == id then None else FindRow(rows, other))
            && (UniqueIds(rows) ==> UniqueIds(kept))
  {
    if rows != [] {
      RemovedRows(rows[1..], id, other);
      var keep := (r: Row) => r.imageId != id;
      var rest := Filter(rows[1..], keep);
      if rows[0].imageId != id {
        assert ([rows[0]] + rest)[1..] == rest;
        if UniqueIds(rows) {
          forall j | 0 <= j < |rest| ensures rest[j].imageId != rows[0].imageId {
            Filtered(rows[1..], keep, rest[j]);
            var i :| 0 <= i < |rows[1..]| && rows[1..][i] == rest[j];
            assert rows[i + 1] == rest[j];
          }
        }
      }
    }
  }

  function NamedBy(call: Call): Option<string> {
    match call
    case ListImages => None
    case RemoveImage(id) => Some(id)
    case PullBaseImage(name) => Some(name)
    case RebuildBaseImage(name) => Some(name)
    case BuildImage(id, _, _) => Some(id)
  }

  // Every call keeps the store listed, and changes no row but the one it names.
  lemma ServeKeeps(s: Store, call: Call, up: bool, other: string)
    requires Listed(s)
    ensures Listed(Serve(s, call, up))
    ensures Serve(s, call, up).public == s.public && Serve(s, call, up).inUse == s.inUse
    ensures NamedBy(call) != Some(other) ==> FindRow(Serve(s, call, up).rows, other) == FindRow(s.rows, other)
  {
    hide UniqueIds, SetStatus, PutRow;
    ServeKeepsUnique(s, call, up);
    forall id: string
      ensures Accepts(s, call, up) ==>
                FindRow(Serve(s, call, up).rows, id) ==
                match call
                case ListImages => FindRow(s.rows, id)
                case RemoveImage(gone) => if id == gone then None else FindRow(s.rows, id)
                case BuildImage(made, parent, packages) =>
                  if id == made then Some(Row(made, parent, packages, Built, false)) else FindRow(s.rows, id)
                case PullBaseImage(name) => WithStatus(FindRow(s.rows, id), id == name, Pulled)
                case RebuildBaseImage(name) => WithStatus(FindRow(s.rows, id), id == name, Built)
    {
      if Accepts(s, call, up) { ServedRow(s, call, up, id); }
    }
    hide FindRow;
  }

  function WithStatus(row: Option<Row>, named: bool, status: Status): Option<Row> {
    match row case None => None case Some(r) => Some(if named then r.(status := status) else r)
  }

  lemma ServedRow(s: Store, call: Call, up: bool, id: string)
    requires Accepts(s, call, up)
    ensures FindRow(Serve(s, call, up).rows, id) ==
            match call
            case ListImages => FindRow(s.rows, id)
            case RemoveImage(gone) => if id == gone then None else FindRow(s.rows, id)
            case BuildImage(made, parent, packages) =>
              if id == made then Some(Row(made, parent, packages, Built, false)) else FindRow(s.rows, id)
            case PullBaseImage(name) => WithStatus(FindRow(s.rows, id), id == name, Pulled)
            case RebuildBaseImage(name) => WithStatus(FindRow(s.rows, id), id == name, Built)
  {
    match call
    case ListImages =>
    case RemoveImage(gone) => RemovedRows(s.rows, gone, id);
    case PullBaseImage(name) => SetStatusIs(s.rows, name, Pulled, id);
    case RebuildBaseImage(name) => SetStatusIs(s.rows, name, Built, id);
    case BuildImage(made, parent, packages) => PutRowIs(s.rows, Row(made, parent, packages, Built, false), id);
  }

  lemma ServeKeepsUnique(s: Store, call: Call, up: bool)
    requires UniqueIds(s.rows)
    ensures UniqueIds(Serve(s, call, up).rows)
  {
    hide FindRow;
    match call
    case ListImages =>
    case RemoveImage(gone) => RemovedRows(s.rows, gone, "");
    case PullBaseImage(name) => SetStatusIs(s.rows, name, Pulled, "");
    case RebuildBaseImage(name) => SetStatusIs(s.rows, name, Built, "");
    case BuildImage(made, parent, packages) => PutRowIs(s.rows, Row(made, parent, packages, Built, false), "");
  }

  // ----- Making a template's image available -----

  datatype ImageResult = ImageResult(imageId: string, plan: Plan, built: bool, removed: bool, superseded: bool)

  // The calls it makes, the store after them, and its result; None when a build was
  // refused.
  datatype Outcome = Outcome(store: Store, calls: seq<Call>, result: Option<ImageResult>)

  function Provision(rows: seq<Row>, base: string): Call {
    match FindRow(rows, base)
    case Some(row) => if row.basePublic then PullBaseImage(base) else RebuildBaseImage(base)
    case None => RebuildBaseImage(base)
  }

  // images is what the caller already has, or None to list them.
  function Ensure(s: Store, effective: Image, templateId: string, force: bool, images: Option<seq<Row>>, up: bool): Outcome {
    var rows := if images.Some? then images.value else s.rows;
    var listing := if images.Some? then [] else [ListImages];
    var plan := ImagePlan(effective, templateId, rows);
    match effective
    case Base(base) =>
      var listed := FindRow(rows, templateId).Some?;
      var remove := RemoveImage(templateId);
      var removed := listed && Accepts(s, remove, up);
      var s1 := if listed then Serve(s, remove, up) else s;
      var calls := listing + if listed then [remove] else [];
      if !plan.needsBuild && !force then
        Outcome(s1, calls, Some(ImageResult(base, plan, false, removed, listed)))
      else
        var provision := Provision(rows, base);
        Outcome(Serve(s1, provision, up), calls + [provision],
                if Accepts(s1, provision, up) then Some(ImageResult(base, plan, true, removed, listed)) else None)
    case Recipe(base, packages) =>
      if !plan.needsBuild && !force then
        Outcome(s, listing, Some(ImageResult(templateId, plan, false, false, false)))
      else
        var build := BuildImage(templateId, base, packages);
        Outcome(Serve(s, build, up), listing + [build],
                if Accepts(s, build, up) then Some(ImageResult(templateId, plan, true, false, false)) else None)
  }

  predicate Provisions(call: Call) {
    call.PullBaseImage? || call.RebuildBaseImage? || call.BuildImage?
  }

  lemma EnsureKeepsListed(s: Store, effective: Image, templateId: string, force: bool, images: Option<seq<Row>>, up: bool)
    requires Listed(s)
    ensures Listed(Ensure(s, effective, templateId, force, images, up).store)
  {
    hide Listed, Serve, ImagePlan, Provision, FindRow, Accepts;
    forall store, call | Listed(store) ensures Listed(Serve(store, call, up)) {
      ServeKeeps(store, call, up, "");
    }
  }

  // The list is asked for, or is the one the store holds now.
  predicate Current(s: Store, images: Option<seq<Row>>) {
    images == None || images == Some(s.rows)
  }

  lemma GivenOrListed(s: Store, effective: Image, templateId: string, force: bool, images: Option<seq<Row>>, up: bool)
    requires Current(s, images)
    ensures var given, listed := Ensure(s, effective, templateId, force, images, up), Ensure(s, effective, templateId, force, None, up);
            && given.store == listed.store && given.result == listed.result
            && listed.calls == (if images == None then [] else [ListImages]) + given.calls
  {
    hide Serve, Accepts, ImagePlan, FindRow, Provision;
  }

  // What is provisioned when something has to be: a base is pulled from a store that
  // publishes bases and rebuilt by any other, a recipe is built from its base.
  ghost predicate Asks(s: Store, effective: Image, templateId: string, call: Call) {
    match effective
    case Base(base) => call == if s.public then PullBaseImage(base) else RebuildBaseImage(base)
    case Recipe(base, packages) => call == BuildImage(templateId, base, packages)
  }

  // The calls, whole: the list unless it was given, the removal of an image a base
  // supersedes, and the provisioning exactly when forced or the image is not available.
  lemma EnsureSends(s: Store, effective: Image, templateId: string, force: bool, images: Option<seq<Row>>, up: bool)
    requires Listed(s) && Current(s, images) && CanonicalImage(effective) && !IsBaseImage(templateId)
    ensures var o := Ensure(s, effective, templateId, force, images, up);
            var needed := force || !Available(effective, ImageOf(effective, templateId), s.rows);
            var superseded := effective.Base? && exists row :: row in s.rows && row.imageId == templateId;
            && (exists provision ::
                  && Asks(s, effective, templateId, provision)
                  && o.calls == (if images == None then [ListImages] else [])
                              + (if superseded then [RemoveImage(templateId)] else [])
                              + (if needed then [provision] else []))
            && (o.result == None <==> needed && !up)
            && (o.result.Some? ==>
                  && o.result.value.imageId == ImageOf(effective, templateId)
                  && (o.result.value.built <==> needed)
                  && (o.result.value.superseded <==> superseded)
                  && (o.result.value.removed <==> superseded && up && templateId !in s.inUse))
  {
    PlanIsReadyIff(effective, templateId, s.rows);
    FindRowIs(s.rows, templateId);
    ServeKeeps(s, RemoveImage(templateId), up, effective.base);
    hide Serve, ImagePlan, FindRow, UniqueIds, CanonicalImage, Available, IsBaseImage;
    BaseOf(effective);
    var provision := if effective.Base? then Provision(s.rows, effective.base)
                     else BuildImage(templateId, effective.base, effective.packages);
    assert Asks(s, effective, templateId, provision);
  }

  lemma BaseOf(effective: Image)
    requires CanonicalImage(effective)
    ensures IsBaseImage(effective.base) && effective.base in BASE_IMAGES
    ensures effective.Recipe? ==> Increasing(effective.packages)
  {
  }

  // It fails only if the engine is down and something had to be built: the mode of
  // the base is chosen as the store has it.
  lemma EnsureSucceedsIff(s: Store, effective: Image, templateId: string, force: bool, images: Option<seq<Row>>, up: bool)
    requires Listed(s) && Current(s, images) && CanonicalImage(effective) && !IsBaseImage(templateId)
    ensures Ensure(s, effective, templateId, force, images, up).result.Some? <==>
            up || (!force && Available(effective, ImageOf(effective, templateId), s.rows))
  {
    hide Ensure, Available, Listed, CanonicalImage, IsBaseImage;
    EnsureSends(s, effective, templateId, force, images, up);
  }

  lemma BaseReadyIff(s: Store, effective: Image, templateId: string, force: bool, images: Option<seq<Row>>, up: bool)
    requires Listed(s) && effective.Base? && IsBaseImage(effective.base) && !IsBaseImage(templateId)
    requires Ensure(s, effective, templateId, force, images, up).result.Some?
    ensures var o := Ensure(s, effective, templateId, force, images, up);
            !ImagePlan(effective, templateId, o.store.rows).needsBuild <==>
            o.result.value.built || !ImagePlan(effective, templateId, s.rows).needsBuild
  {
    var base := effective.base;
    var rows := if images.Some? then images.value else s.rows;
    var remove := RemoveImage(templateId);
    ServeKeeps(s, remove, up, base);
    var s1 := if FindRow(rows, templateId).Some? then Serve(s, remove, up) else s;
    assert FindRow(s1.rows, base) == FindRow(s.rows, base);
    var provision := Provision(rows, base);
    if Accepts(s1, provision, up) {
      ServedRow(s1, provision, up, base);
    }
    hide FindRow, Serve, UniqueIds, IsBaseImage;
  }

  lemma RecipeReadyIff(s: Store, effective: Image, templateId: string, force: bool, images: Option<seq<Row>>, up: bool)
    requires effective.Recipe? && Increasing(effective.packages)
    requires Ensure(s, effective, templateId, force, images, up).result.Some?
    ensures var o := Ensure(s, effective, templateId, force, images, up);
            !ImagePlan(effective, templateId, o.store.rows).needsBuild <==>
            o.result.value.built || !ImagePlan(effective, templateId, s.rows).needsBuild
  {
    hide Sort, FindRow, Serve;
    SortCompares(effective.packages, effective.packages);
    var build := BuildImage(templateId, effective.base, effective.packages);
    if Accepts(s, build, up) {
      ServedRow(s, build, up, templateId);
    }
  }

  // Whatever list the caller gave, even one out of date: after a success the image is
  // available exactly if this call built it or it was available before.
  lemma ReadyAfterIff(s: Store, effective: Image, templateId: string, force: bool, images: Option<seq<Row>>, up: bool)
    requires Listed(s) && CanonicalImage(effective) && !IsBaseImage(templateId)
    requires Ensure(s, effective, templateId, force, images, up).result.Some?
    ensures var o, id := Ensure(s, effective, templateId, force, images, up), ImageOf(effective, templateId);
            && o.result.value.imageId == id
            && (Available(effective, id, o.store.rows) <==>
                o.result.value.built || Available(effective, id, s.rows))
  {
    EnsureKeepsListed(s, effective, templateId, force, images, up);
    PlanIsReadyIff(effective, templateId, s.rows);
    PlanIsReadyIff(effective, templateId, Ensure(s, effective, templateId, force, images, up).store.rows);
    if effective.Base? {
      BaseReadyIff(s, effective, templateId, force, images, up);
    } else {
      RecipeReadyIff(s, effective, templateId, force, images, up);
    }
    hide ImagePlan, Serve, Accepts, FindRow, Available;
  }

  // So with the list of the moment the store holds the image the result names, as the
  // template needs it.
  lemma EnsureLeavesReady(s: Store, effective: Image, templateId: string, force: bool, images: Option<seq<Row>>, up: bool)
    requires Listed(s) && Current(s, images) && CanonicalImage(effective) && !IsBaseImage(templateId)
    requires Ensure(s, effective, templateId, force, images, up).result.Some?
    ensures var o := Ensure(s, effective, templateId, force, images, up);
            && o.result.value.imageId == ImageOf(effective, templateId)
            && exists row :: row in o.store.rows && row.imageId == o.result.value.imageId &&
                 (row.status == Built || row.status == Pulled) && Matches(effective, row)
  {
    ReadyAfterIff(s, effective, templateId, force, images, up);
    EnsureSends(s, effective, templateId, force, images, up);
    hide Ensure, Listed, CanonicalImage, IsBaseImage, Matches, Asks;
  }

  // A second unforced call then builds, pulls and rebuilds nothing, and exporting the
  // image gives the template's own again.
  lemma EnsureSettles(s: Store, effective: Image, templateId: string, force: bool, images: Option<seq<Row>>, up: bool,
                      images': Option<seq<Row>>, up': bool)
    requires Listed(s) && Current(s, images) && CanonicalImage(effective) && !IsBaseImage(templateId)
    requires Ensure(s, effective, templateId, force, images, up).result.Some?
    requires Current(Ensure(s, effective, templateId, force, images, up).store, images')
    ensures var first := Ensure(s, effective, templateId, force, images, up);
            var second := Ensure(first.store, effective, templateId, false, images', up');
            && second.result.Some? && !second.result.value.built
            && second.result.value.imageId == first.result.value.imageId
            && (forall call :: call in second.calls ==> !Provisions(call))
            && ExportImage(first.result.value.imageId, first.store.rows) == Exported(effective)
  {
    EnsureLeavesReady(s, effective, templateId, force, images, up);
    EnsureKeepsListed(s, effective, templateId, force, images, up);
    var first := Ensure(s, effective, templateId, force, images, up);
    hide Ensure, ExportImage, UniqueIds, CanonicalImage, IsBaseImage, Matches;
    assert Available(effective, ImageOf(effective, templateId), first.store.rows);
    ReadyExportsAsPlanned(effective, templateId, first.store.rows);
    EnsureSends(first.store, effective, templateId, false, images', up');
  }

  // The superseded image goes only when nothing uses it; no other row changes but
  // the base's status.
  lemma SupersededIsRemovedIff(s: Store, base: string, templateId: string, force: bool, images: Option<seq<Row>>,
                               up: bool, other: string)
    requires Listed(s) && Current(s, images) && IsBaseImage(base) && !IsBaseImage(templateId)
    ensures var o := Ensure(s, Base(base), templateId, force, images, up);
            && (FindRow(o.store.rows, templateId).None? <==>
                FindRow(s.rows, templateId).None? || (up && templateId !in s.inUse))
            && (other != base && other != templateId ==> FindRow(o.store.rows, other) == FindRow(s.rows, other))
  {
    GivenOrListed(s, Base(base), templateId, force, images, up);
    var remove, provision := RemoveImage(templateId), Provision(s.rows, base);
    ServeKeeps(s, remove, up, other);
    if Accepts(s, remove, up) { ServedRow(s, remove, up, templateId); }
    var s1 := if FindRow(s.rows, templateId).Some? then Serve(s, remove, up) else s;
    assert Listed(s1);
    ServeKeeps(s1, provision, up, other);
    ServeKeeps(s1, provision, up, templateId);
    hide FindRow, Serve, UniqueIds, IsBaseImage;
  }

  // ----- The calls, one after the other -----

  class Resolver {
    var store: Store
    var calls: seq<Call>

    constructor (store: Store)
      ensures this.store == store && calls == []
    {
      this.store, calls := store, [];
    }

    // One control call; a refusal leaves the store as it was.
    method Control(call: Call, up: bool) returns (accepted: bool)
      modifies this
      ensures store == Serve(old(store), call, up) && calls == old(calls) + [call]
      ensures accepted <==> Accepts(old(store), call, up)
    {
      accepted := Accepts(store, call, up);
      store := Serve(store, call, up);
      calls := calls + [call];
    }

    method EnsureTemplateImage(effective: Image, templateId: string, force: bool, images: Option<seq<Row>>, up: bool)
      returns (result: Option<ImageResult>)
      modifies this
      ensures var o := Ensure(old(store), effective, templateId, force, images, up);
              store == o.store && calls == old(calls) + o.calls && result == o.result
    {
      hide Serve, Accepts, ImagePlan, FindRow, Provision;
      var rows := store.rows;
      if images.Some? {
        rows := images.value;
      } else {
        var listed := Control(ListImages, up);
        assert store == old(store) by { ListingIsHarmless(old(store), up); }
      }
      var plan := ImagePlan(effective, templateId, rows);
      if effective.Base? {
        var listed := FindRow(rows, templateId).Some?;
        var removed := false;
        if listed { removed := Control(RemoveImage(templateId), up); }
        var built := plan.needsBuild || force;
        if built {
          var accepted := Control(Provision(rows, effective.base), up);
          if !accepted { return None; }
        }
        return Some(ImageResult(effective.base, plan, built, removed, listed));
      }
      if !plan.needsBuild && !force {
        return Some(ImageResult(templateId, plan, false, false, false));
      }
      var accepted := Control(BuildImage(templateId, effective.base, effective.packages), up);
      if !accepted { return None; }
      return Some(ImageResult(templateId, plan, true, false, false));
    }
  }

  lemma ListingIsHarmless(s: Store, up: bool)
    ensures Serve(s, ListImages, up) == s
  {
  }
}
