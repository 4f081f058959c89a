/** Loading an approved skill with its dependencies
  * (backend/src/skills/skillPackageService.js, `loadApprovedSkill`, `validateManifest`). What a skill's
  * directory holds, and its fingerprint, are parameters. */
module Dependencies {
  import opened Wrappers

  type SkillId = string

  datatype Approval = Approval(approvedVersion: string, approvedPackageSha256: string)

  /** `supportedVersions` is `None` when it is not an array. */
  datatype Declaration = Declaration(skillId: SkillId, supportedVersions: Option<seq<string>>)

  datatype Manifest = Manifest(
    schemaVersion: string,
    skillId: SkillId,
    version: string,
    resultContractVersion: string,
    uiSchemaVersion: Option<string>,
    runtimeType: Option<string>,
    entrypointIsFile: bool,
    inputFilesAreArray: bool,
    dependencies: seq<Declaration>)

  /** What a skill's root holds: the manifest if it can be read, the fingerprint if there are runtime files. */
  datatype Package = Package(manifest: Option<Manifest>, fingerprint: Option<string>)

  datatype World = World(approvals: map<SkillId, Approval>, packages: map<SkillId, Package>)

  datatype Error =
    | Cyclic | NotApproved | Unreadable | IdMismatch | InvalidManifest
    | NoRuntimeFiles | PackageUnapproved | Incompatible

  datatype Loaded = Loaded(manifest: Manifest, packageSha256: string, dependencies: seq<Loaded>)

  predicate ValidManifest(w: World, m: Manifest, approval: Approval) {
    && m.schemaVersion == "1.0"
    && m.skillId in w.approvals
    && m.version == approval.approvedVersion
    && m.resultContractVersion == "1.0"
    && (m.uiSchemaVersion.Some? ==> m.uiSchemaVersion.value == "1.0")
    && m.runtimeType == Some("python")
    && m.entrypointIsFile
    && m.inputFilesAreArray
  }

  /** The checks of one skill before its dependencies, in order. */
  function LoadLocally(w: World, id: SkillId): Result<Manifest, Error> {
    if id !in w.approvals then Err(NotApproved)
    else if id !in w.packages || w.packages[id].manifest.None? then Err(Unreadable)
    else
      var m, approval := w.packages[id].manifest.value, w.approvals[id];
      if m.skillId != id then Err(IdMismatch)
      else if !ValidManifest(w, m, approval) then Err(InvalidManifest)
      else if w.packages[id].fingerprint.None? then Err(NoRuntimeFiles)
      else if w.packages[id].fingerprint != Some(approval.approvedPackageSha256) then Err(PackageUnapproved)
      else Ok(m)
  }

  function Unvisited(w: World, ancestry: seq<SkillId>): set<SkillId> {
    set id | id in w.approvals && id !in ancestry
  }

  predicate Supports(d: Declaration, version: string) {
    d.supportedVersions.Some? && version in d.supportedVersions.value
  }

  /** The recursion ends on every manifest graph: each level visits an approved skill that its
    * ancestors have not. */
  function Load(w: World, id: SkillId, ancestry: seq<SkillId>): Result<Loaded, Error>
    decreases |Unvisited(w, ancestry)|, 0
  {
    if id in ancestry then Err(Cyclic)
    else
      var m :- LoadLocally(w, id);
      VisitShrinks(w, id, ancestry);
      var dependencies :- LoadAll(w, m.dependencies, ancestry + [id]);
      Ok(Loaded(m, w.approvals[id].approvedPackageSha256, dependencies))
  }

  function LoadAll(w: World, declarations: seq<Declaration>, ancestry: seq<SkillId>): Result<seq<Loaded>, Error>
    decreases |Unvisited(w, ancestry)|, 1 + |declarations|
  {
    if declarations == [] then Ok([])
    else
      var first :- Load(w, declarations[0].skillId, ancestry);
      if !Supports(declarations[0], first.manifest.version) then Err(Incompatible)
      else
        var rest :- LoadAll(w, declarations[1..], ancestry);
        Ok([first] + rest)
  }

  lemma {:induction false} VisitShrinks(w: World, id: SkillId, ancestry: seq<SkillId>)
    requires id in w.approvals && id !in ancestry
    ensures |Unvisited(w, ancestry + [id])| < |Unvisited(w, ancestry)|
  {
    assert Unvisited(w, ancestry + [id]) == Unvisited(w, ancestry) - {id};
    assert id in Unvisited(w, ancestry);
  }

  // ---------- the graph ----------

  /** Some declaration of the one skill's manifest names the other. */
  predicate Depends(w: World, id: SkillId, on: SkillId) {
    && id in w.packages && w.packages[id].manifest.Some?
    && exists i | 0 <= i < |w.packages[id].manifest.value.dependencies| ::
         w.packages[id].manifest.value.dependencies[i].skillId == on
  }

  predicate Walk(w: World, walk: seq<SkillId>) {
    walk != [] && forall i | 0 < i < |walk| :: Depends(w, walk[i - 1], walk[i])
  }

  predicate Compatible(w: World, d: Declaration) {
    && d.skillId in w.packages && w.packages[d.skillId].manifest.Some? && d.supportedVersions.Some?
    && w.packages[d.skillId].manifest.value.version in d.supportedVersions.value
  }

  /** The manifest speaks of this skill in its approved version, and every field is one the loader knows. */
  predicate Admissible(id: SkillId, approvedVersion: string, m: Manifest) {
    && m.skillId == id && m.version == approvedVersion
    && m.schemaVersion == m.resultContractVersion == "1.0" && m.uiSchemaVersion in {None, Some("1.0")}
    && m.runtimeType == Some("python") && m.entrypointIsFile && m.inputFilesAreArray
  }

  /** Approved, with an admissible manifest, the approved hash, and compatible declared dependencies. */
  predicate Sound(w: World, id: SkillId) {
    && id in w.approvals && id in w.packages && w.packages[id].manifest.Some?
    && Admissible(id, w.approvals[id].approvedVersion, w.packages[id].manifest.value)
    && w.packages[id].fingerprint == Some(w.approvals[id].approvedPackageSha256)
    && var declared := w.packages[id].manifest.value.dependencies;
       forall i | 0 <= i < |declared| :: Compatible(w, declared[i])
  }

  lemma {:induction false} ManifestChecks(w: World, id: SkillId, m: Manifest)
    requires id in w.approvals
    ensures m.skillId == id && ValidManifest(w, m, w.approvals[id])
       <==> Admissible(id, w.approvals[id].approvedVersion, m)
  {
    assert m.uiSchemaVersion == None || m.uiSchemaVersion == Some(m.uiSchemaVersion.value);
  }

  /** The checks in order accept exactly the packages that are sound by themselves. */
  lemma {:induction false} LocallySound(w: World, id: SkillId)
    ensures Sound(w, id) <==>
              var m := LoadLocally(w, id);
              m.Ok? && forall i | 0 <= i < |m.value.dependencies| :: Compatible(w, m.value.dependencies[i])
    ensures LoadLocally(w, id).Ok? ==>
              && w.packages[id].manifest == Some(LoadLocally(w, id).value)
              && w.packages[id].fingerprint == Some(w.approvals[id].approvedPackageSha256)
  {
    if id in w.approvals && id in w.packages && w.packages[id].manifest.Some? {
      ManifestChecks(w, id, w.packages[id].manifest.value);
    }
  }

  predicate NoRepeat(ids: seq<SkillId>) {
    forall i, j | 0 <= i < j < |ids| :: ids[i] != ids[j]
  }

  /** The walk ends in a sound skill and neither meets the ancestry nor itself. */
  predicate GoodWalk(w: World, ancestry: seq<SkillId>, walk: seq<SkillId>)
    requires walk != []
  {
    && Sound(w, walk[|walk| - 1])
    && NoRepeat(walk)
    && forall i | 0 <= i < |walk| :: walk[i] !in ancestry
  }

  ghost predicate AllWalksGood(w: World, id: SkillId, ancestry: seq<SkillId>) {
    forall walk | Walk(w, walk) && walk[0] == id :: GoodWalk(w, ancestry, walk)
  }

  lemma {:induction false} LoadedIsOwn(w: World, id: SkillId, ancestry: seq<SkillId>)
    requires Load(w, id, ancestry).Ok?
    ensures LoadLocally(w, id).Ok? && Load(w, id, ancestry).value.manifest == LoadLocally(w, id).value
    ensures id !in ancestry
    ensures LoadAll(w, LoadLocally(w, id).value.dependencies, ancestry + [id]).Ok?
  {
  }

  /** A list of declarations loads exactly when each loads and is compatible. */
  lemma {:induction false} AllLoad(w: World, declarations: seq<Declaration>, ancestry: seq<SkillId>)
    ensures LoadAll(w, declarations, ancestry).Ok? <==>
            forall i | 0 <= i < |declarations| ::
              Load(w, declarations[i].skillId, ancestry).Ok? && Compatible(w, declarations[i])
    decreases |declarations|
  {
    if declarations != [] {
      var first, rest := declarations[0], declarations[1..];
      AllLoad(w, rest, ancestry);
      if Load(w, first.skillId, ancestry).Ok? {
        LoadedIsOwn(w, first.skillId, ancestry);
      }
      assert forall i | 0 < i < |declarations| :: declarations[i] == rest[i - 1];
    }
  }

  lemma {:induction false} WalkExtends(w: World, id: SkillId, ancestry: seq<SkillId>, walk: seq<SkillId>)
    requires Walk(w, walk) && Depends(w, id, walk[0])
    ensures Walk(w, [id] + walk)
    ensures id !in ancestry && GoodWalk(w, ancestry + [id], walk) <==> GoodWalk(w, ancestry, [id] + walk)
  {
    var longer := [id] + walk;
    assert forall i | 0 <= i < |walk| :: longer[i + 1] == walk[i];
    assert longer[|longer| - 1] == walk[|walk| - 1];
    if GoodWalk(w, ancestry, longer) {
      assert longer[0] == id;
      forall i | 0 <= i < |walk|
        ensures walk[i] !in ancestry + [id]
      {
        assert longer[i + 1] != longer[0];
      }
      forall i, j | 0 <= i < j < |walk|
        ensures walk[i] != walk[j]
      {
        assert longer[i + 1] != longer[j + 1];
      }
    }
    if id !in ancestry && GoodWalk(w, ancestry + [id], walk) {
      forall i, j | 0 <= i < j < |longer|
        ensures longer[i] != longer[j]
      {
        assert walk[j - 1] !in ancestry + [id];
        assert i > 0 ==> walk[i - 1] != walk[j - 1];
      }
    }
  }

  lemma {:induction false} LoadedWalksAreGood(w: World, id: SkillId, ancestry: seq<SkillId>, walk: seq<SkillId>)
    requires Load(w, id, ancestry).Ok? && Walk(w, walk) && walk[0] == id
    ensures GoodWalk(w, ancestry, walk)
    decreases |walk|
  {
    LoadedIsOwn(w, id, ancestry);
    var m := LoadLocally(w, id).value;
    AllLoad(w, m.dependencies, ancestry + [id]);
    if |walk| > 1 {
      var rest := walk[1..];
      assert walk == [id] + rest;
      assert Depends(w, walk[0], walk[1]);
      var i :| 0 <= i < |m.dependencies| && m.dependencies[i].skillId == rest[0];
      assert forall j | 0 < j < |rest| :: Depends(w, walk[j], walk[j + 1]);
      LoadedWalksAreGood(w, rest[0], ancestry + [id], rest);
      WalkExtends(w, id, ancestry, rest);
    } else {
      LocallySound(w, id);
    }
  }

  lemma {:induction false} GoodWalksLoad(w: World, id: SkillId, ancestry: seq<SkillId>)
    requires AllWalksGood(w, id, ancestry)
    ensures Load(w, id, ancestry).Ok?
    decreases |Unvisited(w, ancestry)|
  {
    assert Walk(w, [id]) && [id][0] == id;
    assert GoodWalk(w, ancestry, [id]);
    LocallySound(w, id);
    var m := LoadLocally(w, id).value;
    VisitShrinks(w, id, ancestry);
    forall i | 0 <= i < |m.dependencies|
      ensures Load(w, m.dependencies[i].skillId, ancestry + [id]).Ok?
    {
      var on := m.dependencies[i].skillId;
      assert Depends(w, id, on);
      forall walk | Walk(w, walk) && walk[0] == on
        ensures GoodWalk(w, ancestry + [id], walk)
      {
        WalkExtends(w, id, ancestry, walk);
        assert ([id] + walk)[0] == id;
      }
      GoodWalksLoad(w, on, ancestry + [id]);
    }
    AllLoad(w, m.dependencies, ancestry + [id]);
  }

  /** A skill loads exactly when every walk along declared dependencies meets only approved, valid,
    * hash-matching and compatible skills and never comes back to one: no cycle is reachable. */
  lemma {:induction false} LoadsExactlyWhenGraphIsSound(w: World, id: SkillId)
    ensures Load(w, id, []).Ok? <==> AllWalksGood(w, id, [])
  {
    if Load(w, id, []).Ok? {
      forall walk | Walk(w, walk) && walk[0] == id
        ensures GoodWalk(w, [], walk)
      {
        LoadedWalksAreGood(w, id, [], walk);
      }
    } else if AllWalksGood(w, id, []) {
      GoodWalksLoad(w, id, []);
    }
  }

  // ---------- the loaded tree ----------

  /** A package whose bytes are not the approved ones is refused as such, however valid its manifest. */
  lemma {:induction false} TamperedPackageIsRefused(w: World, id: SkillId, ancestry: seq<SkillId>)
    requires id !in ancestry && id in w.approvals && id in w.packages && w.packages[id].manifest.Some?
    requires Admissible(id, w.approvals[id].approvedVersion, w.packages[id].manifest.value)
    requires w.packages[id].fingerprint.Some?
    requires w.packages[id].fingerprint.value != w.approvals[id].approvedPackageSha256
    ensures Load(w, id, ancestry) == Err(PackageUnapproved)
  {
    assert w.packages[id].manifest.value.skillId in w.approvals;
  }

  /** Every node carries its own package's manifest and hash, which are the approved ones, and its
    * children are its declared dependencies in order, in supported versions. */
  predicate Approved(w: World, tree: Loaded) {
    && tree.manifest.skillId in w.approvals && tree.manifest.skillId in w.packages
    && w.packages[tree.manifest.skillId] == Package(Some(tree.manifest), Some(tree.packageSha256))
    && tree.packageSha256 == w.approvals[tree.manifest.skillId].approvedPackageSha256
    && tree.manifest.version == w.approvals[tree.manifest.skillId].approvedVersion
    && |tree.dependencies| == |tree.manifest.dependencies|
    && forall i | 0 <= i < |tree.dependencies| ::
         && tree.dependencies[i].manifest.skillId == tree.manifest.dependencies[i].skillId
         && tree.manifest.dependencies[i].supportedVersions.Some?
         && tree.dependencies[i].manifest.version in tree.manifest.dependencies[i].supportedVersions.value
         && Approved(w, tree.dependencies[i])
  }

  lemma {:induction false} LoadedTreeIsApproved(w: World, id: SkillId, ancestry: seq<SkillId>)
    requires Load(w, id, ancestry).Ok?
    ensures Load(w, id, ancestry).value.manifest.skillId == id && Approved(w, Load(w, id, ancestry).value)
    decreases |Unvisited(w, ancestry)|, 0
  {
    var m := LoadLocally(w, id).value;
    VisitShrinks(w, id, ancestry);
    LoadedTreesAreApproved(w, m.dependencies, ancestry + [id]);
  }

  lemma {:induction false} LoadedTreesAreApproved(w: World, declarations: seq<Declaration>, ancestry: seq<SkillId>)
    requires LoadAll(w, declarations, ancestry).Ok?
    ensures var trees := LoadAll(w, declarations, ancestry).value;
            && |trees| == |declarations|
            && forall i | 0 <= i < |trees| ::
                 && trees[i].manifest.skillId == declarations[i].skillId
                 && Supports(declarations[i], trees[i].manifest.version)
                 && Approved(w, trees[i])
    decreases |Unvisited(w, ancestry)|, 1 + |declarations|
  {
    if declarations != [] {
      LoadedTreeIsApproved(w, declarations[0].skillId, ancestry);
      LoadedTreesAreApproved(w, declarations[1..], ancestry);
    }
  }
}
