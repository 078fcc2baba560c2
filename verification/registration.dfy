/** Stage 5 and the workflow as a whole: distance-map based registration,
    cleanup of the intermediate nodes, and performRegistration, which runs
    crop, pre-alignment, resampling, labelmap creation and registration in
    that order. */
module RegistrationStage {
  import opened Options
  import opened Scene
  import opened Engines
  import opened Workflow
  import opened CropStage
  import opened PreAlignStage
  import opened ResampleStage
  import opened LabelmapStage

  /** The images the engine is given: the fixed and moving volumes as
      selected (not the resampled or cropped ones) and the two labelmaps. */
  function EngineInputsOf(run: Run): (r: EngineInputs)
    ensures r.fixedVolume == Ref(run, FixedVolume) && r.movingVolume == Ref(run, MovingVolume)
    ensures r.fixedLabelmap == Ref(run, FixedLabelmap) && r.movingLabelmap == Ref(run, MovingLabelmap)
  {
    EngineInputs(Ref(run, FixedVolume), Ref(run, FixedLabelmap), Ref(run, MovingVolume), Ref(run, MovingLabelmap))
  }

  const AffineNode := Node(AffineName, AffineTransform, "", [])
  const BsplineNode := Node(DeformableName, BSplineTransform, "", [])

  /** A node the engine creates for its own use. */
  function OutputNode(name: string): Node {
    Node(name, EngineOutput, "", [])
  }

  /** The engine's own nodes, added under `names` in order. */
  function AddOutputs(s: Scene, names: seq<string>): (r: Scene)
    requires Valid(s)
    ensures Valid(r) && r.nextId == s.nextId + |names|
    ensures forall id :: id in r.nodes <==> id in s.nodes || s.nextId <= id < s.nextId + |names|
    ensures forall id | id in s.nodes :: r.nodes[id] == s.nodes[id]
    ensures forall id | s.nextId <= id < s.nextId + |names| :: r.nodes[id] == OutputNode(names[id - s.nextId])
    ensures r.parentTransform == s.parentTransform && r.shParent == s.shParent
    decreases |names|
  {
    if names == [] then s
    else AddOutputs(AddNode(s, OutputNode(names[0])).scene, names[1..])
  }

  /** The node `getNode(name)` finds among the ids below `bound`: the
      newest live node of that name, since a later node of the same name
      shadows earlier ones in the name lookup. */
  function NewestNamed(s: Scene, name: string, bound: nat): (r: Option<NodeId>)
    ensures r.Some? ==> r.value in s.nodes && s.nodes[r.value].name == name && r.value < bound
    ensures forall id | id in s.nodes && id < bound && s.nodes[id].name == name :: r.Some? && id <= r.value
    decreases bound
  {
    if bound == 0 then None
    else if bound - 1 in s.nodes && s.nodes[bound - 1].name == name then Some(bound - 1)
    else NewestNamed(s, name, bound - 1)
  }

  /** Removes, for each name in turn, the node the name lookup finds; a name
      that finds nothing removes nothing. */
  function RemoveNamed(s: Scene, names: seq<string>): (r: Scene)
    requires Valid(s)
    ensures Valid(r) && r.nextId == s.nextId
    ensures r.nodes.Keys <= s.nodes.Keys
    ensures forall id | id in r.nodes :: r.nodes[id] == s.nodes[id]
    decreases |names|
  {
    if names == [] then s
    else
      var found := NewestNamed(s, names[0], s.nextId);
      var s1 := if found.Some? then RemoveNodes(s, {found.value}) else s;
      RemoveNamed(s1, names[1..])
  }

  /** A node whose name is not looked up survives the removals. */
  lemma {:induction false} RemoveNamedKeeps(s: Scene, names: seq<string>, x: NodeId)
    requires Valid(s) && x in s.nodes && s.nodes[x].name !in names
    ensures x in RemoveNamed(s, names).nodes
    decreases |names|
  {
    if names != [] {
      var found := NewestNamed(s, names[0], s.nextId);
      var s1 := if found.Some? then RemoveNodes(s, {found.value}) else s;
      assert x in s1.nodes;
      assert s1.nodes[x] == s.nodes[x];
      RemoveNamedKeeps(s1, names[1..], x);
    }
  }

  /** When the nodes at `base`, `base + 1`, ... are the newest in the scene
      and carry the distinct `names` in order, the removals take out exactly
      those nodes. */
  lemma {:induction false} RemoveNamedNewest(s: Scene, names: seq<string>, base: NodeId)
    requires Valid(s)
    requires forall i, j | 0 <= i < j < |names| :: names[i] != names[j]
    requires forall id | base <= id < base + |names| :: id in s.nodes && s.nodes[id].name == names[id - base]
    requires forall id | id in s.nodes :: id < base + |names|
    ensures forall id :: id in RemoveNamed(s, names).nodes <==> id in s.nodes && !(base <= id < base + |names|)
    decreases |names|
  {
    if names != [] {
      var found := NewestNamed(s, names[0], s.nextId);
      assert base in s.nodes && s.nodes[base].name == names[0];
      assert found == Some(base);
      var s1 := RemoveNodes(s, {base});
      var rest := names[1..];
      assert forall i, j | 0 <= i < j < |rest| :: rest[i] != rest[j] by {
        forall i, j | 0 <= i < j < |rest|
          ensures rest[i] != rest[j]
        {
          assert rest[i] == names[i + 1] && rest[j] == names[j + 1];
        }
      }
      forall id | base + 1 <= id < base + 1 + |rest|
        ensures id in s1.nodes && s1.nodes[id].name == rest[id - (base + 1)]
      {
        assert rest[id - (base + 1)] == names[id - base];
      }
      RemoveNamedNewest(s1, rest, base + 1);
      assert RemoveNamed(s, names) == RemoveNamed(s1, rest);
    }
  }

  /** The roles whose nodes cleanup removes: the prostate module's seven
      intermediates, the generic module's three. */
  function IntermediateRoles(v: Variant): set<Role> {
    match v
    case Prostate =>
      {MovingCropped, FixedResampled, FixedLabelmap, MovingLabelmap,
       FixedVolumeHardened, MovingSegmentationHardened, FixedSegmentationHardened}
    case Generic => {FixedResampled, FixedLabelmap, MovingLabelmap}
  }

  /** The node ids the given roles hold. */
  function IdsOf(roles: set<Role>, run: Run): (r: set<NodeId>)
    ensures forall id :: id in r <==> exists k | k in roles :: Ref(run, k) == Some(id)
  {
    set k | k in run.refs && k in roles :: run.refs[k]
  }

  /** The ids held in roles a stage leaves alone are the same after it. */
  lemma IdsOfKept(roles: set<Role>, before: Run, after: Run, changed: set<Role>)
    requires SameBut(before, after, changed) && roles !! changed
    ensures IdsOf(roles, after) == IdsOf(roles, before)
  {
    forall id | id in IdsOf(roles, after)
      ensures id in IdsOf(roles, before)
    {
      var k :| k in roles && Ref(after, k) == Some(id);
      assert Ref(before, k) == Some(id);
    }
    forall id | id in IdsOf(roles, before)
      ensures id in IdsOf(roles, after)
    {
      var k :| k in roles && Ref(before, k) == Some(id);
      assert Ref(after, k) == Some(id);
    }
  }

  /** A coherent state's roles hold only issued ids. */
  lemma IdsOfIssued(roles: set<Role>, st: State)
    requires Coherent(st)
    ensures forall id | id in IdsOf(roles, st.run) :: id < st.scene.nextId
  {
    forall id | id in IdsOf(roles, st.run)
      ensures id < st.scene.nextId
    {
      var k :| k in roles && Ref(st.run, k) == Some(id);
    }
  }

  ghost predicate Distinct(names: seq<string>) {
    forall i, j | 0 <= i < j < |names| :: names[i] != names[j]
  }

  /** Length, first and last character of each engine node name. */
  lemma EngineArtifactsShape(labelmap: string)
    requires |labelmap| > 0
    ensures var r := EngineArtifacts(labelmap);
            && |r| == 4
            && |r[0]| == |labelmap| + 8 && |r[1]| == |labelmap| + 9
            && |r[2]| == |labelmap| + 12 && |r[3]| == |labelmap| + 8
            && (forall k | 0 <= k < 4 :: r[k][0] == labelmap[0])
            && r[0][|r[0]| - 1] == 'd' && r[1][|r[1]| - 1] == 'd'
            && r[2][|r[2]| - 1] == 'p' && r[3][|r[3]| - 1] == 'e'
  {
  }

  /** Length, first and last character: enough to tell the engine's node
      names apart. */
  function Signature(name: string): (int, char, char)
    requires |name| > 0
  {
    (|name|, name[0], name[|name| - 1])
  }

  /** The nine engine node names are distinct, and none is the name of an
      output transform. */
  lemma ArtifactNamesDistinct(v: Variant)
    ensures Distinct(ArtifactNames(v))
    ensures AffineName !in ArtifactNames(v) && DeformableName !in ArtifactNames(v)
  {
    var f := FixedLabelmapName(v);
    var m := MovingLabelmapName(v);
    assert |f| >= 18 && |m| == |f| + 1 && f[0] != m[0] && m[0] == 'M';
    EngineArtifactsShape(f);
    EngineArtifactsShape(m);
    var names := ArtifactNames(v);
    assert names == EngineArtifacts(f) + EngineArtifacts(m) + [MovingImageCopyName];
    assert |MovingImageCopyName| == 15 && AffineName[0] == 'A' && DeformableName[0] == 'D';
    forall i, j | 0 <= i < j < 9
      ensures names[i] != names[j]
    {
      assert Signature(names[i]) != Signature(names[j]);
    }
    forall i | 0 <= i < 9
      ensures names[i] != AffineName && names[i] != DeformableName
    {
      assert names[i][0] == 'M' || names[i][0] == f[0];
    }
  }

  /** What a module's registration stage creates and cleans up: the roles
      whose nodes are intermediates, the names of the engine's own nodes,
      and the two output transform nodes. */
  datatype Plan = Plan(intermediates: set<Role>, artifacts: seq<string>, affine: Node, bspline: Node)

  function PlanOf(v: Variant): Plan {
    Plan(IntermediateRoles(v), ArtifactNames(v), AffineNode, BsplineNode)
  }

  /** Cleanup spares the transforms: no intermediate role holds them and no
      engine node name is theirs. The engine's names are distinct. */
  ghost predicate Sound(p: Plan) {
    && Affine !in p.intermediates && Bspline !in p.intermediates
    && Distinct(p.artifacts)
    && p.affine.name !in p.artifacts && p.bspline.name !in p.artifacts
  }

  lemma PlanOfSound(v: Variant)
    ensures Sound(PlanOf(v))
  {
    ArtifactNamesDistinct(v);
  }

  /** Removes the nodes the intermediate roles hold, then the nodes the name
      lookup finds for the engine's names. The run keeps its (now stale)
      references. */
  function CleanupOf(p: Plan, st: State): (after: State)
    requires Coherent(st)
    ensures Coherent(after) && after.run == st.run
    ensures after.scene.nodes.Keys <= st.scene.nodes.Keys - IdsOf(p.intermediates, st.run)
    ensures forall id | id in after.scene.nodes :: after.scene.nodes[id] == st.scene.nodes[id]
  {
    var s1 := RemoveNodes(st.scene, IdsOf(p.intermediates, st.run));
    State(RemoveNamed(s1, p.artifacts), st.run)
  }

  /** Cleanup (removeIntermedateNodes): the variant's intermediates, then its
      nine engine nodes by name. */
  function Cleanup(v: Variant, st: State): (after: State)
    requires Coherent(st)
    ensures Coherent(after) && after.run == st.run
    ensures after.scene.nodes.Keys <= st.scene.nodes.Keys - IdsOf(IntermediateRoles(v), st.run)
  {
    CleanupOf(PlanOf(v), st)
  }

  /** Cleanup keeps a node that no intermediate role holds and no engine
      name finds. */
  lemma CleanupKeeps(p: Plan, st: State, x: NodeId)
    requires Coherent(st) && x in st.scene.nodes && x !in IdsOf(p.intermediates, st.run)
    requires st.scene.nodes[x].name !in p.artifacts
    ensures x in CleanupOf(p, st).scene.nodes
  {
    RemoveNamedKeeps(RemoveNodes(st.scene, IdsOf(p.intermediates, st.run)), p.artifacts, x);
  }

  /** When the nodes from `base` on are the newest and carry the distinct
      engine names in order, cleanup removes exactly them and the
      intermediates. */
  lemma CleanupRemoves(p: Plan, st: State, base: NodeId)
    requires Coherent(st) && Distinct(p.artifacts)
    requires forall id | base <= id < base + |p.artifacts| ::
               id in st.scene.nodes && st.scene.nodes[id].name == p.artifacts[id - base]
    requires forall id | id in st.scene.nodes :: id < base + |p.artifacts|
    requires forall id | id in IdsOf(p.intermediates, st.run) :: id < base
    ensures forall id :: id in CleanupOf(p, st).scene.nodes <==>
              id in st.scene.nodes && id !in IdsOf(p.intermediates, st.run) && !(base <= id < base + |p.artifacts|)
  {
    RemoveNamedNewest(RemoveNodes(st.scene, IdsOf(p.intermediates, st.run)), p.artifacts, base);
  }

  /** The roles the registration stage sets. */
  const TransformRoles: set<Role> := {Affine, Bspline}

  /** What a registration call ends with. `Raised`: an exception left
      performRegistration (the labelmap stage dereferenced `None`).
      `Returned`: it returned, truthy exactly when `success`. */
  datatype RegistrationResult = Raised(after: State) | Returned(after: State, success: bool)

  /** The state once the two output transforms have been created and
      handed to the engine. */
  function WithTransforms(p: Plan, st: State): (after: State)
    requires Coherent(st)
    ensures Coherent(after) && SameBut(st.run, after.run, TransformRoles)
    ensures Ref(after.run, Affine) == Some(st.scene.nextId) && Ref(after.run, Bspline) == Some(st.scene.nextId + 1)
    ensures after.scene.nextId == st.scene.nextId + 2
    ensures forall id :: id in after.scene.nodes <==> id in st.scene.nodes || id == st.scene.nextId || id == st.scene.nextId + 1
    ensures forall id | id in st.scene.nodes :: after.scene.nodes[id] == st.scene.nodes[id]
    ensures after.scene.nodes[st.scene.nextId] == p.affine && after.scene.nodes[st.scene.nextId + 1] == p.bspline
  {
    var a := st.scene.nextId;
    var s := AddNode(AddNode(st.scene, p.affine).scene, p.bspline).scene;
    var run1 := SetRef(st.run, Affine, Some(a));
    Advance(st, s, Affine, Some(a));
    Advance(State(s, run1), s, Bspline, Some(a + 1));
    State(s, SetRef(run1, Bspline, Some(a + 1)))
  }

  /** The state once the engine has finished and added its nodes. */
  function EngineRan(names: seq<string>, st: State): (after: State)
    requires Coherent(st)
    ensures Coherent(after) && after.run == st.run
    ensures var base := st.scene.nextId;
            && after.scene.nextId == base + |names|
            && (forall id :: id in after.scene.nodes <==> id in st.scene.nodes || base <= id < base + |names|)
            && (forall id | id in st.scene.nodes :: after.scene.nodes[id] == st.scene.nodes[id])
            && (forall id | base <= id < base + |names| :: after.scene.nodes[id] == OutputNode(names[id - base]))
  {
    State(AddOutputs(st.scene, names), st.run)
  }

  /** The state after the engine call: unchanged when the engine raised;
      otherwise with the engine's nodes added and, unless intermediates are
      kept, cleaned up again. */
  function Finish(p: Plan, st: State, finished: bool): (after: State)
    requires Coherent(st)
    ensures Coherent(after) && after.run == st.run
  {
    if !finished then st
    else if st.run.keepIntermediateNodes then EngineRan(p.artifacts, st)
    else CleanupOf(p, EngineRan(p.artifacts, st))
  }

  /** The registration stage under a plan: creates the two transforms, runs
      the engine, and on success cleans up unless intermediates are kept. An
      engine exception is caught and the stage returns a falsy result. */
  function RegisterWith(p: Plan, st: State, engine: RegistrationEngine): (r: RegistrationResult)
    requires Coherent(st)
    ensures r.Returned? && Coherent(r.after)
    ensures SameBut(st.run, r.after.run, TransformRoles)
    ensures Ref(r.after.run, Affine) == Some(st.scene.nextId)
    ensures Ref(r.after.run, Bspline) == Some(st.scene.nextId + 1)
    ensures r.success <==> engine(EngineInputsOf(st.run)) == Finished
  {
    var finished := engine(EngineInputsOf(st.run)) == Finished;
    Returned(Finish(p, WithTransforms(p, st), finished), finished)
  }

  /** The registration stage (performDistanceBasedRegistration) of either
      variant. */
  function Register(v: Variant, st: State, engine: RegistrationEngine): (r: RegistrationResult)
    requires Coherent(st)
    ensures r.Returned? && Coherent(r.after)
    ensures SameBut(st.run, r.after.run, TransformRoles)
    ensures Ref(r.after.run, Affine) == Some(st.scene.nextId)
    ensures Ref(r.after.run, Bspline) == Some(st.scene.nextId + 1)
    ensures r.success <==> engine(EngineInputsOf(st.run)) == Finished
  {
    RegisterWith(PlanOf(v), st, engine)
  }

  /** The engine's verdict depends only on the four images it is handed:
      two states that agree on the selected volumes and the labelmaps
      register alike, whatever resampled, cropped or hardened nodes they hold. */
  lemma RegisterReadsOnlyInputs(v: Variant, st1: State, st2: State, engine: RegistrationEngine)
    requires Coherent(st1) && Coherent(st2)
    requires Ref(st1.run, FixedVolume) == Ref(st2.run, FixedVolume)
    requires Ref(st1.run, MovingVolume) == Ref(st2.run, MovingVolume)
    requires Ref(st1.run, FixedLabelmap) == Ref(st2.run, FixedLabelmap)
    requires Ref(st1.run, MovingLabelmap) == Ref(st2.run, MovingLabelmap)
    ensures Register(v, st1, engine).success == Register(v, st2, engine).success
  {
  }

  /** A node no intermediate role holds and no engine name finds is still
      there, unchanged, after the engine call. */
  lemma FinishSpares(p: Plan, st: State, finished: bool, x: NodeId)
    requires Coherent(st) && x in st.scene.nodes && x !in IdsOf(p.intermediates, st.run)
    requires st.scene.nodes[x].name !in p.artifacts
    ensures var s := Finish(p, st, finished).scene;
            x in s.nodes && s.nodes[x] == st.scene.nodes[x]
  {
    if finished && !st.run.keepIntermediateNodes {
      CleanupKeeps(p, EngineRan(p.artifacts, st), x);
    }
  }

  /** Without cleanup every node is still there, unchanged. */
  lemma FinishKeepsAll(p: Plan, st: State, finished: bool, x: NodeId)
    requires Coherent(st) && (st.run.keepIntermediateNodes || !finished) && x in st.scene.nodes
    ensures var s := Finish(p, st, finished).scene;
            x in s.nodes && s.nodes[x] == st.scene.nodes[x]
  {
  }

  /** With intermediates kept, the engine's nodes follow the earlier ones. */
  lemma FinishKeepsOutputs(p: Plan, st: State, id: NodeId)
    requires Coherent(st) && st.run.keepIntermediateNodes
    requires st.scene.nextId <= id < st.scene.nextId + |p.artifacts|
    ensures var s := Finish(p, st, true).scene;
            id in s.nodes && s.nodes[id] == OutputNode(p.artifacts[id - st.scene.nextId])
  {
  }

  /** Cleanup right after the engine ran removes every node the engine
      added and the intermediates, and nothing else. */
  lemma FinishCleansUp(p: Plan, st: State)
    requires Coherent(st) && Distinct(p.artifacts) && !st.run.keepIntermediateNodes
    requires forall id | id in IdsOf(p.intermediates, st.run) :: id < st.scene.nextId
    ensures forall id :: id in Finish(p, st, true).scene.nodes <==>
              id in st.scene.nodes && id !in IdsOf(p.intermediates, st.run)
  {
    var ran := EngineRan(p.artifacts, st);
    assert IdsOf(p.intermediates, ran.run) == IdsOf(p.intermediates, st.run);
    CleanupRemoves(p, ran, st.scene.nextId);
  }

  /** Creating the transforms leaves the intermediates' ids alone, and
      those are all older than the transforms. */
  lemma TransformsAfterIntermediates(p: Plan, st: State)
    requires Coherent(st) && Sound(p)
    ensures IdsOf(p.intermediates, WithTransforms(p, st).run) == IdsOf(p.intermediates, st.run)
    ensures forall id | id in IdsOf(p.intermediates, st.run) :: id < st.scene.nextId
  {
    IdsOfKept(p.intermediates, st.run, WithTransforms(p, st).run, TransformRoles);
    IdsOfIssued(p.intermediates, st);
  }

  /** The two transforms are new nodes and survive cleanup. */
  lemma RegisterWithCreatesTransforms(p: Plan, st: State, engine: RegistrationEngine)
    requires Coherent(st) && Sound(p)
    ensures var s := RegisterWith(p, st, engine).after.scene;
            var a := st.scene.nextId;
            && a !in st.scene.nodes && a + 1 !in st.scene.nodes
            && a in s.nodes && s.nodes[a] == p.affine
            && a + 1 in s.nodes && s.nodes[a + 1] == p.bspline
  {
    var a := st.scene.nextId;
    var tf := WithTransforms(p, st);
    var finished := engine(EngineInputsOf(st.run)) == Finished;
    TransformsAfterIntermediates(p, st);
    FinishSpares(p, tf, finished, a);
    FinishSpares(p, tf, finished, a + 1);
  }

  /** The affine and B-spline transforms are new nodes left in the scene. */
  lemma RegisterCreatesTransforms(v: Variant, st: State, engine: RegistrationEngine)
    requires Coherent(st)
    ensures var s := Register(v, st, engine).after.scene;
            var a := st.scene.nextId;
            && a !in st.scene.nodes && a + 1 !in st.scene.nodes
            && a in s.nodes && s.nodes[a] == AffineNode
            && a + 1 in s.nodes && s.nodes[a + 1] == BsplineNode
  {
    PlanOfSound(v);
    RegisterWithCreatesTransforms(PlanOf(v), st, engine);
  }

  /** With intermediates kept, or when the engine raised, no node is removed
      or changed. */
  lemma RegisterKeepsNodes(v: Variant, st: State, engine: RegistrationEngine, x: NodeId)
    requires Coherent(st) && x in st.scene.nodes
    requires st.run.keepIntermediateNodes || engine(EngineInputsOf(st.run)) == Threw
    ensures var s := Register(v, st, engine).after.scene;
            x in s.nodes && s.nodes[x] == st.scene.nodes[x]
  {
    var tf := WithTransforms(PlanOf(v), st);
    FinishKeepsAll(PlanOf(v), tf, engine(EngineInputsOf(st.run)) == Finished, x);
  }

  /** With intermediates kept, the engine's nodes stay in the scene, after
      the two transforms. */
  lemma RegisterWithKeepsOutputs(p: Plan, st: State, engine: RegistrationEngine, id: NodeId)
    requires Coherent(st) && st.run.keepIntermediateNodes && engine(EngineInputsOf(st.run)) == Finished
    requires st.scene.nextId + 2 <= id < st.scene.nextId + 2 + |p.artifacts|
    ensures var s := RegisterWith(p, st, engine).after.scene;
            id in s.nodes && s.nodes[id] == OutputNode(p.artifacts[id - st.scene.nextId - 2])
  {
    FinishKeepsOutputs(p, WithTransforms(p, st), id);
  }

  /** After a successful run without keeping intermediates, the scene holds
      exactly the nodes it held before the stage less the intermediates,
      plus the two transforms: every engine node is gone. */
  lemma RegisterWithCleansUp(p: Plan, st: State, engine: RegistrationEngine)
    requires Coherent(st) && Sound(p)
    requires !st.run.keepIntermediateNodes && engine(EngineInputsOf(st.run)) == Finished
    ensures var s := RegisterWith(p, st, engine).after.scene;
            var a := st.scene.nextId;
            forall id :: id in s.nodes <==>
              (id in st.scene.nodes && id !in IdsOf(p.intermediates, st.run)) || id == a || id == a + 1
  {
    var a := st.scene.nextId;
    var tf := WithTransforms(p, st);
    TransformsAfterIntermediates(p, st);
    FinishCleansUp(p, tf);
    var s := Finish(p, tf, true).scene;
    assert RegisterWith(p, st, engine).after.scene == s;
  }

  /** After a successful registration without keeping intermediates, the
      intermediates and the nine engine nodes are removed and nothing else:
      the scene holds the nodes it held before the stage, less the
      intermediates, plus the two transforms. */
  lemma RegisterCleansUp(v: Variant, st: State, engine: RegistrationEngine)
    requires Coherent(st) && !st.run.keepIntermediateNodes && engine(EngineInputsOf(st.run)) == Finished
    ensures var s := Register(v, st, engine).after.scene;
            var a := st.scene.nextId;
            forall id :: id in s.nodes <==>
              (id in st.scene.nodes && id !in IdsOf(IntermediateRoles(v), st.run)) || id == a || id == a + 1
  {
    PlanOfSound(v);
    RegisterWithCleansUp(PlanOf(v), st, engine);
  }

  /** The roles the preparation stages set. */
  const PreparedRoles: set<Role> := {MovingCropped, PreAlignment, FixedResampled, FixedVolumeHardened}

  /** The roles each stage sets are apart from the ones later stages read. */
  lemma RolesApart()
    ensures FixedVolume !in PreparedRoles && FixedSegmentation !in PreparedRoles
    ensures MovingVolume !in PreparedRoles && MovingSegmentation !in PreparedRoles
    ensures FixedVolume !in LabelmapRoles && MovingVolume !in LabelmapRoles
    ensures FixedLabelmap !in TransformRoles && MovingLabelmap !in TransformRoles
  {
  }

  /** The state registration starts from: the four preparation stages run in
      order, each on the previous one's result, none stopping the next. */
  function Prepare(v: Variant, st: State, crop: CropEngine, resample: ScalarResampler): (r: State)
    requires Coherent(st)
    ensures Coherent(r)
    ensures SameBut(st.run, r.run, PreparedRoles)
  {
    var cropped := Continue(st, Crop(st, crop));
    var aligned := Continue(cropped, PreAlign(v, cropped));
    var resampled := Continue(aligned, Resample(v, aligned, resample));
    SameButTrans(st.run, cropped.run, aligned.run, {MovingCropped}, {PreAlignment});
    SameButTrans(st.run, aligned.run, resampled.run, {MovingCropped, PreAlignment}, {FixedResampled, FixedVolumeHardened});
    resampled
  }

  /** performRegistration: crop, pre-align, resample, labelmaps, then
      registration, whose result is the workflow's. Only the labelmap stage
      can raise. */
  function PerformRegistration(v: Variant, st: State, crop: CropEngine, resample: ScalarResampler,
                               engine: RegistrationEngine): (r: RegistrationResult)
    requires Coherent(st)
    ensures Coherent(r.after)
  {
    var labelled := Labelmaps(v, Prepare(v, st, crop, resample));
    if labelled.Faulted? then Raised(labelled.after) else Register(v, labelled.after, engine)
  }

  /** A run that differs only in derived roles has the same inputs and
      selections. */
  lemma InputsKept(before: Run, after: Run, roles: set<Role>)
    requires SameBut(before, after, roles)
    requires FixedVolume !in roles && FixedSegmentation !in roles
    requires MovingVolume !in roles && MovingSegmentation !in roles
    ensures after.fixedSegment == before.fixedSegment && after.movingSegment == before.movingSegment
    ensures after.keepIntermediateNodes == before.keepIntermediateNodes
    ensures Ref(after, FixedVolume) == Ref(before, FixedVolume)
    ensures Ref(after, FixedSegmentation) == Ref(before, FixedSegmentation)
    ensures Ref(after, MovingVolume) == Ref(before, MovingVolume)
    ensures Ref(after, MovingSegmentation) == Ref(before, MovingSegmentation)
  {
    assert after.(refs := before.refs) == before;
  }

  /** No preparation stage changes the input references or the segment
      selections. */
  lemma PrepareKeepsInputs(v: Variant, st: State, crop: CropEngine, resample: ScalarResampler)
    requires Coherent(st)
    ensures var p := Prepare(v, st, crop, resample);
            && p.run.fixedSegment == st.run.fixedSegment && p.run.movingSegment == st.run.movingSegment
            && p.run.keepIntermediateNodes == st.run.keepIntermediateNodes
            && Ref(p.run, FixedVolume) == Ref(st.run, FixedVolume)
            && Ref(p.run, FixedSegmentation) == Ref(st.run, FixedSegmentation)
            && Ref(p.run, MovingVolume) == Ref(st.run, MovingVolume)
            && Ref(p.run, MovingSegmentation) == Ref(st.run, MovingSegmentation)
  {
    RolesApart();
    InputsKept(st.run, Prepare(v, st, crop, resample).run, PreparedRoles);
  }

  /** The workflow raises exactly when something the labelmap stage reads is
      missing after preparation; otherwise it returns the registration result. */
  lemma PerformRegistrationRaisesIff(v: Variant, st: State, crop: CropEngine, resample: ScalarResampler,
                                     engine: RegistrationEngine)
    requires Coherent(st)
    ensures PerformRegistration(v, st, crop, resample, engine).Raised?
        <==> !LabelmapsReady(v, Prepare(v, st, crop, resample))
  {
    LabelmapsFaultIff(v, Prepare(v, st, crop, resample));
  }

  /** The workflow succeeds exactly when the labelmap stage can read its
      inputs and the engine, given the originally selected volumes and the
      two new labelmaps, finishes. */
  lemma PerformRegistrationSucceedsIff(v: Variant, st: State, crop: CropEngine, resample: ScalarResampler,
                                       engine: RegistrationEngine)
    requires Coherent(st)
    ensures var r := PerformRegistration(v, st, crop, resample, engine);
            var p := Prepare(v, st, crop, resample);
            && (r.Returned? && r.success <==>
                 LabelmapsReady(v, p)
                 && engine(EngineInputs(Ref(st.run, FixedVolume), Ref(r.after.run, FixedLabelmap),
                                        Ref(st.run, MovingVolume), Ref(r.after.run, MovingLabelmap))) == Finished)
            && (r.Returned? ==> Ref(r.after.run, FixedLabelmap).Some? && Ref(r.after.run, MovingLabelmap).Some?)
  {
    var p := Prepare(v, st, crop, resample);
    var o := Labelmaps(v, p);
    PrepareKeepsInputs(v, st, crop, resample);
    LabelmapsFaultIff(v, p);
    LabelmapsSetRefs(v, p);
    if o.Done? {
      RolesApart();
      var r := Register(v, o.after, engine);
      RefUnchanged(o.after.run, r.after.run, TransformRoles, FixedLabelmap);
      RefUnchanged(o.after.run, r.after.run, TransformRoles, MovingLabelmap);
      RefUnchanged(p.run, o.after.run, LabelmapRoles, FixedVolume);
      RefUnchanged(p.run, o.after.run, LabelmapRoles, MovingVolume);
    }
  }
}
