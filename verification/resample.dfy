/** Stage 3: resample the fixed volume to 1 x 1 x 1 mm voxels with the Lanczos
    kernel. The prostate module first clones the volume and hardens the clone,
    since the resampling module ignores parent transforms; the generic module
    passes the volume itself. */
module ResampleStage {
  import opened Options
  import opened Geometry
  import opened Scene
  import opened Engines
  import opened Workflow

  const ResampledSuffix := "_Resampled_1x1x1mm"
  const HardenedSuffix := "_HardenedCopy"

  predicate ResampleReady(st: State) {
    VolumeAt(st.scene, Ref(st.run, FixedVolume)).Some?
  }

  /** Clones node `n` under `name`, files the clone next to the original and
      hardens it. */
  function HardenedCopy(s: Scene, n: NodeId, name: string): (r: Added)
    requires Valid(s) && n in s.nodes
    ensures Valid(r.scene)
    ensures r.id == s.nextId && r.scene.nextId == s.nextId + 1
    ensures r.scene.nodes.Keys == s.nodes.Keys + {r.id}
  {
    var c := Clone(s, n, name);
    var filed := SetItemParent(c.scene, c.id, StudyOf(s, Some(n)));
    Added(Harden(filed, c.id), c.id)
  }

  /** The copy holds the node with its parent transform baked in and has no
      parent transform; nothing else changes. */
  lemma HardenedCopyContents(s: Scene, n: NodeId, name: string)
    requires Valid(s) && n in s.nodes
    ensures var r := HardenedCopy(s, n, name);
            && r.scene.nodes[r.id] == Baked(s, n).(name := name)
            && (forall x | x in s.nodes :: r.scene.nodes[x] == s.nodes[x])
            && r.scene.parentTransform == s.parentTransform
  {
    var c := Clone(s, n, name);
    var filed := SetItemParent(c.scene, c.id, StudyOf(s, Some(n)));
    BakedClone(s, n, name);
    BakedIgnoresFiling(c.scene, filed, c.id);
    assert Harden(filed, c.id).parentTransform == s.parentTransform;
  }

  /** The copy is filed where the original is, and every filing is kept. */
  lemma HardenedCopyFiled(s: Scene, n: NodeId, name: string)
    requires Valid(s) && n in s.nodes
    ensures var r := HardenedCopy(s, n, name);
            && (r.id in r.scene.shParent <==> n in s.shParent)
            && (n in s.shParent ==> r.scene.shParent[r.id] == s.shParent[n])
            && (forall x | x in s.shParent :: x in r.scene.shParent && r.scene.shParent[x] == s.shParent[x])
  {
  }

  /** Making a hardened copy only adds to the scene. */
  lemma HardenedCopyExtends(s: Scene, n: NodeId, name: string)
    requires Valid(s) && n in s.nodes
    ensures Extends(s, HardenedCopy(s, n, name).scene)
  {
    HardenedCopyContents(s, n, name);
    HardenedCopyFiled(s, n, name);
  }

  /** The node the resampling module reads: the hardened copy (prostate) or
      the fixed volume itself (generic). */
  function ResampleInput(v: Variant, st: State): Node
    requires ResampleReady(st)
  {
    var f := Ref(st.run, FixedVolume).value;
    match v
    case Prostate => Baked(st.scene, f).(name := st.scene.nodes[f].name + HardenedSuffix)
    case Generic => st.scene.nodes[f]
  }

  /** The stage's effect once the fixed volume resolves. */
  function Resampled(v: Variant, st: State, resample: ScalarResampler): (after: State)
    requires Coherent(st) && ResampleReady(st)
    ensures Coherent(after)
    ensures SameBut(st.run, after.run, {FixedResampled, FixedVolumeHardened})
  {
    var f := Ref(st.run, FixedVolume).value;
    var name := st.scene.nodes[f].name;
    var input := ResampleInput(v, st);
    var output := AddNode(st.scene, Node(name + ResampledSuffix, ScalarVolume(resample(input, IsotropicLanczos)), "", []));
    var study := StudyOf(st.scene, Some(f));
    match v
    case Generic =>
      State(SetItemParent(output.scene, output.id, study), SetRef(st.run, FixedResampled, Some(output.id)))
    case Prostate =>
      var copy := HardenedCopy(output.scene, f, name + HardenedSuffix);
      State(SetItemParent(copy.scene, output.id, study),
            SetRef(SetRef(st.run, FixedResampled, Some(output.id)), FixedVolumeHardened, Some(copy.id)))
  }

  /** The resampling stage (resampleUS, resampleFixedVolume). */
  function Resample(v: Variant, st: State, resample: ScalarResampler): (o: Outcome)
    requires Coherent(st)
    ensures o.Skipped? <==> !ResampleReady(st)
    ensures o.Done? || o.Skipped?
    ensures o.Done? ==> Coherent(o.after) && SameBut(st.run, o.after.run, {FixedResampled, FixedVolumeHardened})
  {
    if !ResampleReady(st) then Skipped else Done(Resampled(v, st, resample))
  }

  /** The resampled volume is a new node holding the module's output for the
      1 mm Lanczos request, filed under the fixed volume's study. */
  lemma ResampleOutputFiled(v: Variant, st: State, resample: ScalarResampler)
    requires Coherent(st) && ResampleReady(st)
    ensures var after := Resample(v, st, resample).after;
            var f := Ref(st.run, FixedVolume).value;
            var out := Ref(after.run, FixedResampled);
            && out.Some? && out.value !in st.scene.nodes && out.value in after.scene.nodes
            && after.scene.nodes[out.value] ==
                 Node(st.scene.nodes[f].name + ResampledSuffix,
                      ScalarVolume(resample(ResampleInput(v, st), ResampleRequest("1,1,1", "lanczos"))), "", [])
            && (out.value in after.scene.shParent <==> f in st.scene.shParent)
            && (f in st.scene.shParent ==> after.scene.shParent[out.value] == st.scene.shParent[f])
  {
  }

  /** In the prostate variant the module reads a hardened copy: a new node,
      filed next to the fixed volume, holding the fixed volume with its parent
      transform baked in and no parent transform of its own. */
  lemma ResampleReadsHardenedCopy(st: State, resample: ScalarResampler)
    requires Coherent(st) && ResampleReady(st)
    ensures var after := Resample(Prostate, st, resample).after;
            var f := Ref(st.run, FixedVolume).value;
            var copy := Ref(after.run, FixedVolumeHardened);
            && copy.Some? && copy.value !in st.scene.nodes && copy.value in after.scene.nodes
            && copy.value !in after.scene.parentTransform
            && after.scene.nodes[copy.value] == ResampleInput(Prostate, st)
            && ResampleInput(Prostate, st) == Baked(st.scene, f).(name := st.scene.nodes[f].name + HardenedSuffix)
            && (copy.value in after.scene.shParent <==> f in st.scene.shParent)
  {
    var f := Ref(st.run, FixedVolume).value;
    var name := st.scene.nodes[f].name;
    var output := AddNode(st.scene, Node(name + ResampledSuffix,
                    ScalarVolume(resample(ResampleInput(Prostate, st), IsotropicLanczos)), "", []));
    HardenedCopyContents(output.scene, f, name + HardenedSuffix);
    HardenedCopyFiled(output.scene, f, name + HardenedSuffix);
    AddExtends(st.scene, output.scene.nodes[output.id]);
    BakedExtends(st.scene, output.scene, f);
  }

  /** In the generic variant the module reads the fixed volume as stored,
      whatever parent transform it has, and no copy is made. */
  lemma GenericResampleReadsOriginal(st: State, resample: ScalarResampler)
    requires Coherent(st) && ResampleReady(st)
    ensures var after := Resample(Generic, st, resample).after;
            && ResampleInput(Generic, st) == st.scene.nodes[Ref(st.run, FixedVolume).value]
            && Ref(after.run, FixedVolumeHardened) == Ref(st.run, FixedVolumeHardened)
            && after.scene.nodes.Keys == st.scene.nodes.Keys + {Ref(after.run, FixedResampled).value}
  {
  }

  /** The stage changes no node that existed before it. */
  lemma ResampleOnlyAdds(v: Variant, st: State, resample: ScalarResampler)
    requires Coherent(st) && ResampleReady(st)
    ensures Extends(st.scene, Resample(v, st, resample).after.scene)
  {
    var f := Ref(st.run, FixedVolume).value;
    var name := st.scene.nodes[f].name;
    var out := Node(name + ResampledSuffix, ScalarVolume(resample(ResampleInput(v, st), IsotropicLanczos)), "", []);
    var output := AddNode(st.scene, out);
    var study := StudyOf(st.scene, Some(f));
    AddExtends(st.scene, out);
    match v
    case Generic =>
      FileNewExtends(st.scene, output.scene, output.id, study);
    case Prostate =>
      var copy := HardenedCopy(output.scene, f, name + HardenedSuffix);
      HardenedCopyExtends(output.scene, f, name + HardenedSuffix);
      ExtendsTrans(st.scene, output.scene, copy.scene);
      FileNewExtends(st.scene, copy.scene, output.id, study);
  }
}
