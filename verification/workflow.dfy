/** The state one registration run works on, shared by both workflow variants:
    the prostate module (ultrasound = fixed, MRI = moving) and the generic
    segment-registration module. A stage is a function from a `State` to an
    `Outcome`. */
module Workflow {
  import opened Options
  import opened Geometry
  import opened Scene

  /** Which module's logic runs. They differ in segment lookup, hardened
      copies, labelmap geometry checks, labelmap filing and cleanup. */
  datatype Variant = Prostate | Generic

  /** The roles in which the logic object holds node references: the four
      inputs, then the nodes the stages create. */
  datatype Role =
    | FixedVolume | FixedSegmentation | MovingVolume | MovingSegmentation
    | MovingCropped | FixedResampled | FixedVolumeHardened
    | FixedSegmentationHardened | MovingSegmentationHardened
    | FixedLabelmap | MovingLabelmap | PreAlignment | Affine | Bspline

  /** The logic object's state: a node id per role that is set, the two
      segment selections and the keep-intermediates flag. A reference whose
      node is not live, or is of the wrong kind, behaves as unset. */
  datatype Run = Run(
    refs: map<Role, NodeId>,
    fixedSegment: string,
    movingSegment: string,
    keepIntermediateNodes: bool)

  function Ref(run: Run, role: Role): (r: Option<NodeId>)
    ensures r.Some? <==> role in run.refs
    ensures r.Some? ==> r.value == run.refs[role]
  {
    if role in run.refs then Some(run.refs[role]) else None
  }

  /** Sets (`Some`) or clears (`None`) the reference held in `role`. */
  function SetRef(run: Run, role: Role, ref: Option<NodeId>): (r: Run)
    ensures Ref(r, role) == ref
    ensures forall k | k != role :: Ref(r, k) == Ref(run, k)
    ensures r.(refs := run.refs) == run
  {
    match ref
    case Some(id) => run.(refs := run.refs[role := id])
    case None => run.(refs := run.refs - {role})
  }

  /** A run before any stage: the selected inputs and nothing else. */
  function Fresh(fixedVolume: Option<NodeId>, fixedSegmentation: Option<NodeId>, fixedSegment: string,
                 movingVolume: Option<NodeId>, movingSegmentation: Option<NodeId>, movingSegment: string,
                 keep: bool): (r: Run)
    ensures Ref(r, FixedVolume) == fixedVolume && Ref(r, FixedSegmentation) == fixedSegmentation
    ensures Ref(r, MovingVolume) == movingVolume && Ref(r, MovingSegmentation) == movingSegmentation
    ensures r.refs.Keys <= {FixedVolume, FixedSegmentation, MovingVolume, MovingSegmentation}
    ensures r.fixedSegment == fixedSegment && r.movingSegment == movingSegment && r.keepIntermediateNodes == keep
  {
    var empty := Run(map[], fixedSegment, movingSegment, keep);
    SetRef(SetRef(SetRef(SetRef(empty, FixedVolume, fixedVolume), FixedSegmentation, fixedSegmentation),
                  MovingVolume, movingVolume), MovingSegmentation, movingSegmentation)
  }

  datatype State = State(scene: Scene, run: Run)

  /** The scene is valid and every reference of the run names an id that has
      already been handed out, so fresh nodes never collide with a reference. */
  ghost predicate Coherent(st: State) {
    && Valid(st.scene)
    && forall k | k in st.run.refs :: st.run.refs[k] < st.scene.nextId
  }

  /** `after` differs from `before` at most in the references held in `roles`. */
  ghost predicate SameBut(before: Run, after: Run, roles: set<Role>) {
    && after.(refs := before.refs) == before
    && forall k | k !in roles :: Ref(after, k) == Ref(before, k)
  }

  /** A role outside the changed ones reads the same. */
  lemma RefUnchanged(before: Run, after: Run, roles: set<Role>, k: Role)
    requires SameBut(before, after, roles) && k !in roles
    ensures Ref(after, k) == Ref(before, k)
  {
  }

  /** Differences accumulate over consecutive stages. */
  lemma SameButTrans(a: Run, b: Run, c: Run, r1: set<Role>, r2: set<Role>)
    requires SameBut(a, b, r1) && SameBut(b, c, r2)
    ensures SameBut(a, c, r1 + r2)
  {
  }

  /** A stage that only grows the scene and sets or clears one reference to
      an issued id keeps the state coherent and the rest of the run as it was. */
  lemma Advance(st: State, s: Scene, role: Role, ref: Option<NodeId>)
    requires Coherent(st) && Valid(s) && st.scene.nextId <= s.nextId
    requires ref.Some? ==> ref.value < s.nextId
    ensures Coherent(State(s, SetRef(st.run, role, ref)))
    ensures SameBut(st.run, SetRef(st.run, role, ref), {role})
  {
  }

  /** A reference of a coherent state reads the same in a scene that only
      grew: its node, its segments and its study are unchanged. */
  lemma RefKept(st: State, s: Scene, role: Role)
    requires Coherent(st) && Valid(s) && Extends(st.scene, s)
    ensures VolumeAt(s, Ref(st.run, role)) == VolumeAt(st.scene, Ref(st.run, role))
    ensures SegmentsAt(s, Ref(st.run, role)) == SegmentsAt(st.scene, Ref(st.run, role))
    ensures StudyOf(s, Ref(st.run, role)) == StudyOf(st.scene, Ref(st.run, role))
  {
  }

  /** What a stage did. `Stopped` is an early return after the scene changed;
      `Faulted` is an exception (a `None` reference dereferenced). */
  datatype Outcome =
    | Skipped
    | Done(after: State)
    | Stopped(after: State)
    | Faulted(after: State)

  /** The state the next stage sees: stages return normally unless they fault. */
  function Continue(before: State, o: Outcome): State {
    match o
    case Skipped => before
    case Done(a) => a
    case Stopped(a) => a
    case Faulted(a) => a
  }

  /** A reference to a live node. */
  predicate Live(s: Scene, ref: Option<NodeId>) {
    ref.Some? && ref.value in s.nodes
  }

  /** The geometry of a volume (scalar or labelmap) reference. */
  function VolumeAt(s: Scene, ref: Option<NodeId>): (r: Option<ImageGeometry>)
    ensures r.Some? ==> ref.Some? && ref.value in s.nodes
  {
    if ref.Some? && ref.value in s.nodes then
      match s.nodes[ref.value].data
      case ScalarVolume(g) => Some(g)
      case LabelmapVolume(g) => Some(g)
      case _ => None
    else None
  }

  /** The segments of a segmentation reference. */
  function SegmentsAt(s: Scene, ref: Option<NodeId>): (r: Option<seq<Segment>>)
    ensures r.Some? ==> ref.Some? && ref.value in s.nodes && s.nodes[ref.value].data.Segmentation?
  {
    if ref.Some? && ref.value in s.nodes && s.nodes[ref.value].data.Segmentation? then
      Some(s.nodes[ref.value].data.segments)
    else None
  }

  /** The selected segment: the prostate module holds a segment name and goes
      through the case-insensitive name-to-id lookup; the generic module looks
      its selection up as a segment id. */
  function SelectedSegment(v: Variant, segments: seq<Segment>, selected: string): (r: Option<Segment>)
    ensures v.Prostate? ==> (r.Some? <==> exists i | 0 <= i < |segments| :: SameName(segments[i].name, selected))
    ensures v.Generic? ==> (r.Some? <==> exists i | 0 <= i < |segments| :: segments[i].id == selected)
    ensures r.Some? ==> r.value in segments
  {
    match v
    case Prostate =>
      var r := SegmentByName(segments, selected);
      assert r.Some? ==> r.value in segments by {
        if r.Some? {
          var id := SegmentIdByName(segments, selected).value;
          assert r == GetSegment(segments, id);
        }
      }
      r
    case Generic => GetSegment(segments, selected)
  }

  function FixedLabelmapName(v: Variant): string {
    match v
    case Prostate => "US_Prostate_Padded"
    case Generic => "Fixed_Structure_Padded"
  }

  function MovingLabelmapName(v: Variant): string {
    match v
    case Prostate => "MRI_Prostate_Padded"
    case Generic => "Moving_Structure_Padded"
  }

  function PreAlignmentName(v: Variant): string {
    match v
    case Prostate => "PreAlignmentMri2UsLinearTransform"
    case Generic => "PreAlignmentMoving2FixedLinearTransform"
  }

  const AffineName := "Affine Transform"
  const DeformableName := "Deformable Transform"
  const MovingImageCopyName := "MovingImageCopy"

  /** Nodes the registration engine derives from a labelmap, by name. */
  function EngineArtifacts(labelmap: string): seq<string> {
    [labelmap + "-Cropped", labelmap + "-Smoothed", labelmap + "-DistanceMap", labelmap + "-surface"]
  }

  /** The nine engine node names cleanup removes, in removal order. */
  function ArtifactNames(v: Variant): (r: seq<string>)
    ensures |r| == 9
  {
    EngineArtifacts(FixedLabelmapName(v)) + EngineArtifacts(MovingLabelmapName(v)) + [MovingImageCopyName]
  }
}
