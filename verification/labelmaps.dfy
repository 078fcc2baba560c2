/** Stage 4: turn the two selected segments into labelmap volumes on the
    cropped moving volume's grid. The prostate module first makes hardened
    copies of both segmentations and reads the segments from them; the generic
    module reads the segmentations as they are. */
module LabelmapStage {
  import opened Options
  import opened Geometry
  import opened Scene
  import opened Engines
  import opened Workflow
  import opened PreAlignStage
  import opened ResampleStage

  /** Both segmentations resolve; without them the stage raises at once. */
  predicate SegmentationsPresent(st: State) {
    SegmentsAt(st.scene, Ref(st.run, FixedSegmentation)).Some?
    && SegmentsAt(st.scene, Ref(st.run, MovingSegmentation)).Some?
  }

  /** The prostate module's hardened copy of the moving (MR) segmentation,
      filed next to its original. */
  function HardenMoving(st: State): (after: State)
    requires Coherent(st) && SegmentsAt(st.scene, Ref(st.run, MovingSegmentation)).Some?
    ensures Coherent(after)
    ensures SameBut(st.run, after.run, {MovingSegmentationHardened})
    ensures Ref(after.run, MovingSegmentationHardened) == Some(st.scene.nextId)
    ensures after.scene.nodes.Keys == st.scene.nodes.Keys + {st.scene.nextId}
    ensures after.scene.nextId == st.scene.nextId + 1
  {
    var ms := Ref(st.run, MovingSegmentation).value;
    var mc := HardenedCopy(st.scene, ms, st.scene.nodes[ms].name + HardenedSuffix);
    Advance(st, mc.scene, MovingSegmentationHardened, Some(mc.id));
    State(mc.scene, SetRef(st.run, MovingSegmentationHardened, Some(mc.id)))
  }

  /** The prostate module's hardened copies: the moving (MR) segmentation is
      copied first, then the fixed (US) one, each filed next to its original. */
  function HardenSegmentations(st: State): (after: State)
    requires Coherent(st) && SegmentationsPresent(st)
    ensures Coherent(after)
    ensures SameBut(st.run, after.run, HardenedRoles)
    ensures Ref(after.run, MovingSegmentationHardened).Some? && Ref(after.run, FixedSegmentationHardened).Some?
    ensures after.scene.nextId == st.scene.nextId + 2
  {
    var fs := Ref(st.run, FixedSegmentation).value;
    var m := HardenMoving(st);
    var fc := HardenedCopy(m.scene, fs, st.scene.nodes[fs].name + HardenedSuffix);
    Advance(m, fc.scene, FixedSegmentationHardened, Some(fc.id));
    SameButTrans(st.run, m.run, SetRef(m.run, FixedSegmentationHardened, Some(fc.id)),
                 {MovingSegmentationHardened}, {FixedSegmentationHardened});
    State(fc.scene, SetRef(m.run, FixedSegmentationHardened, Some(fc.id)))
  }

  /** The copies are new nodes holding each segmentation with its parent
      transform baked in and no parent transform; the rest of the scene only grows. */
  lemma HardenSegmentationsContents(st: State)
    requires Coherent(st) && SegmentationsPresent(st)
    ensures var after := HardenSegmentations(st);
            var ms := Ref(st.run, MovingSegmentation).value;
            var fs := Ref(st.run, FixedSegmentation).value;
            var mc := Ref(after.run, MovingSegmentationHardened).value;
            var fc := Ref(after.run, FixedSegmentationHardened).value;
            && mc !in st.scene.nodes && fc !in st.scene.nodes && mc != fc
            && after.scene.nodes[mc] == Baked(st.scene, ms).(name := st.scene.nodes[ms].name + HardenedSuffix)
            && after.scene.nodes[fc] == Baked(st.scene, fs).(name := st.scene.nodes[fs].name + HardenedSuffix)
            && mc !in after.scene.parentTransform && fc !in after.scene.parentTransform
            && Extends(st.scene, after.scene)
  {
    var ms := Ref(st.run, MovingSegmentation).value;
    var fs := Ref(st.run, FixedSegmentation).value;
    var mc := HardenedCopy(st.scene, ms, st.scene.nodes[ms].name + HardenedSuffix);
    HardenedCopyContents(st.scene, ms, st.scene.nodes[ms].name + HardenedSuffix);
    HardenedCopyExtends(st.scene, ms, st.scene.nodes[ms].name + HardenedSuffix);
    HardenedCopyContents(mc.scene, fs, st.scene.nodes[fs].name + HardenedSuffix);
    HardenedCopyExtends(mc.scene, fs, st.scene.nodes[fs].name + HardenedSuffix);
    BakedExtends(st.scene, mc.scene, fs);
    ExtendsTrans(st.scene, mc.scene, HardenedCopy(mc.scene, fs, st.scene.nodes[fs].name + HardenedSuffix).scene);
  }

  /** The roles the hardened segmentation copies are held in. */
  const HardenedRoles: set<Role> := {MovingSegmentationHardened, FixedSegmentationHardened}

  /** The hardened copies leave the roles the later stages read alone. */
  lemma HardenedRolesApart()
    ensures MovingCropped !in HardenedRoles && FixedVolume !in HardenedRoles && MovingVolume !in HardenedRoles
  {
  }

  /** The state the segments are read from. */
  function Prepared(v: Variant, st: State): (after: State)
    requires Coherent(st) && SegmentationsPresent(st)
    ensures Coherent(after)
    ensures SameBut(st.run, after.run, HardenedRoles)
  {
    match v
    case Prostate => HardenSegmentations(st)
    case Generic => st
  }

  /** The segmentation each side's segment is read from. */
  function FixedSource(v: Variant): Role {
    match v
    case Prostate => FixedSegmentationHardened
    case Generic => FixedSegmentation
  }

  function MovingSource(v: Variant): Role {
    match v
    case Prostate => MovingSegmentationHardened
    case Generic => MovingSegmentation
  }

  /** The two segments' labelmap geometries and the reference grid (the
      cropped moving volume), as read before alignment. */
  datatype Buffers = Buffers(fixed: ImageGeometry, moving: ImageGeometry, reference: ImageGeometry)

  /** Reads the buffers, or `None` when a segment lookup fails or the cropped
      volume is missing (the source then dereferences `None` and raises). */
  function ReadBuffers(v: Variant, st: State): (b: Option<Buffers>)
    ensures b.Some? ==> VolumeAt(st.scene, Ref(st.run, MovingCropped)) == Some(b.value.reference)
  {
    var fs := SegmentsAt(st.scene, Ref(st.run, FixedSource(v)));
    var ms := SegmentsAt(st.scene, Ref(st.run, MovingSource(v)));
    var reference := VolumeAt(st.scene, Ref(st.run, MovingCropped));
    if fs.None? || ms.None? || reference.None? then None
    else
      var fixed := SelectedSegment(v, fs.value, st.run.fixedSegment);
      var moving := SelectedSegment(v, ms.value, st.run.movingSegment);
      if fixed.None? || moving.None? then None
      else Some(Buffers(fixed.value.labelmap, moving.value.labelmap, reference.value))
  }

  /** The buffers can be read exactly when both sources, both selected
      segments and the cropped volume resolve. */
  lemma ReadBuffersSome(v: Variant, st: State)
    ensures ReadBuffers(v, st).Some? <==>
      && SegmentsAt(st.scene, Ref(st.run, FixedSource(v))).Some?
      && SegmentsAt(st.scene, Ref(st.run, MovingSource(v))).Some?
      && VolumeAt(st.scene, Ref(st.run, MovingCropped)).Some?
      && SelectedSegment(v, SegmentsAt(st.scene, Ref(st.run, FixedSource(v))).value, st.run.fixedSegment).Some?
      && SelectedSegment(v, SegmentsAt(st.scene, Ref(st.run, MovingSource(v))).value, st.run.movingSegment).Some?
  {
  }

  /** Brings a buffer onto the reference grid. The prostate module resamples
      when the lattice or the extent differs, without padding; the generic
      module only when the lattice differs, with padding. */
  function Align(v: Variant, image: ImageGeometry, reference: ImageGeometry): (r: ImageGeometry)
    ensures v.Prostate? ==> r == reference
    ensures v.Generic? ==> GeometriesMatch(r, reference)
    ensures v.Generic? && !GeometriesMatch(image, reference) ==>
              ExtentCovers(r.extent, reference.extent) && ExtentCovers(r.extent, image.extent)
    ensures GeometriesMatch(image, reference) && (v.Generic? || ExtentsMatch(image, reference)) ==> r == image
  {
    match v
    case Prostate =>
      if !GeometriesMatch(image, reference) || !ExtentsMatch(image, reference) then
        ResampleToReference(image, reference, false)
      else image
    case Generic =>
      if !GeometriesMatch(image, reference) then ResampleToReference(image, reference, true)
      else image
  }

  /** The study each labelmap is filed under: its own side's in the prostate
      module, the other side's in the generic one. */
  function FixedLabelmapStudy(v: Variant, st: State): Option<NodeId> {
    match v
    case Prostate => StudyOf(st.scene, Ref(st.run, FixedVolume))
    case Generic => StudyOf(st.scene, Ref(st.run, MovingVolume))
  }

  function MovingLabelmapStudy(v: Variant, st: State): Option<NodeId> {
    match v
    case Prostate => StudyOf(st.scene, Ref(st.run, MovingVolume))
    case Generic => StudyOf(st.scene, Ref(st.run, FixedVolume))
  }

  /** Adds node `a`, then node `b`, and files them under `sa` and `sb`
      (`None`: left unfiled). The two filings touch different items, so
      their order does not matter. */
  function AddPairFiled(s: Scene, a: Node, b: Node, sa: Option<NodeId>, sb: Option<NodeId>): (r: Scene)
    requires Valid(s) && (sa.Some? ==> sa.value in s.nodes) && (sb.Some? ==> sb.value in s.nodes)
    ensures Valid(r) && r.nextId == s.nextId + 2
    ensures s.nextId !in s.nodes && s.nextId + 1 !in s.nodes
    ensures r.nodes == s.nodes[s.nextId := a][s.nextId + 1 := b]
    ensures r.parentTransform == s.parentTransform
    ensures StudyOf(r, Some(s.nextId)) == sa && StudyOf(r, Some(s.nextId + 1)) == sb
  {
    var f := AddNode(s, a);
    var m := AddNode(f.scene, b);
    SetItemParent(SetItemParent(m.scene, f.id, sa), m.id, sb)
  }

  /** Filing the new pair changes no earlier node or filing. */
  lemma AddPairFiledExtends(s: Scene, a: Node, b: Node, sa: Option<NodeId>, sb: Option<NodeId>)
    requires Valid(s) && (sa.Some? ==> sa.value in s.nodes) && (sb.Some? ==> sb.value in s.nodes)
    ensures Extends(s, AddPairFiled(s, a, b, sa, sb))
  {
    var f := AddNode(s, a);
    var m := AddNode(f.scene, b);
    var s1 := SetItemParent(m.scene, f.id, sa);
    AddExtends(s, a);
    AddExtends(f.scene, b);
    ExtendsTrans(s, f.scene, m.scene);
    FileNewExtends(s, m.scene, f.id, sa);
    FileNewExtends(s, s1, m.id, sb);
  }

  /** Adds the fixed labelmap, then the moving one, and files both. */
  function AddLabelmaps(v: Variant, st: State, b: Buffers): (after: State)
    requires Coherent(st)
    ensures Coherent(after)
    ensures SameBut(st.run, after.run, {FixedLabelmap, MovingLabelmap})
    ensures Ref(after.run, FixedLabelmap) == Some(st.scene.nextId)
    ensures Ref(after.run, MovingLabelmap) == Some(st.scene.nextId + 1)
    ensures after.scene.nextId == st.scene.nextId + 2
  {
    var f := st.scene.nextId;
    var s := AddPairFiled(st.scene, FixedLabelmapNode(v, b), MovingLabelmapNode(v, b),
                          FixedLabelmapStudy(v, st), MovingLabelmapStudy(v, st));
    var run1 := SetRef(st.run, FixedLabelmap, Some(f));
    Advance(st, s, FixedLabelmap, Some(f));
    Advance(State(s, run1), s, MovingLabelmap, Some(f + 1));
    State(s, SetRef(run1, MovingLabelmap, Some(f + 1)))
  }

  /** The labelmap nodes `AddLabelmaps` creates. */
  function FixedLabelmapNode(v: Variant, b: Buffers): Node {
    Node(FixedLabelmapName(v), LabelmapVolume(Align(v, b.fixed, b.reference)), "", [])
  }

  function MovingLabelmapNode(v: Variant, b: Buffers): Node {
    Node(MovingLabelmapName(v), LabelmapVolume(Align(v, b.moving, b.reference)), "", [])
  }

  /** The roles the labelmap stage sets. */
  const LabelmapRoles: set<Role> := {MovingSegmentationHardened, FixedSegmentationHardened, FixedLabelmap, MovingLabelmap}

  /** The labelmap stage (createProstateContourLabelmaps, createContourLabelmaps). */
  function Labelmaps(v: Variant, st: State): (o: Outcome)
    requires Coherent(st)
    ensures o.Faulted? || o.Done?
    ensures o.Faulted? <==> !SegmentationsPresent(st) || ReadBuffers(v, Prepared(v, st)).None?
    ensures Coherent(o.after)
    ensures SameBut(st.run, o.after.run, LabelmapRoles)
  {
    if !SegmentationsPresent(st) then
      if v.Prostate? && SegmentsAt(st.scene, Ref(st.run, MovingSegmentation)).Some? then
        SameButTrans(st.run, st.run, HardenMoving(st).run, {}, {MovingSegmentationHardened});
        Faulted(HardenMoving(st))
      else Faulted(st)
    else
      var prepared := Prepared(v, st);
      match ReadBuffers(v, prepared)
      case None => Faulted(prepared)
      case Some(b) => Done(AddLabelmaps(v, prepared, b))
  }

  /** Baking a chain of transforms into a segmentation keeps which segments
      the selection finds. */
  lemma {:induction false} BakeChainSelection(v: Variant, s: Scene, node: Node, t: NodeId, unvisited: set<NodeId>, selected: string)
    requires node.data.Segmentation?
    ensures BakeChain(s, node, t, unvisited).data.Segmentation?
    ensures SelectedSegment(v, BakeChain(s, node, t, unvisited).data.segments, selected).Some?
        <==> SelectedSegment(v, node.data.segments, selected).Some?
    decreases unvisited
  {
    if t in unvisited && t in s.nodes {
      match s.nodes[t].data {
        case LinearTransform(m) =>
          if IsTranslation(m) {
            SelectedSegmentTranslated(v, node.data.segments, selected, TranslationOf(m));
          }
        case _ =>
      }
      if t in s.parentTransform {
        BakeChainSelection(v, s, BakeStep(node, t, s.nodes[t].data), s.parentTransform[t], unvisited - {t}, selected);
      }
    }
  }

  /** Baking a segmentation's transforms in keeps which segments the
      selection finds. */
  lemma BakedSelection(v: Variant, s: Scene, n: NodeId, selected: string)
    requires n in s.nodes && s.nodes[n].data.Segmentation?
    ensures Baked(s, n).data.Segmentation?
    ensures SelectedSegment(v, Baked(s, n).data.segments, selected).Some?
        <==> SelectedSegment(v, s.nodes[n].data.segments, selected).Some?
  {
    if n in s.parentTransform {
      BakeChainSelection(v, s, s.nodes[n], s.parentTransform[n], TransformIds(s), selected);
    }
  }

  /** Everything the stage reads resolves: both segmentations, both selected
      segments and the cropped moving volume. */
  predicate LabelmapsReady(v: Variant, st: State) {
    && SegmentationsPresent(st)
    && SelectedSegment(v, SegmentsAt(st.scene, Ref(st.run, FixedSegmentation)).value, st.run.fixedSegment).Some?
    && SelectedSegment(v, SegmentsAt(st.scene, Ref(st.run, MovingSegmentation)).value, st.run.movingSegment).Some?
    && VolumeAt(st.scene, Ref(st.run, MovingCropped)).Some?
  }

  /** The hardened copies hold the baked segments of the originals. */
  lemma HardenedSegments(st: State)
    requires Coherent(st) && SegmentationsPresent(st)
    ensures var after := HardenSegmentations(st);
            var ms := Ref(st.run, MovingSegmentation).value;
            var fs := Ref(st.run, FixedSegmentation).value;
            && Baked(st.scene, ms).data.Segmentation? && Baked(st.scene, fs).data.Segmentation?
            && SegmentsAt(after.scene, Ref(after.run, MovingSegmentationHardened)) == Some(Baked(st.scene, ms).data.segments)
            && SegmentsAt(after.scene, Ref(after.run, FixedSegmentationHardened)) == Some(Baked(st.scene, fs).data.segments)
  {
    HardenSegmentationsContents(st);
    var ms := Ref(st.run, MovingSegmentation).value;
    var fs := Ref(st.run, FixedSegmentation).value;
    BakedSelection(Prostate, st.scene, ms, "");
    BakedSelection(Prostate, st.scene, fs, "");
  }

  /** A state whose hardened copies hold the baked original segments and
      whose cropped volume reads as before finds what the original finds. */
  lemma ReadsThroughCopies(st: State, p: State)
    requires Coherent(st) && SegmentationsPresent(st)
    requires p.run.fixedSegment == st.run.fixedSegment && p.run.movingSegment == st.run.movingSegment
    requires VolumeAt(p.scene, Ref(p.run, MovingCropped)) == VolumeAt(st.scene, Ref(st.run, MovingCropped))
    requires var ms := Ref(st.run, MovingSegmentation).value;
             && Baked(st.scene, ms).data.Segmentation?
             && SegmentsAt(p.scene, Ref(p.run, MovingSegmentationHardened)) == Some(Baked(st.scene, ms).data.segments)
    requires var fs := Ref(st.run, FixedSegmentation).value;
             && Baked(st.scene, fs).data.Segmentation?
             && SegmentsAt(p.scene, Ref(p.run, FixedSegmentationHardened)) == Some(Baked(st.scene, fs).data.segments)
    ensures ReadBuffers(Prostate, p).Some? <==> LabelmapsReady(Prostate, st)
  {
    ReadBuffersSome(Prostate, p);
    BakedSelection(Prostate, st.scene, Ref(st.run, MovingSegmentation).value, st.run.movingSegment);
    BakedSelection(Prostate, st.scene, Ref(st.run, FixedSegmentation).value, st.run.fixedSegment);
  }

  /** The prostate module finds the selected segments in the copies exactly
      when the originals hold them, and reads the cropped volume as before. */
  lemma HardenedReads(st: State)
    requires Coherent(st) && SegmentationsPresent(st)
    ensures ReadBuffers(Prostate, HardenSegmentations(st)).Some? <==> LabelmapsReady(Prostate, st)
  {
    var p := HardenSegmentations(st);
    HardenedSegments(st);
    HardenSegmentationsContents(st);
    RefKept(st, p.scene, MovingCropped);
    assert Ref(p.run, MovingCropped) == Ref(st.run, MovingCropped);
    ReadsThroughCopies(st, p);
  }

  /** A finished labelmap stage holds both labelmaps. */
  lemma LabelmapsSetRefs(v: Variant, st: State)
    requires Coherent(st)
    ensures var o := Labelmaps(v, st);
            o.Done? ==> Ref(o.after.run, FixedLabelmap).Some? && Ref(o.after.run, MovingLabelmap).Some?
  {
    LabelmapsOnGrid(v, st);
  }

  /** The prepared state reads the cropped volume as before and finds the
      selected segments exactly when the originals hold them. */
  lemma PreparedReads(v: Variant, st: State)
    requires Coherent(st) && SegmentationsPresent(st)
    ensures Extends(st.scene, Prepared(v, st).scene)
    ensures ReadBuffers(v, Prepared(v, st)).Some? <==> LabelmapsReady(v, st)
  {
    if v.Prostate? {
      HardenSegmentationsContents(st);
      HardenedReads(st);
    }
  }

  /** The stage raises exactly when something it reads is missing. */
  lemma LabelmapsFaultIff(v: Variant, st: State)
    requires Coherent(st)
    ensures Labelmaps(v, st).Faulted? <==> !LabelmapsReady(v, st)
    ensures !SegmentationsPresent(st) && (v.Generic? || SegmentsAt(st.scene, Ref(st.run, MovingSegmentation)).None?)
            ==> Labelmaps(v, st).after == st
  {
    if SegmentationsPresent(st) {
      PreparedReads(v, st);
    }
  }

  /** When only the moving segmentation resolves, the prostate module has
      already made, filed and hardened its copy when it raises. */
  lemma LabelmapsLeavesMovingCopy(st: State)
    requires Coherent(st)
    requires SegmentsAt(st.scene, Ref(st.run, MovingSegmentation)).Some?
    requires SegmentsAt(st.scene, Ref(st.run, FixedSegmentation)).None?
    ensures var o := Labelmaps(Prostate, st);
            var ms := Ref(st.run, MovingSegmentation).value;
            var mc := Ref(o.after.run, MovingSegmentationHardened);
            && o.Faulted?
            && mc == Some(st.scene.nextId) && mc.value !in st.scene.nodes
            && mc.value in o.after.scene.nodes
            && o.after.scene.nodes[mc.value] == Baked(st.scene, ms).(name := st.scene.nodes[ms].name + HardenedSuffix)
            && mc.value !in o.after.scene.parentTransform
            && Extends(st.scene, o.after.scene)
  {
    var ms := Ref(st.run, MovingSegmentation).value;
    HardenedCopyContents(st.scene, ms, st.scene.nodes[ms].name + HardenedSuffix);
    HardenedCopyExtends(st.scene, ms, st.scene.nodes[ms].name + HardenedSuffix);
  }

  /** The prepared state reads the cropped volume and both studies as the
      stage's input does, and has only grown the scene. */
  lemma PreparedKeeps(v: Variant, st: State)
    requires Coherent(st) && SegmentationsPresent(st)
    ensures var p := Prepared(v, st);
            && Extends(st.scene, p.scene)
            && VolumeAt(p.scene, Ref(p.run, MovingCropped)) == VolumeAt(st.scene, Ref(st.run, MovingCropped))
            && FixedLabelmapStudy(v, p) == FixedLabelmapStudy(v, st)
            && MovingLabelmapStudy(v, p) == MovingLabelmapStudy(v, st)
  {
    var p := Prepared(v, st);
    PreparedReads(v, st);
    RefKept(st, p.scene, MovingCropped);
    RefKept(st, p.scene, FixedVolume);
    RefKept(st, p.scene, MovingVolume);
    HardenedRolesApart();
    RefUnchanged(st.run, p.run, HardenedRoles, MovingCropped);
    RefUnchanged(st.run, p.run, HardenedRoles, FixedVolume);
    RefUnchanged(st.run, p.run, HardenedRoles, MovingVolume);
  }

  /** The two labelmaps are new volume nodes with the variant's names, on
      the reference grid (prostate) or its lattice (generic). */
  lemma AddLabelmapsOnGrid(v: Variant, st: State, b: Buffers)
    requires Coherent(st)
    ensures var s := AddLabelmaps(v, st, b).scene;
            var f := st.scene.nextId;
            && f !in st.scene.nodes && f + 1 !in st.scene.nodes
            && s.nodes[f] == FixedLabelmapNode(v, b) && s.nodes[f + 1] == MovingLabelmapNode(v, b)
            && (v.Prostate? ==> Align(v, b.fixed, b.reference) == b.reference
                                && Align(v, b.moving, b.reference) == b.reference)
            && (v.Generic? ==> GeometriesMatch(Align(v, b.fixed, b.reference), b.reference)
                               && GeometriesMatch(Align(v, b.moving, b.reference), b.reference))
  {
  }

  /** Each labelmap is filed under its study; nothing earlier changes. */
  lemma AddLabelmapsFiled(v: Variant, st: State, b: Buffers)
    requires Coherent(st)
    ensures var s := AddLabelmaps(v, st, b).scene;
            && Extends(st.scene, s)
            && StudyOf(s, Some(st.scene.nextId)) == FixedLabelmapStudy(v, st)
            && StudyOf(s, Some(st.scene.nextId + 1)) == MovingLabelmapStudy(v, st)
  {
    AddPairFiledExtends(st.scene, FixedLabelmapNode(v, b), MovingLabelmapNode(v, b),
                        FixedLabelmapStudy(v, st), MovingLabelmapStudy(v, st));
  }

  /** Both labelmaps are new volume nodes with the variant's names. The
      prostate module's lie exactly on the cropped moving volume's grid; the
      generic module's share its lattice. */
  lemma LabelmapsOnGrid(v: Variant, st: State)
    requires Coherent(st)
    ensures var o := Labelmaps(v, st);
            o.Done? ==>
              var s := o.after.scene;
              var f := Ref(o.after.run, FixedLabelmap);
              var m := Ref(o.after.run, MovingLabelmap);
              var reference := VolumeAt(st.scene, Ref(st.run, MovingCropped));
              && reference.Some? && f.Some? && m.Some? && f != m
              && f.value !in st.scene.nodes && m.value !in st.scene.nodes
              && f.value in s.nodes && m.value in s.nodes
              && s.nodes[f.value].name == FixedLabelmapName(v) && s.nodes[m.value].name == MovingLabelmapName(v)
              && s.nodes[f.value].data.LabelmapVolume? && s.nodes[m.value].data.LabelmapVolume?
              && (v.Prostate? ==>
                    s.nodes[f.value].data.geometry == reference.value
                    && s.nodes[m.value].data.geometry == reference.value)
              && (v.Generic? ==>
                    GeometriesMatch(s.nodes[f.value].data.geometry, reference.value)
                    && GeometriesMatch(s.nodes[m.value].data.geometry, reference.value))
  {
    if SegmentationsPresent(st) {
      var p := Prepared(v, st);
      PreparedKeeps(v, st);
      if ReadBuffers(v, p).Some? {
        AddLabelmapsOnGrid(v, p, ReadBuffers(v, p).value);
      }
    }
  }

  /** The prostate module files each labelmap under its own side's study,
      the generic module under the other side's, as the studies were when
      the stage began. */
  lemma LabelmapsFiled(v: Variant, st: State)
    requires Coherent(st)
    ensures var o := Labelmaps(v, st);
            o.Done? ==>
              && StudyOf(o.after.scene, Ref(o.after.run, FixedLabelmap)) == FixedLabelmapStudy(v, st)
              && StudyOf(o.after.scene, Ref(o.after.run, MovingLabelmap)) == MovingLabelmapStudy(v, st)
  {
    if SegmentationsPresent(st) {
      var p := Prepared(v, st);
      PreparedKeeps(v, st);
      if ReadBuffers(v, p).Some? {
        AddLabelmapsFiled(v, p, ReadBuffers(v, p).value);
      }
    }
  }

  /** The stage changes no node or filing that existed before it. */
  lemma LabelmapsOnlyAdds(v: Variant, st: State)
    requires Coherent(st)
    ensures Extends(st.scene, Labelmaps(v, st).after.scene)
  {
    if SegmentationsPresent(st) {
      var p := Prepared(v, st);
      PreparedKeeps(v, st);
      if ReadBuffers(v, p).Some? {
        var s := AddLabelmaps(v, p, ReadBuffers(v, p).value).scene;
        AddLabelmapsFiled(v, p, ReadBuffers(v, p).value);
        ExtendsTrans(st.scene, p.scene, s);
        assert Labelmaps(v, st).after.scene == s;
      } else {
        assert Labelmaps(v, st).after.scene == p.scene;
      }
    } else if v.Prostate? && SegmentsAt(st.scene, Ref(st.run, MovingSegmentation)).Some? {
      LabelmapsLeavesMovingCopy(st);
    } else {
      assert Labelmaps(v, st).after.scene == st.scene;
    }
  }
}
