/** Stage 1: crop the moving volume to a box around the moving segmentation.
    Both variants run the same logic; the prostate module re-parents the
    cropped volume unconditionally and the generic one only under a valid
    study, which coincide because filing under no parent changes nothing. */
module CropStage {
  import opened Options
  import opened Geometry
  import opened Scene
  import opened Engines
  import opened Workflow

  const CropRoiPrefix := "CropROI_"

  /** The bounds an empty segmentation reports (VTK's uninitialised box). */
  const UninitializedBounds := Bounds(1.0, -1.0, 1.0, -1.0, 1.0, -1.0)

  /** Bounds of a whole segmentation: the smallest box enclosing every segment. */
  function SegmentationBounds(segments: seq<Segment>): (b: Bounds)
    ensures forall i | 0 <= i < |segments| :: Encloses(b, segments[i].bounds)
    ensures |segments| == 0 ==> b == UninitializedBounds
  {
    var boxes := seq(|segments|, i requires 0 <= i < |segments| => segments[i].bounds);
    assert forall i | 0 <= i < |segments| :: boxes[i] == segments[i].bounds;
    match UnionBounds(boxes)
    case Some(b) => b
    case None => UninitializedBounds
  }

  /** No smaller box encloses every segment. */
  lemma SegmentationBoundsIsLeast(segments: seq<Segment>, box: Bounds)
    requires |segments| > 0
    requires forall i | 0 <= i < |segments| :: Encloses(box, segments[i].bounds)
    ensures Encloses(box, SegmentationBounds(segments))
  {
    var boxes := seq(|segments|, i requires 0 <= i < |segments| => segments[i].bounds);
    UnionBoundsIsLeast(boxes, box);
  }

  predicate CropReady(st: State) {
    VolumeAt(st.scene, Ref(st.run, MovingVolume)).Some? && SegmentsAt(st.scene, Ref(st.run, MovingSegmentation)).Some?
  }

  /** The region handed to the crop module. */
  function CropRegion(st: State): Roi
    requires CropReady(st)
  {
    CropRoi(SegmentationBounds(SegmentsAt(st.scene, Ref(st.run, MovingSegmentation)).value))
  }

  /** The ROI node the stage adds: the crop region, named after the moving volume. */
  function RoiNode(st: State): Node
    requires CropReady(st)
  {
    Node(CropRoiPrefix + st.scene.nodes[Ref(st.run, MovingVolume).value].name, RoiMarkup(CropRegion(st)), "", [])
  }

  /** The stage's ROI node is among the nodes it added. */
  ghost predicate RoiAdded(st: State, after: Scene)
    requires CropReady(st)
  {
    exists id | id in after.nodes && id !in st.scene.nodes :: after.nodes[id] == RoiNode(st)
  }

  /** The moving volume's geometry, as the crop module reads it. */
  function CropInput(st: State): ImageGeometry
    requires CropReady(st)
  {
    VolumeAt(st.scene, Ref(st.run, MovingVolume)).value
  }

  /** Adds the ROI node, then the crop-parameters node. */
  function PlaceRoi(st: State): (r: Added)
    requires Coherent(st) && CropReady(st)
    ensures Valid(r.scene)
    ensures r.id == st.scene.nextId && r.scene.nextId == r.id + 2
    ensures r.scene.nodes.Keys == st.scene.nodes.Keys + {r.id, r.id + 1}
    ensures r.scene.nodes[r.id] == RoiNode(st)
    ensures r.scene.nodes[r.id + 1].data == CropParameters
    ensures r.scene.shParent == st.scene.shParent
  {
    var a1 := AddNode(st.scene, RoiNode(st));
    var a2 := AddNode(a1.scene, Node("", CropParameters, "", []));
    Added(a2.scene, a1.id)
  }

  /** Adds the crop output and files it under `study`. */
  function FileOutput(s: Scene, out: Cropped, study: Option<NodeId>): (r: Added)
    requires Valid(s) && (study.Some? ==> study.value in s.nodes)
    ensures Valid(r.scene)
    ensures r.id == s.nextId && r.scene.nextId == s.nextId + 1
    ensures r.scene.nodes == s.nodes[r.id := Node(out.name, ScalarVolume(out.geometry), "", [])]
    ensures r.scene.shParent == if study.Some? then s.shParent[r.id := study.value] else s.shParent
  {
    var a := AddNode(s, Node(out.name, ScalarVolume(out.geometry), "", []));
    Added(SetItemParent(a.scene, a.id, study), a.id)
  }

  /** Removes the ROI, or files it under `study` when intermediates are kept. */
  function DisposeRoi(s: Scene, roi: NodeId, study: Option<NodeId>, keep: bool): (r: Scene)
    requires Valid(s) && roi in s.nodes && roi !in s.parentTransform
    requires forall id | id in s.parentTransform :: s.parentTransform[id] != roi
    requires forall id | id in s.shParent :: s.shParent[id] != roi
    requires study.Some? ==> study.value in s.nodes && study.value != roi
    ensures Valid(r) && r.nextId == s.nextId && r.parentTransform == s.parentTransform
    ensures keep ==> r.nodes == s.nodes
    ensures !keep ==> r.nodes == s.nodes - {roi}
    ensures forall id | id in s.shParent && id != roi :: id in r.shParent && r.shParent[id] == s.shParent[id]
    ensures keep && study.Some? ==> roi in r.shParent && r.shParent[roi] == study.value
  {
    if keep then SetItemParent(s, roi, study)
    else
      var r := RemoveNodes(s, {roi});
      assert r.parentTransform == s.parentTransform;
      r
  }

  /** The stage's effect when the crop module returns `out`: the output is
      filed under the moving volume's study and the ROI disposed of. */
  function CropFiled(st: State, out: Cropped): (after: State)
    requires Coherent(st) && CropReady(st)
    ensures Coherent(after) && SameBut(st.run, after.run, {MovingCropped})
    ensures Ref(after.run, MovingCropped).Some?
  {
    var placed := PlaceRoi(st);
    var study := StudyOf(st.scene, Ref(st.run, MovingVolume));
    var filed := FileOutput(placed.scene, out, study);
    var s := DisposeRoi(filed.scene, placed.id, study, st.run.keepIntermediateNodes);
    Advance(st, s, MovingCropped, Some(filed.id));
    State(s, SetRef(st.run, MovingCropped, Some(filed.id)))
  }

  /** The stage's effect when the crop module returns nothing: the ROI and
      crop-parameters nodes stay and the cropped-volume reference is cleared. */
  function CropStopped(st: State): (after: State)
    requires Coherent(st) && CropReady(st)
    ensures Coherent(after) && SameBut(st.run, after.run, {MovingCropped})
    ensures Ref(after.run, MovingCropped).None?
  {
    var placed := PlaceRoi(st);
    Advance(st, placed.scene, MovingCropped, None);
    State(placed.scene, SetRef(st.run, MovingCropped, None))
  }

  /** The crop stage of either variant (the source's cropMRI and cropMovingVolume). */
  function Crop(st: State, crop: CropEngine): (o: Outcome)
    requires Coherent(st)
    ensures o.Skipped? <==> !CropReady(st)
    ensures !o.Faulted?
    ensures o.Stopped? <==> CropReady(st) && crop(CropInput(st), CropRegion(st)).None?
    ensures o.Done? || o.Stopped? ==>
              Coherent(o.after) && SameBut(st.run, o.after.run, {MovingCropped})
    ensures o.Stopped? ==> Ref(o.after.run, MovingCropped).None?
  {
    if !CropReady(st) then Skipped
    else
      match crop(CropInput(st), CropRegion(st))
      case None => Stopped(CropStopped(st))
      case Some(out) => Done(CropFiled(st, out))
  }

  lemma PlaceRoiExtends(st: State)
    requires Coherent(st) && CropReady(st)
    ensures Extends(st.scene, PlaceRoi(st).scene)
  {
    var a1 := AddNode(st.scene, RoiNode(st));
    AddExtends(st.scene, RoiNode(st));
    AddExtends(a1.scene, Node("", CropParameters, "", []));
    ExtendsTrans(st.scene, a1.scene, AddNode(a1.scene, Node("", CropParameters, "", [])).scene);
  }

  lemma FileOutputExtends(s0: Scene, s: Scene, out: Cropped, study: Option<NodeId>)
    requires Valid(s0) && Valid(s) && Extends(s0, s) && (study.Some? ==> study.value in s.nodes)
    ensures Extends(s0, FileOutput(s, out, study).scene)
  {
    var a := AddNode(s, Node(out.name, ScalarVolume(out.geometry), "", []));
    AddExtends(s, Node(out.name, ScalarVolume(out.geometry), "", []));
    ExtendsTrans(s0, s, a.scene);
    FileNewExtends(s0, a.scene, a.id, study);
  }

  /** Filing the output adds nodes and filings and changes nothing already in the scene. */
  lemma CropFiledOnlyAdds(st: State, out: Cropped)
    requires Coherent(st) && CropReady(st)
    ensures Extends(st.scene, CropFiled(st, out).scene)
  {
    var placed := PlaceRoi(st);
    var study := StudyOf(st.scene, Ref(st.run, MovingVolume));
    var filed := FileOutput(placed.scene, out, study);
    PlaceRoiExtends(st);
    FileOutputExtends(st.scene, placed.scene, out, study);
    if st.run.keepIntermediateNodes {
      FileNewExtends(st.scene, filed.scene, placed.id, study);
    } else {
      RemoveNewExtends(st.scene, filed.scene, {placed.id});
    }
  }

  /** The stage adds nodes and filings and changes nothing already in the scene. */
  lemma CropOnlyAdds(st: State, crop: CropEngine)
    requires Coherent(st)
    ensures var o := Crop(st, crop); o.Done? || o.Stopped? ==> Extends(st.scene, o.after.scene)
  {
    if CropReady(st) {
      match crop(CropInput(st), CropRegion(st))
      case None => PlaceRoiExtends(st);
      case Some(out) => CropFiledOnlyAdds(st, out);
    }
  }

  /** The filed output is a new node holding the module's output, filed under
      the moving volume's study exactly when that volume has one. */
  lemma CropFiledHoldsOutput(st: State, out: Cropped)
    requires Coherent(st) && CropReady(st)
    ensures var after := CropFiled(st, out);
            var mv := Ref(st.run, MovingVolume).value;
            var c := Ref(after.run, MovingCropped).value;
            && c !in st.scene.nodes && c in after.scene.nodes
            && after.scene.nodes[c] == Node(out.name, ScalarVolume(out.geometry), "", [])
            && (c in after.scene.shParent <==> mv in st.scene.shParent)
            && (mv in st.scene.shParent ==> after.scene.shParent[c] == st.scene.shParent[mv])
  {
    var placed := PlaceRoi(st);
    var study := StudyOf(st.scene, Ref(st.run, MovingVolume));
    var filed := FileOutput(placed.scene, out, study);
    assert filed.id != placed.id;
  }

  /** A completed crop holds the module's output in a new node filed under the
      moving volume's study exactly when that volume has one. */
  lemma CropFilesOutput(st: State, crop: CropEngine)
    requires Coherent(st)
    ensures var o := Crop(st, crop);
            o.Done? ==>
              var out := crop(CropInput(st), CropRegion(st)).value;
              var mv := Ref(st.run, MovingVolume).value;
              var c := Ref(o.after.run, MovingCropped);
              && c.Some? && c.value !in st.scene.nodes && c.value in o.after.scene.nodes
              && o.after.scene.nodes[c.value] == Node(out.name, ScalarVolume(out.geometry), "", [])
              && (c.value in o.after.scene.shParent <==> mv in st.scene.shParent)
              && (mv in st.scene.shParent ==> o.after.scene.shParent[c.value] == st.scene.shParent[mv])
  {
    if CropReady(st) && crop(CropInput(st), CropRegion(st)).Some? {
      CropFiledHoldsOutput(st, crop(CropInput(st), CropRegion(st)).value);
    }
  }

  /** After filing, the ROI stays exactly when intermediates are kept. */
  lemma CropFiledRoiKept(st: State, out: Cropped)
    requires Coherent(st) && CropReady(st)
    ensures RoiAdded(st, CropFiled(st, out).scene) <==> st.run.keepIntermediateNodes
  {
    var placed := PlaceRoi(st);
    var study := StudyOf(st.scene, Ref(st.run, MovingVolume));
    var filed := FileOutput(placed.scene, out, study);
    var s := CropFiled(st, out).scene;
    if st.run.keepIntermediateNodes {
      assert s.nodes[placed.id] == RoiNode(st);
    } else {
      assert forall id | id in s.nodes && id !in st.scene.nodes :: id == placed.id + 1 || id == filed.id;
      assert s.nodes[placed.id + 1].data == CropParameters;
      assert s.nodes[filed.id].data.ScalarVolume?;
    }
  }

  /** The ROI stays in the scene exactly when intermediates are kept, except
      that a crop without output leaves it behind in any case. */
  lemma CropRoiKeptIff(st: State, crop: CropEngine)
    requires Coherent(st)
    ensures var o := Crop(st, crop);
            && (o.Done? ==> (RoiAdded(st, o.after.scene) <==> st.run.keepIntermediateNodes))
            && (o.Stopped? ==> RoiAdded(st, o.after.scene))
  {
    if CropReady(st) {
      match crop(CropInput(st), CropRegion(st))
      case None =>
        var placed := PlaceRoi(st);
        assert CropStopped(st).scene.nodes[placed.id] == RoiNode(st);
      case Some(out) =>
        CropFiledRoiKept(st, out);
    }
  }
}
