/** Stage 2: move the moving images so that the centre of the moving
    segment's bounding box lands on the centre of the fixed segment's, then
    harden that translation into them. */
module PreAlignStage {
  import opened Options
  import opened Geometry
  import opened Scene
  import opened Workflow

  /** All four references the stage dereferences resolve. */
  predicate PreAlignInputs(st: State) {
    && SegmentsAt(st.scene, Ref(st.run, MovingSegmentation)).Some?
    && VolumeAt(st.scene, Ref(st.run, MovingVolume)).Some?
    && VolumeAt(st.scene, Ref(st.run, MovingCropped)).Some?
    && SegmentsAt(st.scene, Ref(st.run, FixedSegmentation)).Some?
  }

  function FixedSegment(v: Variant, st: State): Option<Segment>
    requires PreAlignInputs(st)
  {
    SelectedSegment(v, SegmentsAt(st.scene, Ref(st.run, FixedSegmentation)).value, st.run.fixedSegment)
  }

  function MovingSegment(v: Variant, st: State): Option<Segment>
    requires PreAlignInputs(st)
  {
    SelectedSegment(v, SegmentsAt(st.scene, Ref(st.run, MovingSegmentation)).value, st.run.movingSegment)
  }

  /** The inputs resolve and both selected segments are found. */
  predicate PreAlignReady(v: Variant, st: State) {
    PreAlignInputs(st) && FixedSegment(v, st).Some? && MovingSegment(v, st).Some?
  }

  /** Moving-to-fixed translation between the two segments' box centres. */
  function Translation(v: Variant, st: State): Vec3
    requires PreAlignReady(v, st)
  {
    PreAlignmentTranslation(FixedSegment(v, st).value.bounds, MovingSegment(v, st).value.bounds)
  }

  /** Adds translation transform `t` under `name`, binds every node of
      `ids` (none of them a transform) to it, then hardens them in the same
      order. */
  function MoveAll(s: Scene, ids: seq<NodeId>, name: string, t: Vec3): (r: Added)
    requires Valid(s) && forall i | 0 <= i < |ids| :: ids[i] in s.nodes && !IsTransform(s.nodes[ids[i]].data)
    ensures Valid(r.scene)
    ensures r.id == s.nextId && r.scene.nextId == s.nextId + 1
    ensures r.scene.nodes.Keys == s.nodes.Keys + {r.id}
  {
    var added := AddNode(s, Node(name, LinearTransform(TranslationMatrix(t)), "", []));
    var bound := BindAll(added.scene, ids, added.id);
    Added(HardenAll(bound, ids), added.id)
  }

  /** Each node of `ids` is moved by `t`. */
  lemma MoveAllMoves(s: Scene, ids: seq<NodeId>, name: string, t: Vec3)
    requires Valid(s) && forall i | 0 <= i < |ids| :: ids[i] in s.nodes && !IsTransform(s.nodes[ids[i]].data)
    ensures var r := MoveAll(s, ids, name, t);
            forall x | x in ids :: r.scene.nodes[x] == TranslateNode(s.nodes[x], t)
  {
    var added := AddNode(s, Node(name, LinearTransform(TranslationMatrix(t)), "", []));
    var bound := BindAll(added.scene, ids, added.id);
    forall x | x in ids
      ensures Baked(bound, x) == TranslateNode(s.nodes[x], t)
    {
      BakedTranslation(bound, x, t);
    }
  }

  /** The transform is the only new node and every other node is unchanged. */
  lemma MoveAllKeepsOthers(s: Scene, ids: seq<NodeId>, name: string, t: Vec3)
    requires Valid(s) && forall i | 0 <= i < |ids| :: ids[i] in s.nodes && !IsTransform(s.nodes[ids[i]].data)
    ensures var r := MoveAll(s, ids, name, t);
            && r.scene.nodes.Keys == s.nodes.Keys + {r.id}
            && r.scene.nodes[r.id] == Node(name, LinearTransform(TranslationMatrix(t)), "", [])
            && (forall x | x in s.nodes && x !in ids :: r.scene.nodes[x] == s.nodes[x])
  {
  }

  /** The moved nodes lose their parent transform; other references and all
      filings are unchanged. */
  lemma MoveAllRefs(s: Scene, ids: seq<NodeId>, name: string, t: Vec3)
    requires Valid(s) && forall i | 0 <= i < |ids| :: ids[i] in s.nodes && !IsTransform(s.nodes[ids[i]].data)
    ensures var r := MoveAll(s, ids, name, t);
            && (forall x :: x in r.scene.parentTransform <==> x in s.parentTransform && x !in ids)
            && (forall x | x in r.scene.parentTransform :: r.scene.parentTransform[x] == s.parentTransform[x])
            && r.scene.shParent == s.shParent
  {
  }

  /** The three nodes the stage moves, in binding order. */
  function Moved(st: State): (r: seq<NodeId>)
    requires PreAlignInputs(st)
    ensures forall i | 0 <= i < |r| :: r[i] in st.scene.nodes && !IsTransform(st.scene.nodes[r[i]].data)
  {
    [Ref(st.run, MovingVolume).value, Ref(st.run, MovingSegmentation).value, Ref(st.run, MovingCropped).value]
  }

  /** The pre-alignment stage of either variant (preAlignSegmentations). */
  function PreAlign(v: Variant, st: State): (o: Outcome)
    requires Coherent(st)
    ensures o.Skipped? <==> !PreAlignReady(v, st)
    ensures o.Done? || o.Skipped?
    ensures o.Done? ==> Coherent(o.after) && SameBut(st.run, o.after.run, {PreAlignment})
  {
    if !PreAlignReady(v, st) then Skipped
    else
      var moved := MoveAll(st.scene, Moved(st), PreAlignmentName(v), Translation(v, st));
      Advance(st, moved.scene, PreAlignment, Some(moved.id));
      Done(State(moved.scene, SetRef(st.run, PreAlignment, Some(moved.id))))
  }

  /** After pre-alignment the moving volume, moving segmentation and cropped
      volume are each moved by the translation and have no parent transform. */
  lemma PreAlignMovesInputs(v: Variant, st: State)
    requires Coherent(st)
    ensures var o := PreAlign(v, st);
            o.Done? ==>
              forall x | x in Moved(st) ::
                o.after.scene.nodes[x] == TranslateNode(st.scene.nodes[x], Translation(v, st))
                && x !in o.after.scene.parentTransform
  {
    if PreAlignReady(v, st) {
      MoveAllMoves(st.scene, Moved(st), PreAlignmentName(v), Translation(v, st));
      MoveAllRefs(st.scene, Moved(st), PreAlignmentName(v), Translation(v, st));
    }
  }

  /** Pre-alignment adds only the translation transform, holding the
      translation in an identity matrix's last column, and leaves every other
      node, parent transform and filing as it was. */
  lemma PreAlignKeepsOthers(v: Variant, st: State)
    requires Coherent(st)
    ensures var o := PreAlign(v, st);
            o.Done? ==>
              var s := o.after.scene;
              var tf := Ref(o.after.run, PreAlignment);
              && tf.Some? && tf.value !in st.scene.nodes
              && s.nodes.Keys == st.scene.nodes.Keys + {tf.value}
              && s.nodes[tf.value] == Node(PreAlignmentName(v), LinearTransform(TranslationMatrix(Translation(v, st))), "", [])
              && (forall x | x in st.scene.nodes && x !in Moved(st) :: s.nodes[x] == st.scene.nodes[x])
              && (forall x | x in st.scene.parentTransform && x !in Moved(st) ::
                    x in s.parentTransform && s.parentTransform[x] == st.scene.parentTransform[x])
              && s.shParent == st.scene.shParent
  {
    if PreAlignReady(v, st) {
      MoveAllKeepsOthers(st.scene, Moved(st), PreAlignmentName(v), Translation(v, st));
      MoveAllRefs(st.scene, Moved(st), PreAlignmentName(v), Translation(v, st));
    }
  }

  /** Moving the segments leaves the same segment selected, moved. */
  lemma SelectedSegmentTranslated(v: Variant, segments: seq<Segment>, selected: string, t: Vec3)
    ensures SelectedSegment(v, TranslateSegments(segments, t), selected) ==
            (match SelectedSegment(v, segments, selected)
             case None => None
             case Some(s) => Some(TranslateSegment(s, t)))
  {
    match v
    case Generic => GetSegmentTranslated(segments, selected, t);
    case Prostate =>
      SegmentIdByNameTranslated(segments, selected, t);
      match SegmentIdByName(segments, selected)
      case None =>
      case Some(id) => GetSegmentTranslated(segments, id, t);
  }

  /** Translating a segmentation by the pre-alignment translation centres
      its selected segment on the fixed box. */
  lemma TranslatedSegmentCentred(v: Variant, segments: seq<Segment>, selected: string, fixed: Bounds)
    requires SelectedSegment(v, segments, selected).Some?
    ensures var t := PreAlignmentTranslation(fixed, SelectedSegment(v, segments, selected).value.bounds);
            var moved := SelectedSegment(v, TranslateSegments(segments, t), selected);
            moved.Some? && Center(moved.value.bounds) == Center(fixed)
  {
    var t := PreAlignmentTranslation(fixed, SelectedSegment(v, segments, selected).value.bounds);
    SelectedSegmentTranslated(v, segments, selected, t);
  }

  /** Pre-alignment replaces the moving segmentation's segments by their
      translated copies. */
  lemma PreAlignMovesSegmentation(v: Variant, st: State)
    requires Coherent(st) && PreAlignReady(v, st)
    ensures SegmentsAt(PreAlign(v, st).after.scene, Ref(st.run, MovingSegmentation))
         == Some(TranslateSegments(SegmentsAt(st.scene, Ref(st.run, MovingSegmentation)).value, Translation(v, st)))
  {
    var t := Translation(v, st);
    var ms := Ref(st.run, MovingSegmentation).value;
    var moved := MoveAll(st.scene, Moved(st), PreAlignmentName(v), t);
    assert PreAlign(v, st).after.scene == moved.scene;
    MoveAllMoves(st.scene, Moved(st), PreAlignmentName(v), t);
    assert ms in Moved(st);
    assert moved.scene.nodes[ms] == TranslateNode(st.scene.nodes[ms], t);
    TranslatedSegmentation(st.scene.nodes[ms], t);
  }

  /** After pre-alignment the selected moving segment's box is centred on the
      fixed segment's centre (taken before the stage). */
  lemma PreAlignCentresSegments(v: Variant, st: State)
    requires Coherent(st) && PreAlignReady(v, st)
    ensures var segs := SegmentsAt(PreAlign(v, st).after.scene, Ref(st.run, MovingSegmentation));
            && segs.Some?
            && SelectedSegment(v, segs.value, st.run.movingSegment).Some?
            && Center(SelectedSegment(v, segs.value, st.run.movingSegment).value.bounds)
               == Center(FixedSegment(v, st).value.bounds)
  {
    PreAlignMovesSegmentation(v, st);
    var segs := SegmentsAt(st.scene, Ref(st.run, MovingSegmentation)).value;
    TranslatedSegmentCentred(v, segs, st.run.movingSegment, FixedSegment(v, st).value.bounds);
  }
}
