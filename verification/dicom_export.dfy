/** Preparing a study for DICOM export in the prostate module
    (exportDeformedMrStudyToDicom, exportDeformedUsStudyToDicom): the guards,
    the creation of the export study on first use, and the consistency checks
    on later uses. The export dialog itself is outside the model; the result
    names the study it would be opened on. */
module DicomExport {
  import opened Options
  import opened Scene
  import opened Workflow
  import opened Patients

  /** The deformed MRI study, or the ultrasound study carrying the deformed
      MRI structures. Both export the MRI segmentation. */
  datatype Target = MrStudy | UsStudy

  function SourceVolume(t: Target): Role {
    match t
    case MrStudy => MovingVolume
    case UsStudy => FixedVolume
  }

  function StudyName(t: Target): string {
    match t
    case MrStudy => "Deformed MRI Study"
    case UsStudy => "US Study with MRI structures"
  }

  function SegmentationSuffix(t: Target): string {
    match t
    case MrStudy => " For Export with MRI"
    case UsStudy => " For Export with US"
  }

  const VolumeSuffix := " For Export"

  function ExportModality(t: Target): string {
    match t
    case MrStudy => "MR"
    case UsStudy => "US"
  }

  /** The export nodes the logic object keeps for one target between calls. */
  datatype ExportNodes = ExportNodes(volume: Option<NodeId>, segmentation: Option<NodeId>)

  datatype ExportError =
    | MissingInputs        // no patient, volume or MRI segmentation
    | MissingRegistration  // no B-spline transform
    | PartialExport        // only one of the two export nodes exists
    | SplitExport          // the two export nodes sit under different parents

  /** An error leaves everything as it was; otherwise the dialog is opened on
      `study` (`None`: the scene item). */
  datatype ExportOutcome =
    | Refused(error: ExportError)
    | Opened(after: State, nodes: ExportNodes, study: Option<NodeId>)

  predicate InputsPresent(t: Target, st: State, patient: NodeId) {
    && patient != InvalidItem
    && VolumeAt(st.scene, Ref(st.run, SourceVolume(t))).Some?
    && SegmentsAt(st.scene, Ref(st.run, MovingSegmentation)).Some?
  }

  /** The node the new export volume copies: the source volume's name with
      the suffix, its contents and the target's DICOM modality. */
  function ExportVolume(t: Target, source: Node): Node {
    Node(source.name + VolumeSuffix, source.data, ExportModality(t), source.warps)
  }

  /** `r` adds nodes to `s` and leaves every old node, its parent transform
      and its filing as they were. */
  ghost predicate Grows(s: Scene, r: Scene) {
    && s.nextId <= r.nextId
    && (forall id | id in s.nodes :: Same(s, r, id))
    && (forall id | id in r.nodes && id !in s.nodes :: s.nextId <= id)
  }

  /** Node `id` of `s` is in `r` with the same contents, transform and filing. */
  ghost predicate Same(s: Scene, r: Scene, id: NodeId) {
    id in s.nodes && id in r.nodes && r.nodes[id] == s.nodes[id] && Observed(r, id) == Observed(s, id)
    && StudyOf(r, Some(id)) == StudyOf(s, Some(id))
  }

  lemma GrowsTrans(a: Scene, b: Scene, c: Scene)
    requires Valid(a) && Grows(a, b) && Grows(b, c)
    ensures Grows(a, c)
  {
  }

  /** A node that grows the scene keeps the references into it. */
  lemma GrowsKeepsRef(st: State, s: Scene, role: Role)
    requires Coherent(st) && Grows(st.scene, s)
    ensures VolumeAt(s, Ref(st.run, role)) == VolumeAt(st.scene, Ref(st.run, role))
    ensures SegmentsAt(s, Ref(st.run, role)) == SegmentsAt(st.scene, Ref(st.run, role))
    ensures Live(st.scene, Ref(st.run, role)) ==> Live(s, Ref(st.run, role))
  {
  }

  /** `m` with `id` mapped to `to`, or without `id` for `None`. */
  function Link(m: map<NodeId, NodeId>, id: NodeId, to: Option<NodeId>): (r: map<NodeId, NodeId>)
    ensures forall x | x != id :: (x in r <==> x in m) && (x in r ==> r[x] == m[x])
    ensures (id in r <==> to.Some?) && (to.Some? ==> r[id] == to.value)
    ensures r.Keys <= m.Keys + {id}
  {
    match to
    case Some(v) => m[id := v]
    case None => m - {id}
  }

  /** Where the study is filed: under the patient when that item exists. */
  function PatientParent(s: Scene, patient: NodeId): Option<NodeId> {
    if patient in s.nodes then Some(patient) else None
  }

  /** Node `id` holds `n`, observes `tf` and is filed under `parent`. */
  ghost predicate Filed(s: Scene, id: NodeId, n: Node, tf: Option<NodeId>, parent: Option<NodeId>) {
    id in s.nodes && s.nodes[id] == n && Observed(s, id) == tf && StudyOf(s, Some(id)) == parent
  }

  lemma GrowsKeepsFiled(s: Scene, r: Scene, id: NodeId, n: Node, tf: Option<NodeId>, parent: Option<NodeId>)
    requires Grows(s, r) && Filed(s, id, n, tf, parent)
    ensures Filed(r, id, n, tf, parent)
  {
  }

  /** Adds a study item filed under `parent` and two items filed in it, each
      observing the given transform, under the next three ids. */
  function AddStudy(s: Scene, study: Node, parent: Option<NodeId>,
                    first: Node, firstTf: Option<NodeId>, second: Node, secondTf: Option<NodeId>): (r: Scene)
    requires Valid(s)
    requires parent.Some? ==> parent.value in s.nodes
    requires firstTf.Some? ==> firstTf.value in s.nodes
    requires secondTf.Some? ==> secondTf.value in s.nodes
    ensures r.nextId == s.nextId + 3
    ensures Filed(r, s.nextId, study, None, parent)
    ensures Filed(r, s.nextId + 1, first, firstTf, Some(s.nextId))
    ensures Filed(r, s.nextId + 2, second, secondTf, Some(s.nextId))
  {
    var id := s.nextId;
    Scene(s.nodes[id := study][id + 1 := first][id + 2 := second],
          Link(Link(s.parentTransform, id + 1, firstTf), id + 2, secondTf),
          Link(Link(Link(s.shParent, id, parent), id + 1, Some(id)), id + 2, Some(id)),
          id + 3)
  }

  /** The study layout keeps the scene valid. */
  lemma AddStudyValid(s: Scene, study: Node, parent: Option<NodeId>,
                      first: Node, firstTf: Option<NodeId>, second: Node, secondTf: Option<NodeId>)
    requires Valid(s)
    requires parent.Some? ==> parent.value in s.nodes
    requires firstTf.Some? ==> firstTf.value in s.nodes
    requires secondTf.Some? ==> secondTf.value in s.nodes
    ensures Valid(AddStudy(s, study, parent, first, firstTf, second, secondTf))
  {
    var r := AddStudy(s, study, parent, first, firstTf, second, secondTf);
    var keys := r.nodes.Keys;
    assert s.nodes.Keys + {s.nextId, s.nextId + 1, s.nextId + 2} == keys;
    NewIdsBelow(s.nodes.Keys, s.nextId, keys);
    StudyLinksInto(s, keys, parent, firstTf, secondTf);
    LinkedValid(r);
  }

  /** A scene is valid when its ids are positive and below the counter and
      both reference maps link live nodes. */
  lemma LinkedValid(r: Scene)
    requires r.nextId > 0 && (forall x | x in r.nodes.Keys :: 0 < x < r.nextId)
    requires LinksInto(r.parentTransform, r.nodes.Keys) && LinksInto(r.shParent, r.nodes.Keys)
    ensures Valid(r)
  {
  }

  /** The reference maps of the study layout link nodes of the new scene. */
  lemma StudyLinksInto(s: Scene, keys: set<NodeId>, parent: Option<NodeId>,
                       firstTf: Option<NodeId>, secondTf: Option<NodeId>)
    requires Valid(s) && s.nodes.Keys + {s.nextId, s.nextId + 1, s.nextId + 2} == keys
    requires parent.Some? ==> parent.value in s.nodes
    requires firstTf.Some? ==> firstTf.value in s.nodes
    requires secondTf.Some? ==> secondTf.value in s.nodes
    ensures LinksInto(Link(Link(s.parentTransform, s.nextId + 1, firstTf), s.nextId + 2, secondTf), keys)
    ensures LinksInto(Link(Link(Link(s.shParent, s.nextId, parent), s.nextId + 1, Some(s.nextId)),
                           s.nextId + 2, Some(s.nextId)), keys)
  {
    var id := s.nextId;
    assert LinksInto(s.parentTransform, keys);
    LinkInto(s.parentTransform, keys, id + 1, firstTf);
    LinkInto(Link(s.parentTransform, id + 1, firstTf), keys, id + 2, secondTf);
    assert LinksInto(s.shParent, keys);
    LinkInto(s.shParent, keys, id, parent);
    LinkInto(Link(s.shParent, id, parent), keys, id + 1, Some(id));
    LinkInto(Link(Link(s.shParent, id, parent), id + 1, Some(id)), keys, id + 2, Some(id));
  }

  /** Three ids issued at `next` keep every id positive and below the new
      counter. */
  lemma NewIdsBelow(before: set<NodeId>, next: NodeId, keys: set<NodeId>)
    requires next > 0 && (forall x | x in before :: 0 < x < next)
    requires keys == before + {next, next + 1, next + 2}
    ensures forall x | x in keys :: 0 < x < next + 3
  {
  }

  /** Every entry of `m` links two members of `keys`. */
  ghost predicate LinksInto(m: map<NodeId, NodeId>, keys: set<NodeId>) {
    forall x | x in m :: x in keys && m[x] in keys
  }

  lemma LinkInto(m: map<NodeId, NodeId>, keys: set<NodeId>, id: NodeId, to: Option<NodeId>)
    requires LinksInto(m, keys) && id in keys && (to.Some? ==> to.value in keys)
    ensures LinksInto(Link(m, id, to), keys)
  {
  }

  /** The study layout only adds to the scene. */
  lemma AddStudyGrows(s: Scene, study: Node, parent: Option<NodeId>,
                      first: Node, firstTf: Option<NodeId>, second: Node, secondTf: Option<NodeId>)
    requires Valid(s)
    requires parent.Some? ==> parent.value in s.nodes
    requires firstTf.Some? ==> firstTf.value in s.nodes
    requires secondTf.Some? ==> secondTf.value in s.nodes
    ensures Grows(s, AddStudy(s, study, parent, first, firstTf, second, secondTf))
  {
    var r := AddStudy(s, study, parent, first, firstTf, second, secondTf);
    forall x | x in s.nodes ensures Same(s, r, x) {
      LinkAway(s.parentTransform, s.nextId, firstTf, secondTf, x);
      LinkAway(Link(s.shParent, s.nextId, parent), s.nextId, Some(s.nextId), Some(s.nextId), x);
    }
  }

  /** The study layout's links leave an older id's entry alone. */
  lemma LinkAway(m: map<NodeId, NodeId>, id: NodeId, a: Option<NodeId>, b: Option<NodeId>, x: NodeId)
    requires x < id
    ensures x in Link(Link(m, id + 1, a), id + 2, b) <==> x in m
    ensures x in m ==> Link(Link(m, id + 1, a), id + 2, b)[x] == m[x]
  {
  }

  /** First export: a study under the patient holding a renamed clone of the
      MRI segmentation (observing what the segmentation observes) and a copy
      of the source volume, the MRI copy observing the B-spline transform. The
      three new ids are issued in that order. */
  function CreateExport(t: Target, st: State, patient: NodeId): (r: ExportOutcome)
    requires Coherent(st) && InputsPresent(t, st, patient) && Live(st.scene, Ref(st.run, Bspline))
    ensures r.Opened? && Coherent(r.after) && r.after.run == st.run
    ensures r.nodes == ExportNodes(Some(st.scene.nextId + 2), Some(st.scene.nextId + 1))
    ensures r.study == Some(st.scene.nextId)
    ensures Grows(st.scene, r.after.scene) && r.after.scene.nextId == st.scene.nextId + 3
  {
    var seg := Ref(st.run, MovingSegmentation).value;
    var segNode := st.scene.nodes[seg];
    var src := st.scene.nodes[Ref(st.run, SourceVolume(t)).value];
    var s := AddStudy(st.scene, Node(StudyName(t), Folder, "", []), PatientParent(st.scene, patient),
                      segNode.(name := segNode.name + SegmentationSuffix(t)), Observed(st.scene, seg),
                      ExportVolume(t, src), if t.MrStudy? then Ref(st.run, Bspline) else None);
    AddStudyValid(st.scene, Node(StudyName(t), Folder, "", []), PatientParent(st.scene, patient),
                  segNode.(name := segNode.name + SegmentationSuffix(t)), Observed(st.scene, seg),
                  ExportVolume(t, src), if t.MrStudy? then Ref(st.run, Bspline) else None);
    AddStudyGrows(st.scene, Node(StudyName(t), Folder, "", []), PatientParent(st.scene, patient),
                  segNode.(name := segNode.name + SegmentationSuffix(t)), Observed(st.scene, seg),
                  ExportVolume(t, src), if t.MrStudy? then Ref(st.run, Bspline) else None);
    Opened(State(s, st.run), ExportNodes(Some(st.scene.nextId + 2), Some(st.scene.nextId + 1)), Some(st.scene.nextId))
  }

  /** exportDeformed*StudyToDicom. */
  function Export(t: Target, st: State, patient: NodeId, nodes: ExportNodes): (r: ExportOutcome)
    requires Coherent(st)
    ensures r == Refused(MissingInputs) <==> !InputsPresent(t, st, patient)
    ensures r == Refused(MissingRegistration) <==>
              InputsPresent(t, st, patient) && !Live(st.scene, Ref(st.run, Bspline))
    ensures r == Refused(PartialExport) <==>
              InputsPresent(t, st, patient) && Live(st.scene, Ref(st.run, Bspline))
              && Live(st.scene, nodes.volume) != Live(st.scene, nodes.segmentation)
    ensures r == Refused(SplitExport) <==>
              InputsPresent(t, st, patient) && Live(st.scene, Ref(st.run, Bspline))
              && Live(st.scene, nodes.volume) && Live(st.scene, nodes.segmentation)
              && StudyOf(st.scene, nodes.volume) != StudyOf(st.scene, nodes.segmentation)
    ensures r.Opened? ==> Coherent(r.after) && r.after.run == st.run
  {
    if !InputsPresent(t, st, patient) then Refused(MissingInputs)
    else if !Live(st.scene, Ref(st.run, Bspline)) then Refused(MissingRegistration)
    else if !Live(st.scene, nodes.volume) && !Live(st.scene, nodes.segmentation) then CreateExport(t, st, patient)
    else if Live(st.scene, nodes.volume) != Live(st.scene, nodes.segmentation) then Refused(PartialExport)
    else if StudyOf(st.scene, nodes.segmentation) != StudyOf(st.scene, nodes.volume) then Refused(SplitExport)
    else Opened(st, nodes, StudyOf(st.scene, nodes.segmentation))
  }

  /** With both export nodes in one branch the scene is left as it is and the
      dialog opens on their common parent. */
  lemma ExportExisting(t: Target, st: State, patient: NodeId, nodes: ExportNodes)
    requires Coherent(st) && InputsPresent(t, st, patient) && Live(st.scene, Ref(st.run, Bspline))
    requires Live(st.scene, nodes.volume) && Live(st.scene, nodes.segmentation)
    requires StudyOf(st.scene, nodes.volume) == StudyOf(st.scene, nodes.segmentation)
    ensures Export(t, st, patient, nodes) == Opened(st, nodes, StudyOf(st.scene, nodes.volume))
  {
  }

  /** The first export creates a new study under the patient and files both
      export nodes in it: the clone of the MRI segmentation and the copy of
      the source volume, the MRI copy observing the B-spline transform. */
  lemma CreateExportContents(t: Target, st: State, patient: NodeId)
    requires Coherent(st) && InputsPresent(t, st, patient) && Live(st.scene, Ref(st.run, Bspline))
    ensures var s := CreateExport(t, st, patient).after.scene;
            var study := st.scene.nextId;
            var seg := Ref(st.run, MovingSegmentation).value;
            var src := st.scene.nodes[Ref(st.run, SourceVolume(t)).value];
            && Filed(s, study, Node(StudyName(t), Folder, "", []), None, PatientParent(st.scene, patient))
            && Filed(s, study + 1, st.scene.nodes[seg].(name := st.scene.nodes[seg].name + SegmentationSuffix(t)),
                     Observed(st.scene, seg), Some(study))
            && Filed(s, study + 2, ExportVolume(t, src), if t.MrStudy? then Ref(st.run, Bspline) else None, Some(study))
  {
  }

  /** Exporting again after a first export reuses what it created: the scene
      is left as it is and the dialog opens on the same study. */
  lemma ExportReusesStudy(t: Target, st: State, patient: NodeId)
    requires Coherent(st) && InputsPresent(t, st, patient) && Live(st.scene, Ref(st.run, Bspline))
    ensures var first := Export(t, st, patient, ExportNodes(None, None));
            && first.Opened? && first.study == Some(st.scene.nextId)
            && Export(t, first.after, patient, first.nodes) == first
  {
    var first := CreateExport(t, st, patient);
    CreateExportContents(t, st, patient);
    GrowsKeepsRef(st, first.after.scene, SourceVolume(t));
    GrowsKeepsRef(st, first.after.scene, MovingSegmentation);
    GrowsKeepsRef(st, first.after.scene, Bspline);
    ExportExisting(t, first.after, patient, first.nodes);
  }
}
