/** Patient-driven input selection in the prostate module: parsing a
    subject-hierarchy patient for its volume and segmentation
    (parseUSPatient, parseMRPatient) and guessing the initial patients by
    name (selectInitialPatients). */
module Patients {
  import opened Options
  import opened Scene
  import opened Workflow

  /** The invalid subject-hierarchy item id. */
  const InvalidItem: NodeId := 0

  /** Ultrasound is the fixed side of the prostate workflow, MRI the moving side. */
  datatype Side = US | MR

  function Modality(side: Side): string {
    match side
    case US => "US"
    case MR => "MR"
  }

  function VolumeRole(side: Side): Role {
    match side
    case US => FixedVolume
    case MR => MovingVolume
  }

  function SegmentationRole(side: Side): Role {
    match side
    case US => FixedSegmentation
    case MR => MovingSegmentation
  }

  /** The patient chosen for one side and the patient last parsed for it. */
  datatype PatientSelection = PatientSelection(patient: NodeId, parsed: NodeId)

  /** What the parse loop keeps: a scalar volume (labelmaps are scalar
      volumes too) of the side's DICOM modality, or any segmentation. */
  datatype Kind = SeriesVolume(modality: string) | AnySegmentation

  predicate Matches(s: Scene, id: NodeId, k: Kind) {
    && id in s.nodes
    && match k
       case SeriesVolume(m) =>
         (s.nodes[id].data.ScalarVolume? || s.nodes[id].data.LabelmapVolume?) && s.nodes[id].modality == m
       case AnySegmentation => s.nodes[id].data.Segmentation?
  }

  /** The last node of `ids` of kind `k`. */
  function LastMatching(s: Scene, ids: seq<NodeId>, k: Kind): (r: Option<NodeId>)
    ensures r.Some? <==> exists i | 0 <= i < |ids| :: Matches(s, ids[i], k)
    ensures r.Some? ==> exists i | 0 <= i < |ids| :: ids[i] == r.value && Matches(s, ids[i], k)
                          && forall j | i < j < |ids| :: !Matches(s, ids[j], k)
    decreases |ids|
  {
    if |ids| == 0 then None
    else if Matches(s, ids[|ids| - 1], k) then Some(ids[|ids| - 1])
    else
      var r := LastMatching(s, ids[..|ids| - 1], k);
      assert forall i | 0 <= i < |ids| - 1 :: ids[..|ids| - 1][i] == ids[i];
      r
  }

  /** The parse loop: walks the branch's data nodes in order, each match
      replacing the previous one. */
  method ScanBranch(s: Scene, side: Side, branch: seq<NodeId>) returns (volume: Option<NodeId>, segmentation: Option<NodeId>)
    ensures volume == LastMatching(s, branch, SeriesVolume(Modality(side)))
    ensures segmentation == LastMatching(s, branch, AnySegmentation)
  {
    volume := None;
    segmentation := None;
    var i := 0;
    while i < |branch|
      invariant 0 <= i <= |branch|
      invariant volume == LastMatching(s, branch[..i], SeriesVolume(Modality(side)))
      invariant segmentation == LastMatching(s, branch[..i], AnySegmentation)
    {
      assert branch[..i + 1][..i] == branch[..i];
      var node := branch[i];
      if Matches(s, node, SeriesVolume(Modality(side))) {
        volume := Some(node);
      }
      if Matches(s, node, AnySegmentation) {
        segmentation := Some(node);
      }
      i := i + 1;
    }
    assert branch[..i] == branch;
  }

  /** The subject-hierarchy data nodes are live nodes of the scene. */
  predicate InScene(s: Scene, branch: seq<NodeId>) {
    forall i | 0 <= i < |branch| :: branch[i] in s.nodes
  }

  /** parseUSPatient / parseMRPatient over the data nodes of the patient's
      branch. An invalid patient, or the one already parsed, leaves
      everything as it is, so a selection the user changed by hand is not
      overridden; otherwise both selections are reset and refilled. */
  function Parse(st: State, sel: PatientSelection, side: Side, branch: seq<NodeId>): (r: (State, PatientSelection))
    requires Coherent(st) && InScene(st.scene, branch)
    ensures Coherent(r.0) && r.0.scene == st.scene
    ensures sel.patient == InvalidItem || sel.patient == sel.parsed ==> r == (st, sel)
    ensures sel.patient != InvalidItem && sel.patient != sel.parsed ==>
              && Ref(r.0.run, VolumeRole(side)) == LastMatching(st.scene, branch, SeriesVolume(Modality(side)))
              && Ref(r.0.run, SegmentationRole(side)) == LastMatching(st.scene, branch, AnySegmentation)
              && SameBut(st.run, r.0.run, {VolumeRole(side), SegmentationRole(side)})
    ensures r.1 == sel.(parsed := sel.patient) || r.1 == sel
    ensures r.1.parsed == sel.patient || sel.patient == InvalidItem
  {
    if sel.patient == InvalidItem || sel.patient == sel.parsed then (st, sel)
    else
      var volume := LastMatching(st.scene, branch, SeriesVolume(Modality(side)));
      var segmentation := LastMatching(st.scene, branch, AnySegmentation);
      var reset := SetRef(SetRef(st.run, VolumeRole(side), None), SegmentationRole(side), None);
      var run := SetRef(SetRef(reset, VolumeRole(side), volume), SegmentationRole(side), segmentation);
      (State(st.scene, run), sel.(parsed := sel.patient))
  }

  /** onUSPatientSelectionChanged / onMRPatientSelectionChanged: records the
      patient, then parses it. */
  function SelectPatient(st: State, sel: PatientSelection, side: Side, patient: NodeId,
                         branch: seq<NodeId>): (r: (State, PatientSelection))
    requires Coherent(st) && InScene(st.scene, branch)
    ensures Coherent(r.0) && r.1.patient == patient
  {
    Parse(st, sel.(patient := patient), side, branch)
  }

  /** Re-parsing is suppressed: once a patient is parsed, selecting it again
      keeps whatever selection the user made since, whatever the branch. */
  lemma {:induction false} ReselectKeepsChoice(st: State, sel: PatientSelection, side: Side, patient: NodeId,
                                               branch: seq<NodeId>, choice: Run, branch2: seq<NodeId>)
    requires Coherent(st) && InScene(st.scene, branch) && InScene(st.scene, branch2)
    requires Coherent(State(st.scene, choice))
    ensures var first := SelectPatient(st, sel, side, patient, branch);
            SelectPatient(State(st.scene, choice), first.1, side, patient, branch2) == (State(st.scene, choice), first.1)
  {
    var first := SelectPatient(st, sel, side, patient, branch);
    assert first.1.patient == patient;
    assert first.1.parsed == patient || patient == InvalidItem;
  }

  /** Parsing twice is parsing once. */
  lemma ParseIdempotent(st: State, sel: PatientSelection, side: Side, branch: seq<NodeId>)
    requires Coherent(st) && InScene(st.scene, branch)
    ensures var r := Parse(st, sel, side, branch);
            Parse(r.0, r.1, side, branch) == r
  {
  }

  /** Parsing one side leaves the other side's inputs alone. */
  lemma ParseKeepsOtherSide(st: State, sel: PatientSelection, side: Side, branch: seq<NodeId>, other: Side)
    requires Coherent(st) && InScene(st.scene, branch) && other != side
    ensures var r := Parse(st, sel, side, branch);
            && Ref(r.0.run, VolumeRole(other)) == Ref(st.run, VolumeRole(other))
            && Ref(r.0.run, SegmentationRole(other)) == Ref(st.run, SegmentationRole(other))
  {
    var r := Parse(st, sel, side, branch);
    if sel.patient != InvalidItem && sel.patient != sel.parsed {
      RefUnchanged(st.run, r.0.run, {VolumeRole(side), SegmentationRole(side)}, VolumeRole(other));
      RefUnchanged(st.run, r.0.run, {VolumeRole(side), SegmentationRole(side)}, SegmentationRole(other));
    }
  }

  /** A top-level subject-hierarchy item: its id, whether it is at patient
      level, and its name. */
  datatype Item = Item(id: NodeId, isPatient: bool, name: string)

  /** `sub` occurs in `name` at position `i`. */
  predicate OccursAt(name: string, sub: string, i: nat) {
    i + |sub| <= |name| && name[i..i + |sub|] == sub
  }

  /** Python's substring test `sub in name`. */
  predicate Contains(name: string, sub: string) {
    exists i: nat | i <= |name| :: OccursAt(name, sub, i)
  }

  /** A patient whose name contains `sub`. */
  predicate Candidate(item: Item, sub: string) {
    item.isPatient && Contains(item.name, sub)
  }

  /** The first patient among `items` whose name contains `sub`, or the
      invalid id. */
  function FirstCandidate(items: seq<Item>, sub: string): (r: NodeId)
    requires forall i | 0 <= i < |items| :: items[i].id != InvalidItem
    ensures r != InvalidItem <==> exists i | 0 <= i < |items| :: Candidate(items[i], sub)
    ensures r != InvalidItem ==> exists i | 0 <= i < |items| :: items[i].id == r && Candidate(items[i], sub)
                                   && forall j | 0 <= j < i :: !Candidate(items[j], sub)
    decreases |items|
  {
    if |items| == 0 then InvalidItem
    else if Candidate(items[0], sub) then items[0].id
    else
      var r := FirstCandidate(items[1..], sub);
      assert forall i | 1 <= i < |items| :: items[1..][i - 1] == items[i];
      r
  }

  /** selectInitialPatients: one pass over the scene's top-level items; a
      side's candidate is taken from the first match and never replaced. */
  method SelectInitialPatients(items: seq<Item>) returns (us: NodeId, mr: NodeId)
    requires forall i | 0 <= i < |items| :: items[i].id != InvalidItem
    ensures us == FirstCandidate(items, "US")
    ensures mr == FirstCandidate(items, "MR")
  {
    us := InvalidItem;
    mr := InvalidItem;
    var i := 0;
    while i < |items|
      invariant 0 <= i <= |items|
      invariant us == FirstCandidate(items[..i], "US")
      invariant mr == FirstCandidate(items[..i], "MR")
    {
      var item := items[i];
      us := KeepFirst(items[..i], us, item, "US");
      mr := KeepFirst(items[..i], mr, item, "MR");
      assert items[..i + 1] == items[..i] + [item];
      i := i + 1;
    }
    assert items[..i] == items;
  }

  /** One step of the pass: an existing candidate stays; otherwise a
      matching patient becomes the candidate. */
  method KeepFirst(seen: seq<Item>, candidate: NodeId, item: Item, sub: string) returns (r: NodeId)
    requires forall i | 0 <= i < |seen| :: seen[i].id != InvalidItem
    requires item.id != InvalidItem && candidate == FirstCandidate(seen, sub)
    ensures r == FirstCandidate(seen + [item], sub)
  {
    FirstCandidateExtend(seen, item, sub);
    r := candidate;
    if Candidate(item, sub) && candidate == InvalidItem {
      r := item.id;
    }
  }

  /** The first candidate of a longer list is the old one if there was one,
      else the new item if it matches. */
  lemma {:induction false} FirstCandidateExtend(items: seq<Item>, item: Item, sub: string)
    requires forall i | 0 <= i < |items| :: items[i].id != InvalidItem
    requires item.id != InvalidItem
    ensures FirstCandidate(items + [item], sub) ==
              if FirstCandidate(items, sub) != InvalidItem then FirstCandidate(items, sub)
              else if Candidate(item, sub) then item.id else InvalidItem
    decreases |items|
  {
    if |items| > 0 {
      assert (items + [item])[1..] == items[1..] + [item];
      FirstCandidateExtend(items[1..], item, sub);
    }
  }

  /** The patient of the bundled test data carries both "US" and "MR" in its
      name, so it is guessed for both sides. */
  lemma TestPatientChosenForBoth(id: NodeId)
    requires id != InvalidItem
    ensures var items := [Item(id, true, "0PHYSIQUE^F_MRI_US_4 (PHYEP004)")];
            FirstCandidate(items, "US") == id && FirstCandidate(items, "MR") == id
  {
    var name := "0PHYSIQUE^F_MRI_US_4 (PHYEP004)";
    assert OccursAt(name, "US", 16);
    assert OccursAt(name, "MR", 12);
  }
}
