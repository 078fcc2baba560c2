/** The segment selectors of both modules (populateSegmentCombobox,
    populateProstateSegmentCombobox and the segment selection handlers): the
    combobox lists one item per segment, showing the segment's name and
    carrying its store id, and the handler hands the chosen item's text to
    the logic object. The prostate logic looks the text up as a name; the
    generic logic looks it up as a store id, which only works when a
    segment's id and name coincide. */
module SegmentCombobox {
  import opened Options
  import opened Geometry
  import opened Scene
  import opened Workflow

  /** A combobox item: the text shown and the data attached to it. */
  datatype ComboItem = ComboItem(text: string, data: string)

  datatype Combo = Combo(items: seq<ComboItem>, enabled: bool)

  /** Which of the two selectors: the fixed (ultrasound) or the moving (MRI) one. */
  datatype Selector = FixedSelector | MovingSelector

  /** The items list every segment in store order, by name and store id. */
  predicate Lists(items: seq<ComboItem>, segments: seq<Segment>) {
    && |items| == |segments|
    && forall i | 0 <= i < |items| :: items[i] == ComboItem(segments[i].name, segments[i].id)
  }

  /** populate*SegmentCombobox. The combobox is cleared and enabled exactly
      when there is a segmentation with at least one segment; then each store
      id is looked up and its segment's name shown, with the id attached.
      `signal` is the last current-index change the combobox reports: index
      -1 when clearing emptied it, index 0 when the first item arrived, none
      when it stayed empty. */
  method PopulateSegmentCombobox(segmentation: Option<seq<Segment>>, before: Combo)
    returns (after: Combo, signal: Option<int>)
    ensures after.enabled <==> segmentation.Some? && |segmentation.value| > 0
    ensures !after.enabled ==> after.items == []
    ensures after.enabled ==> && |after.items| == |segmentation.value|
                              && forall i | 0 <= i < |after.items| :: after.items[i].data == segmentation.value[i].id
    ensures after.enabled && UniqueIds(segmentation.value) ==> Lists(after.items, segmentation.value)
    ensures after.enabled ==> signal == Some(0)
    ensures !after.enabled ==> signal == (if |before.items| > 0 then Some(-1) else None)
  {
    var valid := segmentation.Some? && |segmentation.value| > 0;
    signal := if |before.items| > 0 then Some(-1) else None;
    if !valid {
      return Combo([], false), signal;
    }
    var segments := segmentation.value;
    var items: seq<ComboItem> := [];
    var k := 0;
    while k < |segments|
      invariant 0 <= k <= |segments| && |items| == k
      invariant forall i | 0 <= i < k :: items[i] == ItemFor(segments, segments[i].id)
      invariant k > 0 ==> signal == Some(0)
    {
      var id := segments[k].id;
      items := items + [ItemFor(segments, id)];
      if k == 0 {
        signal := Some(0);
      }
      k := k + 1;
    }
    after := Combo(items, true);
    if UniqueIds(segments) {
      forall i | 0 <= i < |items|
        ensures items[i] == ComboItem(segments[i].name, segments[i].id)
      {
        GetSegmentOfStoredId(segments, i);
      }
    }
  }

  /** The item for a listed store id: the name of the segment stored under it. */
  function ItemFor(segments: seq<Segment>, id: string): (r: ComboItem)
    requires exists i | 0 <= i < |segments| :: segments[i].id == id
    ensures r.data == id
  {
    ComboItem(GetSegment(segments, id).value.name, id)
  }

  /** With unique store ids, looking up a listed segment's id finds it. */
  lemma {:induction false} GetSegmentOfStoredId(segments: seq<Segment>, i: int)
    requires UniqueIds(segments) && 0 <= i < |segments|
    ensures GetSegment(segments, segments[i].id) == Some(segments[i])
    decreases |segments|
  {
    if i > 0 {
      assert segments[0].id != segments[i].id;
      assert UniqueIds(segments[1..]) by {
        forall a, b | 0 <= a < b < |segments| - 1
          ensures segments[1..][a].id != segments[1..][b].id
        {
          assert segments[1..][a] == segments[a + 1] && segments[1..][b] == segments[b + 1];
        }
      }
      GetSegmentOfStoredId(segments[1..], i - 1);
    }
  }

  /** What the selection handler receives, as written: `currentIndexChanged`
      carries the text of the item at the new index, or the empty text for
      index -1. Both modules store it unchanged as the selected segment. */
  function SegmentSelectionAsWritten(c: Combo, index: int): (r: string)
    ensures 0 <= index < |c.items| ==> r == c.items[index].text
    ensures !(0 <= index < |c.items|) ==> r == []
  {
    if 0 <= index < |c.items| then c.items[index].text else []
  }

  /** The corrected selection, from the finding on the generic module's
      combobox handler: the prostate module keeps the item text (the name,
      which its logic looks up by name); the generic module should pass the
      item's data, the store id its logic looks up, where as written it
      passes the text. */
  function SegmentSelection(v: Variant, c: Combo, index: int): (r: string)
    ensures v.Prostate? ==> r == SegmentSelectionAsWritten(c, index)
    ensures v.Generic? && 0 <= index < |c.items| ==> r == c.items[index].data
  {
    if !(0 <= index < |c.items|) then []
    else match v
      case Prostate => c.items[index].text
      case Generic => c.items[index].data
  }

  /** on*SegmentSelectionChanged as written, in both modules: records the
      item text for one side and leaves everything else of the logic object
      alone. */
  function OnSegmentSelectionChanged(run: Run, selector: Selector, c: Combo, index: int): (r: Run)
    ensures r.refs == run.refs && r.keepIntermediateNodes == run.keepIntermediateNodes
    ensures selector.FixedSelector? ==> r.fixedSegment == SegmentSelectionAsWritten(c, index) && r.movingSegment == run.movingSegment
    ensures selector.MovingSelector? ==> r.movingSegment == SegmentSelectionAsWritten(c, index) && r.fixedSegment == run.fixedSegment
  {
    match selector
    case FixedSelector => run.(fixedSegment := SegmentSelectionAsWritten(c, index))
    case MovingSelector => run.(movingSegment := SegmentSelectionAsWritten(c, index))
  }

  /** The corrected handler: records the corrected selection for one side.
      For the prostate module it is the handler as written. */
  function OnSegmentSelectionChangedCorrected(v: Variant, run: Run, selector: Selector, c: Combo, index: int): (r: Run)
    ensures r.refs == run.refs && r.keepIntermediateNodes == run.keepIntermediateNodes
    ensures selector.FixedSelector? ==> r.fixedSegment == SegmentSelection(v, c, index) && r.movingSegment == run.movingSegment
    ensures selector.MovingSelector? ==> r.movingSegment == SegmentSelection(v, c, index) && r.fixedSegment == run.fixedSegment
    ensures v.Prostate? ==> r == OnSegmentSelectionChanged(run, selector, c, index)
  {
    match selector
    case FixedSelector => run.(fixedSegment := SegmentSelection(v, c, index))
    case MovingSelector => run.(movingSegment := SegmentSelection(v, c, index))
  }

  /** The selection names the chosen segment for the logic of either variant:
      the generic logic finds exactly the chosen segment, the prostate logic
      a segment whose name matches the chosen one's, ignoring case. */
  lemma SelectionFindsSegment(v: Variant, segments: seq<Segment>, c: Combo, index: int)
    requires Lists(c.items, segments) && UniqueIds(segments) && 0 <= index < |segments|
    ensures var found := SelectedSegment(v, segments, SegmentSelection(v, c, index));
            && found.Some?
            && SameName(found.value.name, segments[index].name)
            && (v.Generic? ==> found == Some(segments[index]))
  {
    if v.Generic? {
      GetSegmentOfStoredId(segments, index);
    }
  }

  /** As written, the generic logic receives the name and looks it up as a
      store id: it finds a segment exactly when some segment's id equals the
      chosen segment's name. */
  lemma GenericSelectionAsWrittenNeedsIdEqualName(segments: seq<Segment>, c: Combo, index: int)
    requires Lists(c.items, segments) && 0 <= index < |segments|
    ensures SelectedSegment(Generic, segments, SegmentSelectionAsWritten(c, index)).Some?
            <==> exists j | 0 <= j < |segments| :: segments[j].id == segments[index].name
  {
    assert SegmentSelectionAsWritten(c, index) == segments[index].name;
  }

  /** A segment stored under id "Segment_1" and named "target": after
      populating, the only item's text is "target", and the generic logic
      finds no segment under that id. */
  lemma GenericSelectionAsWrittenMisses(bounds: Bounds, labelmap: ImageGeometry, c: Combo)
    requires Lists(c.items, [Segment("Segment_1", "target", bounds, labelmap)])
    ensures SegmentSelectionAsWritten(c, 0) == "target"
    ensures SelectedSegment(Generic, [Segment("Segment_1", "target", bounds, labelmap)], SegmentSelectionAsWritten(c, 0)).None?
  {
    var segments := [Segment("Segment_1", "target", bounds, labelmap)];
    assert c.items[0] == ComboItem("target", "Segment_1");
    assert segments[0].id != "target";
  }

  /** Populating a non-empty segmentation selects the first segment; under
      the corrected handler (for the prostate module, the handler as
      written) both variants' logic then finds it. */
  lemma PopulatedSelectionFindsFirst(v: Variant, segments: seq<Segment>, c: Combo, run: Run, selector: Selector)
    requires Lists(c.items, segments) && UniqueIds(segments) && |segments| > 0
    ensures var r := OnSegmentSelectionChangedCorrected(v, run, selector, c, 0);
            var selected := if selector.FixedSelector? then r.fixedSegment else r.movingSegment;
            var found := SelectedSegment(v, segments, selected);
            && found.Some? && SameName(found.value.name, segments[0].name)
            && (v.Generic? ==> found == Some(segments[0]))
  {
    SelectionFindsSegment(v, segments, c, 0);
  }
}
