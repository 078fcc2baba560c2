# Prostate MRI-US contour propagation and segment registration: a verified model

Two 3D Slicer modules register a moving image onto a fixed image with the
same workflow:

- the prostate module works on an MRI study (moving) and an ultrasound study (fixed);
- the generic segment-registration module works on any pair.

The registration is driven by one segment of each side's segmentation. The
workflow runs five stages in order:

1. crop the moving volume to a box around its segmentation;
2. pre-align the moving images by translating the centre of the moving
   segment's bounding box onto the fixed segment's, and harden that
   translation;
3. resample the fixed volume to 1 mm isotropic voxels;
4. turn both segments into labelmap volumes on the cropped moving volume's grid;
5. run distance-map based registration, which creates an affine and a
   B-spline transform, and then remove the intermediate nodes.

After a run, the user switches the moving images between no transform, the
rigid result and the deformable result.

The prostate module adds three things around the workflow:

- it picks each side's volume and segmentation by parsing a DICOM patient;
- it guesses the initial patients by name;
- it prepares DICOM export studies and computes fiducial (landmark) errors.

The Dafny model is one pipeline parameterised by `Workflow.Variant`
(`Prostate` or `Generic`). The ultrasound side of the prostate module is the
fixed side.

The scene is an immutable `Scene.Scene`:

- live nodes by id;
- the parent-transform reference of each node;
- the subject-hierarchy parent of each item (its study);
- an id counter.

The logic object's references are a `Workflow.Run`, one optional node id per
`Workflow.Role`. Each stage is a pure function from a `Workflow.State` to a
`Workflow.Outcome`:

- `Skipped`: an early return before any change;
- `Done`;
- `Stopped`: an early return after a change;
- `Faulted`: a `None` reference dereferenced, so an exception.

The external engines are function parameters (`Engines`). Their only
contracts are the ones the workflow relies on. Those engines are the crop
module, the scalar resampling module, labelmap resampling onto a reference
grid, and the registration engine.

The source files are `ProstateMRIUSContourPropagation/ProstateMRIUSContourPropagation.py`
(the prostate module) and `SegmentRegistration/SegmentRegistration.py` (the
generic module).

Three behaviours of the code a reader might not expect, all modelled as written:

- `performRegistration` calls all five stages unconditionally. It does not
  stop at the first failing stage.
- An empty segmentation does not stop the crop stage. Its uninitialised
  bounds are passed on.
- A missing segmentation in the labelmap stage is only logged. The dereference
  that follows then raises. In the prostate module, a missing fixed (US)
  segmentation raises only after the moving (MR) copy has been made, filed
  and hardened, so that copy stays in the scene.

## Model

| member | source | states |
|---|---|---|
| Geometry.Center | ProstateMRIUSContourPropagation/ProstateMRIUSContourPropagation.py:618 | the centre is equidistant from the two faces of the box on every axis |
| Geometry.Shift | ProstateMRIUSContourPropagation/ProstateMRIUSContourPropagation.py:719-721 | moving a box rigidly keeps its three extents and moves its centre by the translation |
| Geometry.Hull | ProstateMRIUSContourPropagation/ProstateMRIUSContourPropagation.py:617 | the hull encloses both boxes, and any box that encloses both also encloses the hull |
| Geometry.UnionBounds | ProstateMRIUSContourPropagation/ProstateMRIUSContourPropagation.py:617 | a segmentation's bounds exist exactly when it has segments, and they enclose every segment's box |
| Geometry.UnionBoundsIsLeast | ProstateMRIUSContourPropagation/ProstateMRIUSContourPropagation.py:617 | every box that encloses all segments encloses the union: the union is the tightest such box |
| Geometry.CropRoi | ProstateMRIUSContourPropagation/ProstateMRIUSContourPropagation.py:616-626 | the ROI is centred on the box midpoint; both in-plane radii are 1.5 times the left-right extent; the inferior-superior radius is the whole inferior-superior extent |
| Geometry.CropRoiCoversIff | SegmentRegistration/SegmentRegistration.py:385-390 | because the y radius reuses the x extent, the ROI covers a non-degenerate box exactly when its anterior-posterior extent is at most three times its left-right extent |
| Geometry.Identity4 | ProstateMRIUSContourPropagation/ProstateMRIUSContourPropagation.py:694 | a new 4x4 matrix is the identity |
| Geometry.SetElement | ProstateMRIUSContourPropagation/ProstateMRIUSContourPropagation.py:695-697 | writing one matrix element leaves the other fifteen unchanged |
| Geometry.TranslationMatrix | ProstateMRIUSContourPropagation/ProstateMRIUSContourPropagation.py:694-698 | the pre-alignment matrix is a pure translation whose column 3 holds the translation |
| Geometry.TranslationMovesPoints | ProstateMRIUSContourPropagation/ProstateMRIUSContourPropagation.py:698 | a pure translation matrix moves every point by its column 3 |
| Geometry.PreAlignmentTranslation | ProstateMRIUSContourPropagation/ProstateMRIUSContourPropagation.py:689 | the translation carries the moving centre onto the fixed centre, and the moved moving box is centred on the fixed box |
| Geometry.PreAlignmentMatrixCentres | SegmentRegistration/SegmentRegistration.py:449-458 | the pre-alignment matrix maps the moving segment's centre onto the fixed segment's centre |
| Geometry.TranslateGeometry | SegmentRegistration/SegmentRegistration.py:479-481 | hardening a translation into an image moves its origin by the translation and keeps spacing, directions and extent |
| Geometry.ExtentHull | SegmentRegistration/SegmentRegistration.py:529 | the padded extent covers both the reference extent and the input extent, and it is the least extent that does |
| Engines.ResampleToReference | ProstateMRIUSContourPropagation/ProstateMRIUSContourPropagation.py:796 | the result lies on the reference lattice; without padding it is the reference geometry; with padding its extent covers both inputs' extents |
| Scene.GetSegment | SegmentRegistration/SegmentRegistration.py:432 | a segment is found exactly when some segment has that id, and the one found has that id and belongs to the segmentation |
| Scene.SegmentIdByName | ProstateMRIUSContourPropagation/ProstateMRIUSContourPropagation.py:670 | an id is found exactly when some segment carries the name, ignoring letter case, and it is the id of a segment with that name |
| Scene.SegmentByName | ProstateMRIUSContourPropagation/ProstateMRIUSContourPropagation.py:670-671 | the name lookup finds a segment exactly when some segment carries the name, ignoring letter case; with unique ids the segment found carries it |
| Scene.TranslateSegments | ProstateMRIUSContourPropagation/ProstateMRIUSContourPropagation.py:720 | hardening moves every segment of a segmentation by the translation and keeps their order and number |
| Scene.GetSegmentTranslated | SegmentRegistration/SegmentRegistration.py:519-521 | after the segments are moved, an id finds the moved copy of the segment it found before |
| Scene.NameMatchIgnoresCase | ProstateMRIUSContourPropagation/ProstateMRIUSContourPropagation.py:670 | names match regardless of letter case ("Prostate" matches "prostate" and "PROSTATE") but not when a letter differs |
| Scene.SegmentIdByNameTranslated | ProstateMRIUSContourPropagation/ProstateMRIUSContourPropagation.py:783-786 | moving the segments does not change which id a name finds |
| Scene.AddNode | ProstateMRIUSContourPropagation/ProstateMRIUSContourPropagation.py:613 | a new node gets a fresh positive id at the top level without a parent transform, and nothing else changes |
| Scene.RemoveNodes | ProstateMRIUSContourPropagation/ProstateMRIUSContourPropagation.py:651 | removal deletes exactly the given live nodes, together with every transform and hierarchy link to or from them |
| Scene.SetParentTransform | ProstateMRIUSContourPropagation/ProstateMRIUSContourPropagation.py:714 | the node observes the given transform, or none, and every other node's transform is unchanged |
| Scene.SetItemParent | ProstateMRIUSContourPropagation/ProstateMRIUSContourPropagation.py:648 | the item is filed under the parent; an invalid parent changes nothing |
| Scene.Harden | ProstateMRIUSContourPropagation/ProstateMRIUSContourPropagation.py:719 | the node holds its contents with its parent transform, and every transform above that, baked in and has no parent transform; every other node is unchanged |
| Scene.BindAll | ProstateMRIUSContourPropagation/ProstateMRIUSContourPropagation.py:714-716 | every listed node observes the transform; other nodes keep theirs |
| Scene.HardenAll | ProstateMRIUSContourPropagation/ProstateMRIUSContourPropagation.py:719-721 | every listed node, none of them a transform, is baked against the scene as it was before the first hardening and loses its parent transform; other nodes are unchanged |
| Scene.BakedTranslationChain | ProstateMRIUSContourPropagation/ProstateMRIUSContourPropagation.py:719-721 | a node under one translation whose transform observes a second translation is moved by the sum of the two: hardening follows the chain of transforms to the world |
| Scene.Clone | ProstateMRIUSContourPropagation/ProstateMRIUSContourPropagation.py:739 | the clone is a renamed copy under a fresh id that observes the original's parent transform |
| Scene.BakedClone | ProstateMRIUSContourPropagation/ProstateMRIUSContourPropagation.py:739-742 | hardening the clone gives the original's hardened contents under the clone's name |
| Workflow.SetRef | ProstateMRIUSContourPropagation/ProstateMRIUSContourPropagation.py:566-567 | setting or clearing one reference leaves every other reference and field of the logic object unchanged |
| Workflow.Fresh | SegmentRegistration/SegmentRegistration.py:336-356 | a new logic object holds the four selected inputs and no derived node |
| Workflow.SelectedSegment | ProstateMRIUSContourPropagation/ProstateMRIUSContourPropagation.py:670-671 | the prostate lookup finds a segment exactly when one carries the selected name, ignoring letter case; the generic lookup finds one exactly when one has the selected id |
| CropStage.SegmentationBounds | ProstateMRIUSContourPropagation/ProstateMRIUSContourPropagation.py:616-617 | the segmentation's bounds enclose every segment; with no segment they are the uninitialised box |
| CropStage.SegmentationBoundsIsLeast | SegmentRegistration/SegmentRegistration.py:380-381 | no smaller box encloses every segment |
| CropStage.PlaceRoi | ProstateMRIUSContourPropagation/ProstateMRIUSContourPropagation.py:610-633 | the stage adds the ROI node, the crop region named after the moving volume, and then the crop-parameters node, under the next two ids |
| CropStage.FileOutput | ProstateMRIUSContourPropagation/ProstateMRIUSContourPropagation.py:638-648 | the crop output is added under a fresh id and filed under the study when there is one |
| CropStage.DisposeRoi | ProstateMRIUSContourPropagation/ProstateMRIUSContourPropagation.py:650-657 | the ROI is removed unless intermediates are kept, in which case it is filed under the study; other filings are kept |
| CropStage.CropFiled | ProstateMRIUSContourPropagation/ProstateMRIUSContourPropagation.py:637-660 | after filing, the cropped-volume reference is set and no other reference changes |
| CropStage.CropStopped | ProstateMRIUSContourPropagation/ProstateMRIUSContourPropagation.py:638-641 | without output the cropped-volume reference is cleared and no other reference changes |
| CropStage.Crop | ProstateMRIUSContourPropagation/ProstateMRIUSContourPropagation.py:604-660 | the stage is skipped exactly when the moving volume or segmentation is missing, stops exactly when the crop module returns nothing, and never raises |
| CropStage.CropOnlyAdds | SegmentRegistration/SegmentRegistration.py:368-422 | the crop stage changes no node, transform or filing that existed before it |
| CropStage.CropFiledHoldsOutput | SegmentRegistration/SegmentRegistration.py:402-410 | the output is a new node holding the crop module's volume, filed under the moving volume's study exactly when that volume has one |
| CropStage.CropFilesOutput | SegmentRegistration/SegmentRegistration.py:406-410 | a completed crop holds the module's output in a new node, filed under the moving volume's study exactly when that volume has one |
| CropStage.CropFiledRoiKept | ProstateMRIUSContourPropagation/ProstateMRIUSContourPropagation.py:650-657 | after filing, the ROI node is in the scene exactly when intermediates are kept |
| CropStage.CropRoiKeptIff | SegmentRegistration/SegmentRegistration.py:402-419 | a completed crop keeps the ROI exactly when intermediates are kept; a crop without output leaves the ROI in any case |
| PreAlignStage.MoveAll | ProstateMRIUSContourPropagation/ProstateMRIUSContourPropagation.py:691-721 | moving adds exactly one node, the transform, under the next id |
| PreAlignStage.MoveAllMoves | ProstateMRIUSContourPropagation/ProstateMRIUSContourPropagation.py:714-721 | every bound and hardened node ends moved by the translation |
| PreAlignStage.PreAlign | ProstateMRIUSContourPropagation/ProstateMRIUSContourPropagation.py:663-698 | the stage is skipped, with no change, exactly when one of the four inputs is missing or a segment lookup fails; otherwise only the pre-alignment reference changes |
| PreAlignStage.PreAlignMovesInputs | SegmentRegistration/SegmentRegistration.py:474-481 | after pre-alignment the moving volume, the moving segmentation and the cropped volume are each moved by the translation and have no parent transform |
| PreAlignStage.PreAlignKeepsOthers | ProstateMRIUSContourPropagation/ProstateMRIUSContourPropagation.py:691-698 | the only new node is the named transform holding the translation matrix; every other node, parent transform and filing is as it was |
| PreAlignStage.SelectedSegmentTranslated | ProstateMRIUSContourPropagation/ProstateMRIUSContourPropagation.py:719-721 | after the segmentation is moved, either variant's lookup finds the moved copy of the segment it found before |
| PreAlignStage.TranslatedSegmentCentred | ProstateMRIUSContourPropagation/ProstateMRIUSContourPropagation.py:676-689 | moving a segmentation by the pre-alignment translation centres its selected segment on the fixed box |
| PreAlignStage.PreAlignMovesSegmentation | ProstateMRIUSContourPropagation/ProstateMRIUSContourPropagation.py:715-720 | pre-alignment replaces the moving segmentation's segments by their translated copies |
| PreAlignStage.PreAlignCentresSegments | SegmentRegistration/SegmentRegistration.py:437-481 | after pre-alignment, the selected moving segment's box is centred on the fixed segment's centre |
| ResampleStage.HardenedCopy | ProstateMRIUSContourPropagation/ProstateMRIUSContourPropagation.py:736-742 | the hardened copy is the one new node, under the next id |
| ResampleStage.HardenedCopyContents | ProstateMRIUSContourPropagation/ProstateMRIUSContourPropagation.py:736-742 | the copy holds the original with its whole chain of parent transforms baked in; the copy has no parent transform; every old node is unchanged |
| ResampleStage.HardenedCopyFiled | ProstateMRIUSContourPropagation/ProstateMRIUSContourPropagation.py:740 | the copy is filed where the original is, and every filing is kept |
| ResampleStage.HardenedCopyExtends | ProstateMRIUSContourPropagation/ProstateMRIUSContourPropagation.py:735-742 | making a hardened copy changes nothing that was in the scene |
| ResampleStage.Resampled | ProstateMRIUSContourPropagation/ProstateMRIUSContourPropagation.py:729-755 | once the fixed volume resolves, the state stays coherent and only the resampled-volume and hardened-copy references change |
| ResampleStage.Resample | SegmentRegistration/SegmentRegistration.py:484-506 | the stage is skipped exactly when the fixed volume is missing and never raises |
| ResampleStage.ResampleOutputFiled | ProstateMRIUSContourPropagation/ProstateMRIUSContourPropagation.py:731-755 | the resampled volume is a new node holding the module's output for the 1 mm Lanczos request, filed under the fixed volume's study exactly when that volume has one |
| ResampleStage.ResampleReadsHardenedCopy | ProstateMRIUSContourPropagation/ProstateMRIUSContourPropagation.py:735-746 | the prostate module resamples a new, unparented-transform copy of the fixed volume with its whole chain of transforms baked in, filed next to it |
| ResampleStage.GenericResampleReadsOriginal | SegmentRegistration/SegmentRegistration.py:495-497 | the generic module resamples the fixed volume as stored and makes no copy |
| ResampleStage.ResampleOnlyAdds | ProstateMRIUSContourPropagation/ProstateMRIUSContourPropagation.py:724-755 | the resampling stage changes nothing that existed before it |
| LabelmapStage.HardenSegmentations | ProstateMRIUSContourPropagation/ProstateMRIUSContourPropagation.py:764-776 | the two hardened copies get the next two ids and only their references change |
| LabelmapStage.HardenMoving | ProstateMRIUSContourPropagation/ProstateMRIUSContourPropagation.py:764-769 | the moving copy is a new node under the next id, held in the moving hardened role; no other reference changes |
| LabelmapStage.HardenSegmentationsContents | ProstateMRIUSContourPropagation/ProstateMRIUSContourPropagation.py:764-776 | the copies are two distinct new nodes holding each segmentation with its whole chain of transforms baked in and no parent transform; the rest of the scene only grows |
| LabelmapStage.ReadBuffers | ProstateMRIUSContourPropagation/ProstateMRIUSContourPropagation.py:782-790 | when the inputs can be read, the reference grid is the cropped moving volume's geometry |
| LabelmapStage.Align | SegmentRegistration/SegmentRegistration.py:527-531 | the generic module resamples, with padding, only when the lattices differ, and the result shares the reference lattice; the prostate module's result is the reference geometry; a matching buffer is kept |
| LabelmapStage.AddPairFiled | SegmentRegistration/SegmentRegistration.py:553-557 | the two labelmaps get the next two ids and are filed under the two given studies |
| LabelmapStage.AddLabelmaps | ProstateMRIUSContourPropagation/ProstateMRIUSContourPropagation.py:802-827 | the fixed labelmap gets the next id and the moving one the id after it; only the two labelmap references change |
| LabelmapStage.Labelmaps | ProstateMRIUSContourPropagation/ProstateMRIUSContourPropagation.py:758-827 | the stage raises exactly when a segmentation is missing or the reads fail; otherwise it completes; only the labelmap-stage references change |
| LabelmapStage.BakedSelection | ProstateMRIUSContourPropagation/ProstateMRIUSContourPropagation.py:783-786 | baking a segmentation's chain of transforms in does not change whether the selected segment is found |
| LabelmapStage.HardenedSegments | ProstateMRIUSContourPropagation/ProstateMRIUSContourPropagation.py:769-776 | the hardened copies hold the baked segments of the originals |
| LabelmapStage.ReadsThroughCopies | ProstateMRIUSContourPropagation/ProstateMRIUSContourPropagation.py:783-790 | copies that hold the baked segments are read successfully exactly when the originals hold the selected segments |
| LabelmapStage.HardenedReads | ProstateMRIUSContourPropagation/ProstateMRIUSContourPropagation.py:763-790 | the prostate module reads the selected segments from the copies exactly when the originals hold them and the cropped volume exists |
| LabelmapStage.LabelmapsSetRefs | ProstateMRIUSContourPropagation/ProstateMRIUSContourPropagation.py:802-810 | a completed labelmap stage holds both labelmap references |
| LabelmapStage.PreparedReads | SegmentRegistration/SegmentRegistration.py:514-524 | the state the segments are read from only grew, and the reads succeed exactly when everything the stage reads resolves |
| LabelmapStage.LabelmapsFaultIff | ProstateMRIUSContourPropagation/ProstateMRIUSContourPropagation.py:760-790 | the stage raises exactly when a segmentation, a selected segment or the cropped volume is missing; a missing segmentation raises before anything changes, except that the prostate module has already copied a present moving segmentation |
| LabelmapStage.PreparedKeeps | ProstateMRIUSContourPropagation/ProstateMRIUSContourPropagation.py:817-820 | the hardened copies leave the cropped volume and both studies as the stage found them |
| LabelmapStage.AddLabelmapsOnGrid | ProstateMRIUSContourPropagation/ProstateMRIUSContourPropagation.py:793-799 | the prostate labelmaps lie exactly on the reference grid; the generic ones share its lattice |
| LabelmapStage.AddLabelmapsFiled | ProstateMRIUSContourPropagation/ProstateMRIUSContourPropagation.py:817-827 | each labelmap is filed under its side's study, and nothing earlier changes |
| LabelmapStage.LabelmapsOnGrid | ProstateMRIUSContourPropagation/ProstateMRIUSContourPropagation.py:793-810 | both labelmaps are distinct new labelmap volumes with the variant's names; the prostate ones lie on the cropped volume's grid and the generic ones share its lattice |
| LabelmapStage.LabelmapsFiled | SegmentRegistration/SegmentRegistration.py:550-557 | the generic module files the fixed labelmap under the moving study and the moving labelmap under the fixed study; the prostate module files each under its own side's study |
| LabelmapStage.LabelmapsLeavesMovingCopy | ProstateMRIUSContourPropagation/ProstateMRIUSContourPropagation.py:760-772 | with the moving segmentation present and the fixed one missing, the prostate stage raises after adding the moving segmentation's hardened copy under the next id, its transforms baked in and none left, and changes no earlier node |
| LabelmapStage.LabelmapsOnlyAdds | SegmentRegistration/SegmentRegistration.py:509-557 | the labelmap stage changes nothing that existed before it |
| RegistrationStage.RegisterReadsOnlyInputs | ProstateMRIUSContourPropagation/ProstateMRIUSContourPropagation.py:836-839 | the engine's verdict depends only on the selected fixed and moving volumes and the two labelmaps: two states that agree on these four register alike, whatever resampled or cropped nodes they hold |
| RegistrationStage.AddOutputs | ProstateMRIUSContourPropagation/ProstateMRIUSContourPropagation.py:844 | the engine's nodes take the next ids in order, and no old node or link changes |
| RegistrationStage.NewestNamed | ProstateMRIUSContourPropagation/ProstateMRIUSContourPropagation.py:870 | the name lookup finds a live node of that name, and no newer live node has that name |
| RegistrationStage.RemoveNamed | ProstateMRIUSContourPropagation/ProstateMRIUSContourPropagation.py:870-878 | removal by name only removes nodes and changes none of the nodes that remain |
| RegistrationStage.RemoveNamedKeeps | ProstateMRIUSContourPropagation/ProstateMRIUSContourPropagation.py:870-878 | a node whose name is not looked up survives the removals |
| RegistrationStage.RemoveNamedNewest | SegmentRegistration/SegmentRegistration.py:596-604 | when the newest nodes carry the distinct names in order, removal by name takes out exactly those nodes |
| RegistrationStage.IdsOf | ProstateMRIUSContourPropagation/ProstateMRIUSContourPropagation.py:861-867 | an id is collected exactly when one of the given roles holds it |
| RegistrationStage.ArtifactNamesDistinct | ProstateMRIUSContourPropagation/ProstateMRIUSContourPropagation.py:870-878 | the nine engine node names are distinct, and neither output transform's name is among them |
| RegistrationStage.PlanOfSound | SegmentRegistration/SegmentRegistration.py:589-604 | cleanup never targets the two output transforms, by role or by name |
| RegistrationStage.CleanupOf | ProstateMRIUSContourPropagation/ProstateMRIUSContourPropagation.py:859-878 | cleanup removes every node an intermediate role holds, changes no remaining node and keeps the logic object's references |
| RegistrationStage.Cleanup | SegmentRegistration/SegmentRegistration.py:589-604 | cleanup removes at least the variant's intermediates and keeps the references |
| RegistrationStage.CleanupKeeps | ProstateMRIUSContourPropagation/ProstateMRIUSContourPropagation.py:859-878 | cleanup keeps every node that no intermediate role holds and no engine name finds |
| RegistrationStage.CleanupRemoves | SegmentRegistration/SegmentRegistration.py:589-604 | when the engine's nodes are the newest, cleanup removes exactly them and the intermediates |
| RegistrationStage.WithTransforms | ProstateMRIUSContourPropagation/ProstateMRIUSContourPropagation.py:840-841 | the affine and B-spline transforms are the next two nodes, and only their references change |
| RegistrationStage.EngineRan | ProstateMRIUSContourPropagation/ProstateMRIUSContourPropagation.py:844 | the engine adds its named nodes under the next ids and changes no old node |
| RegistrationStage.Finish | ProstateMRIUSContourPropagation/ProstateMRIUSContourPropagation.py:843-854 | after the engine call the state stays coherent and the references are unchanged |
| RegistrationStage.RegisterWith | ProstateMRIUSContourPropagation/ProstateMRIUSContourPropagation.py:830-856 | the stage always returns, sets exactly the two transform references to the next two ids, and is truthy exactly when the engine finished |
| RegistrationStage.Register | SegmentRegistration/SegmentRegistration.py:560-586 | both variants' registration stage returns, creates the two transforms under the next ids, and succeeds exactly when the engine finished |
| RegistrationStage.FinishSpares | ProstateMRIUSContourPropagation/ProstateMRIUSContourPropagation.py:850-851 | a node that is neither an intermediate nor named like an engine node survives the engine call unchanged |
| RegistrationStage.FinishCleansUp | ProstateMRIUSContourPropagation/ProstateMRIUSContourPropagation.py:850-878 | cleanup right after the engine removes every engine node and intermediate and nothing else |
| RegistrationStage.RegisterWithCreatesTransforms | ProstateMRIUSContourPropagation/ProstateMRIUSContourPropagation.py:840-841 | the two transforms are new nodes and survive cleanup |
| RegistrationStage.RegisterCreatesTransforms | SegmentRegistration/SegmentRegistration.py:570-571 | the affine and B-spline transforms are new nodes left in the scene after the stage |
| RegistrationStage.RegisterKeepsNodes | SegmentRegistration/SegmentRegistration.py:572-585 | when intermediates are kept, or when the engine raised, no node is removed or changed |
| RegistrationStage.RegisterWithKeepsOutputs | ProstateMRIUSContourPropagation/ProstateMRIUSContourPropagation.py:852-854 | with intermediates kept, the engine's nodes stay in the scene after the two transforms |
| RegistrationStage.RegisterWithCleansUp | ProstateMRIUSContourPropagation/ProstateMRIUSContourPropagation.py:850-878 | after a successful run without keeping intermediates, the scene holds the old nodes less the intermediates, plus the two transforms |
| RegistrationStage.RegisterCleansUp | SegmentRegistration/SegmentRegistration.py:580-604 | after a successful run without keeping intermediates, the three intermediates and the nine engine nodes are gone and nothing else is |
| RegistrationStage.Prepare | ProstateMRIUSContourPropagation/ProstateMRIUSContourPropagation.py:551-553 | the preparation stages run in order without stopping and set only the cropped, pre-alignment, resampled and hardened-copy references |
| RegistrationStage.PerformRegistration | SegmentRegistration/SegmentRegistration.py:359-365 | the workflow always ends in a coherent state |
| RegistrationStage.PrepareKeepsInputs | SegmentRegistration/SegmentRegistration.py:361-363 | no preparation stage changes the four input references, the segment selections or the keep flag |
| RegistrationStage.PerformRegistrationRaisesIff | ProstateMRIUSContourPropagation/ProstateMRIUSContourPropagation.py:549-555 | the workflow raises exactly when something the labelmap stage reads is missing after preparation |
| RegistrationStage.PerformRegistrationSucceedsIff | SegmentRegistration/SegmentRegistration.py:359-365 | the workflow's result is the registration stage's: it succeeds exactly when the labelmaps can be made and the engine, given the selected volumes and the new labelmaps, finishes |
| TransformModes.Apply | ProstateMRIUSContourPropagation/ProstateMRIUSContourPropagation.py:896-917 | each mode completes exactly when the moving volume, segmentation and transform exist, and then binds both to the same transform; a missing volume or transform changes nothing; no other node's transform changes |
| TransformModes.LastModeWins | ProstateMRIUSContourPropagation/ProstateMRIUSContourPropagation.py:394-400 | switching modes leaves the scene that choosing the last mode directly gives |
| TransformModes.ApplyIdempotent | SegmentRegistration/SegmentRegistration.py:291-297 | choosing the same mode again changes nothing |
| TransformModes.DeformableShown | SegmentRegistration/SegmentRegistration.py:623-628 | the deformable mode binds both moving inputs to the B-spline transform whenever they and the transform exist |
| TransformModes.RegisteredShowsDeformable | ProstateMRIUSContourPropagation/ProstateMRIUSContourPropagation.py:386-388 | after registration, selecting the deformable mode binds the moving volume and segmentation to the new B-spline transform |
| Patients.LastMatching | ProstateMRIUSContourPropagation/ProstateMRIUSContourPropagation.py:570-577 | a node is picked exactly when one in the branch matches, and it is the last matching one |
| Patients.ScanBranch | ProstateMRIUSContourPropagation/ProstateMRIUSContourPropagation.py:570-577 | the parse loop keeps the last volume of the side's modality and the last segmentation |
| Patients.Parse | ProstateMRIUSContourPropagation/ProstateMRIUSContourPropagation.py:558-578 | an invalid or already-parsed patient leaves everything as it is; otherwise the side's volume and segmentation become the last matches, nothing else changes, and the patient is recorded as parsed |
| Patients.SelectPatient | ProstateMRIUSContourPropagation/ProstateMRIUSContourPropagation.py:283-285 | the selected patient is recorded whether or not it was parsed before, and the state stays coherent |
| Patients.ReselectKeepsChoice | ProstateMRIUSContourPropagation/ProstateMRIUSContourPropagation.py:561-563 | once a patient is parsed, selecting it again keeps whatever selection the user made since |
| Patients.ParseIdempotent | ProstateMRIUSContourPropagation/ProstateMRIUSContourPropagation.py:581-601 | parsing twice is parsing once |
| Patients.ParseKeepsOtherSide | ProstateMRIUSContourPropagation/ProstateMRIUSContourPropagation.py:589-590 | parsing one side leaves the other side's volume and segmentation alone |
| Patients.FirstCandidate | ProstateMRIUSContourPropagation/ProstateMRIUSContourPropagation.py:469-477 | a patient is guessed exactly when some top-level patient's name contains the text, and it is the first such patient |
| Patients.SelectInitialPatients | ProstateMRIUSContourPropagation/ProstateMRIUSContourPropagation.py:463-477 | the single pass guesses, for each side, the first patient whose name contains "US" or "MR" |
| Patients.KeepFirst | ProstateMRIUSContourPropagation/ProstateMRIUSContourPropagation.py:474-477 | one step of the pass keeps the first candidate over a longer list |
| Patients.FirstCandidateExtend | ProstateMRIUSContourPropagation/ProstateMRIUSContourPropagation.py:474-477 | the first candidate of a longer list is the old one if there was one, else the new item if it matches |
| Patients.TestPatientChosenForBoth | ProstateMRIUSContourPropagation/ProstateMRIUSContourPropagation.py:1384-1385 | the test patient "0PHYSIQUE^F_MRI_US_4 (PHYEP004)" is guessed for both sides |
| DicomExport.AddStudy | ProstateMRIUSContourPropagation/ProstateMRIUSContourPropagation.py:929-972 | the study is filed under the patient, and both export nodes are filed in it, each observing its transform |
| DicomExport.AddStudyGrows | ProstateMRIUSContourPropagation/ProstateMRIUSContourPropagation.py:929-972 | creating the export study leaves every old node, its transform and its filing as they were |
| DicomExport.CreateExport | ProstateMRIUSContourPropagation/ProstateMRIUSContourPropagation.py:929-972 | the first export adds three nodes under the next ids, changes nothing else and opens on the new study |
| DicomExport.Export | ProstateMRIUSContourPropagation/ProstateMRIUSContourPropagation.py:920-990 | export refuses exactly when the patient, volume or segmentation is missing, when there is no B-spline transform, when only one export node exists, or when the two sit under different parents |
| DicomExport.ExportExisting | ProstateMRIUSContourPropagation/ProstateMRIUSContourPropagation.py:978-985 | with both export nodes in one branch the scene is left as it is and the dialog opens on their parent |
| DicomExport.CreateExportContents | ProstateMRIUSContourPropagation/ProstateMRIUSContourPropagation.py:929-972 | the new study holds the renamed clone of the MRI segmentation and the copy of the source volume; the MRI copy observes the B-spline transform |
| DicomExport.ExportReusesStudy | ProstateMRIUSContourPropagation/ProstateMRIUSContourPropagation.py:974-985 | exporting again after a first export reuses its study and changes nothing |
| FiducialErrors.Abs | ProstateMRIUSContourPropagation/ProstateMRIUSContourPropagation.py:1172-1174 | the absolute difference is non-negative and equal to the difference or its negation |
| FiducialErrors.DropPrefix | ProstateMRIUSContourPropagation/ProstateMRIUSContourPropagation.py:1168 | the column name is the label without its first 13 characters, and empty for shorter labels |
| FiducialErrors.CalculateFiducialErrors | ProstateMRIUSContourPropagation/ProstateMRIUSContourPropagation.py:1129-1176 | the calculation fails exactly when a list is missing, the counts differ or both lists are empty; otherwise it gives one column per pair, in list order |
| FiducialErrors.DistanceFromAxes | ProstateMRIUSContourPropagation/ProstateMRIUSContourPropagation.py:1170 | the squared 3D error is the sum of the squared per-axis errors |
| FiducialErrors.SquaredErrorNonNegative | ProstateMRIUSContourPropagation/ProstateMRIUSContourPropagation.py:1170 | the squared 3D error is never negative |
| FiducialErrors.AxisErrorsZeroIff | ProstateMRIUSContourPropagation/ProstateMRIUSContourPropagation.py:1172-1174 | the three per-axis errors are all zero exactly when the two fiducials coincide |
| FiducialErrors.ErrorsSymmetric | ProstateMRIUSContourPropagation/ProstateMRIUSContourPropagation.py:1170-1174 | the errors do not depend on which list is the ultrasound one |
| FiducialErrors.ColumnNameAfterPrefix | ProstateMRIUSContourPropagation/ProstateMRIUSContourPropagation.py:1168 | a label made of a 13-character prefix and a name gives exactly that name |
| SegmentCombobox.PopulateSegmentCombobox | SegmentRegistration/SegmentRegistration.py:308-320 | the combobox is enabled exactly when there is a segmentation with segments, and then lists every segment in store order by name, carrying its id; it is otherwise empty; the reported current index is 0 after filling, -1 when clearing emptied it, and none otherwise |
| SegmentCombobox.GetSegmentOfStoredId | SegmentRegistration/SegmentRegistration.py:318-319 | with unique ids, looking up a listed segment's id finds that segment |
| SegmentCombobox.SegmentSelectionAsWritten | SegmentRegistration/SegmentRegistration.py:83 | the selection handler receives the text of the item at the new index, or the empty text |
| SegmentCombobox.SegmentSelection | SegmentRegistration/SegmentRegistration.py:232-233 | the corrected selection of the finding below: the prostate module keeps the item text, as written; the generic module is given the item's data, the segment id, where as written it is given the text |
| SegmentCombobox.OnSegmentSelectionChanged | ProstateMRIUSContourPropagation/ProstateMRIUSContourPropagation.py:302-303 | as written in both modules (also SegmentRegistration/SegmentRegistration.py:233 and 246), the handler records the item text for one side and changes nothing else |
| SegmentCombobox.OnSegmentSelectionChangedCorrected | SegmentRegistration/SegmentRegistration.py:232-233 | the corrected handler of the finding below records the corrected selection for one side and changes nothing else; for the prostate module it equals the handler as written |
| SegmentCombobox.SelectionFindsSegment | SegmentRegistration/SegmentRegistration.py:432-443 | with the corrected selection, the generic logic finds exactly the chosen segment, and the prostate logic finds a segment whose name matches its name |
| SegmentCombobox.GenericSelectionAsWrittenNeedsIdEqualName | SegmentRegistration/SegmentRegistration.py:432 | as written, the generic logic finds a segment exactly when some segment's id equals the chosen segment's name |
| SegmentCombobox.GenericSelectionAsWrittenMisses | SegmentRegistration/SegmentRegistration.py:440 | as written, a segment with id "Segment_1" named "target" is listed but not found |
| SegmentCombobox.PopulatedSelectionFindsFirst | ProstateMRIUSContourPropagation/ProstateMRIUSContourPropagation.py:436-448 | after populating, the first segment is selected; under the corrected handler, which for the prostate module is the handler as written, the generic logic finds it and the prostate logic finds a segment whose name matches it |

## Left out

- FiducialErrors.SquaredErrorNonNegative: it states only that the squared 3D error is non-negative. It does not state that the error is zero exactly when the fiducials coincide, because that needs nonlinear real arithmetic the solver does not close. `FiducialErrors.AxisErrorsZeroIff` states it for the per-axis errors.
- FiducialErrors.CalculateFiducialErrors: the table holds the square root of the squared distance, and each value is formatted with `str()`. Neither is modelled. The fiducial table node and its name are not modelled either.
- RegistrationStage.Cleanup: its own contract only promises that the intermediates go. That exactly the engine's nine nodes go too is stated by `RegistrationStage.RegisterCleansUp`, under the assumption that the engine creates its nodes under those nine names, in order.
- RegistrationStage.PerformRegistration: its own contract is coherence only. The raise and success conditions are stated by `RegistrationStage.PerformRegistrationRaisesIff` and `RegistrationStage.PerformRegistrationSucceedsIff`.
- Qt widgets and signal wiring. The model keeps only three decision parts: the segment combobox (including the current-index signals of clearing and of the first added item), the segment selection handlers and initial-patient guessing. The node comboboxes the patient handlers update are not modelled.
- selectInitialPatients has a comment "select first patient as US otherwise", but the code has no such fallback, so neither does the model.
- Engine internals: voxel cropping, Lanczos resampling, labelmap conversion and distance-map registration are foreign code. They are function parameters, or functions whose contract is what the workflow relies on. The registration engine is assumed to create its nodes with the nine fixed names.
- Transform contents: only translations are applied numerically. Hardening any other transform records it on the node as a warp.
- Scene.Baked: a parent reference to a node that is not a transform is not followed; Slicer does not let such a reference form.
- Scene.SegmentIdByName: only the ASCII letters are folded to lower case. Among several matching segments the first in store order is found.
- `GenerateUniqueName`: the model uses the base names.
- The 250 ms timer that defers cleanup is a crash workaround. Cleanup is modelled as a synchronous step right after the engine.
- The subject-hierarchy item lookups that can return an invalid item (for the cropped volume, the ROI, the resampled volume and the labelmaps) are assumed to succeed. The early returns on their failure are not modelled.
- The success flags of the labelmap-volume creation calls are not modelled. The source only logs them.
- `getNode` on a missing name is modelled as removing nothing. A stale reference, to a removed node, behaves as unset.
- The order of `GetDataNodesInBranch` is a parameter: the branch's data nodes in the order the subject hierarchy returns them.
- DICOM export: the export dialog is not modelled; the outcome names the study it opens on. Also left out:
  - the branch that resamples the MRI onto the ultrasound geometry, which refers to an undefined variable;
  - the attributes that `Copy` brings over other than contents;
  - the check of the patient item beyond its id being non-zero.
- Segment comparison (Dice and Hausdorff), fiducial list creation, result visualisation and the test classes' downloads, database and file I/O.
- Floating-point rounding: geometry is over reals.
- Image geometry is a lattice (origin, spacing, abstract directions) and an index extent. The geometry check compares lattices exactly. Padding enlarges the extent to the hull of both extents.
- Node removal drops the removed node's hierarchy links. Slicer may re-home children instead.

## Findings

| source | as written | input that shows it | evidently intended | confidence | as-written member | corrected member |
|---|---|---|---|---|---|---|
| SegmentRegistration/SegmentRegistration.py:232-233 | the segment combobox lists each segment by name with its id as item data; its `currentIndexChanged(QString)` handler (lines 83, 110) stores the item text, the segment name, as the selected segment; the logic then looks that text up as a segment id (lines 432, 440, 519, 521) | a segmentation holding one segment stored under id "Segment_1" and named "target": the selection is "target", no segment has that id, so pre-alignment stops and the labelmap stage raises | pass the item data, the segment id, to the logic (or look the name up as the prostate module does) | not executed | SegmentCombobox.GenericSelectionAsWrittenMisses | SegmentCombobox.SelectionFindsSegment |
