/** The external engines the workflow drives: the crop-volume module, the
    scalar-volume resampling command-line module, labelmap resampling onto a
    reference grid, and distance-map based registration. Their internals are
    not part of this model; each is a function parameter, or a function whose
    contract is only what the workflow relies on. */
module Engines {
  import opened Options
  import opened Geometry
  import opened Scene

  /** The volume the crop module creates, or no output. */
  datatype Cropped = Cropped(name: string, geometry: ImageGeometry)

  /** Voxel-based crop of a volume to a region of interest. */
  type CropEngine = (ImageGeometry, Roi) -> Option<Cropped>

  /** Parameters of the resampling command-line module, as passed to it. */
  datatype ResampleRequest = ResampleRequest(outputPixelSpacing: string, interpolationType: string)

  /** The request both variants send: 1 x 1 x 1 mm voxels, Lanczos kernel. */
  const IsotropicLanczos := ResampleRequest("1,1,1", "lanczos")

  /** The resampling module reads the input node's stored voxels; it does not
      apply a parent transform. */
  type ScalarResampler = (Node, ResampleRequest) -> ImageGeometry

  /** The four images the registration engine is given. */
  datatype EngineInputs = EngineInputs(
    fixedVolume: Option<NodeId>,
    fixedLabelmap: Option<NodeId>,
    movingVolume: Option<NodeId>,
    movingLabelmap: Option<NodeId>)

  /** Whether the engine's apply action returned or raised. */
  datatype EngineRun = Finished | Threw

  type RegistrationEngine = EngineInputs -> EngineRun

  /** The geometry check the labelmap stage uses: origin, spacing and
      directions (the lattice), compared exactly. */
  predicate GeometriesMatch(a: ImageGeometry, b: ImageGeometry) {
    a.lattice == b.lattice
  }

  predicate ExtentsMatch(a: ImageGeometry, b: ImageGeometry) {
    a.extent == b.extent
  }

  /** Resampling a labelmap onto a reference image. The result lies on the
      reference lattice; without padding it has the reference extent, with
      padding it is enlarged to keep the input's extent as well. */
  function ResampleToReference(image: ImageGeometry, reference: ImageGeometry, pad: bool): (r: ImageGeometry)
    ensures GeometriesMatch(r, reference)
    ensures !pad ==> r == reference
    ensures pad ==> ExtentCovers(r.extent, reference.extent) && ExtentCovers(r.extent, image.extent)
  {
    if pad then ImageGeometry(reference.lattice, ExtentHull(reference.extent, image.extent)) else reference
  }
}
