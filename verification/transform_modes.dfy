/** The transformation modes the results section switches between
    (applyNoTransformation, applyRigidTransformation,
    applyDeformableTransformation): each makes the moving volume and the moving
    segmentation observe the same transform. The two variants' methods are
    identical. */
module TransformModes {
  import opened Options
  import opened Scene
  import opened Workflow
  import opened Engines
  import opened RegistrationStage

  datatype Mode = NoTransform | Rigid | Deformable

  /** The transform node the mode shows, for the reference that holds it. */
  function ModeRole(m: Mode): Option<Role> {
    match m
    case NoTransform => None
    case Rigid => Some(Affine)
    case Deformable => Some(Bspline)
  }

  /** The transform mode `m` binds to: none, or the transform its role holds. */
  function Target(st: State, m: Mode): Option<NodeId> {
    match ModeRole(m)
    case None => None
    case Some(role) => Ref(st.run, role)
  }

  /** What the method reads before the first binding: the moving volume and,
      except for `NoTransform`, the transform. */
  predicate VolumeStepReady(st: State, m: Mode) {
    && VolumeAt(st.scene, Ref(st.run, MovingVolume)).Some?
    && (m.NoTransform? || Live(st.scene, Target(st, m)))
  }

  /** Everything the method reads. */
  predicate Applicable(st: State, m: Mode) {
    VolumeStepReady(st, m) && SegmentsAt(st.scene, Ref(st.run, MovingSegmentation)).Some?
  }

  /** apply*Transformation. A missing input is only logged: a missing volume
      or transform is then dereferenced before anything changes, a missing
      segmentation after the volume has been bound, and both faults propagate. */
  function Apply(st: State, m: Mode): (o: Outcome)
    requires Coherent(st)
    ensures o.Done? || o.Faulted?
    ensures o.Done? <==> Applicable(st, m)
    ensures Coherent(o.after) && o.after.run == st.run
    ensures o.after.scene.nodes == st.scene.nodes && o.after.scene.shParent == st.scene.shParent
    ensures o.after.scene.nextId == st.scene.nextId
    ensures o.Done? ==> var vol := Ref(st.run, MovingVolume).value;
                        var seg := Ref(st.run, MovingSegmentation).value;
                        Observed(o.after.scene, vol) == Target(st, m) && Observed(o.after.scene, seg) == Target(st, m)
    ensures !VolumeStepReady(st, m) ==> o.after == st
    ensures VolumeStepReady(st, m) ==>
              Observed(o.after.scene, Ref(st.run, MovingVolume).value) == Target(st, m)
    ensures forall x | x in st.scene.nodes && Some(x) != Ref(st.run, MovingVolume)
                       && Some(x) != Ref(st.run, MovingSegmentation) ::
              Observed(o.after.scene, x) == Observed(st.scene, x)
  {
    if !VolumeStepReady(st, m) then Faulted(st)
    else
      var bound := SetParentTransform(st.scene, Ref(st.run, MovingVolume).value, Target(st, m));
      if SegmentsAt(st.scene, Ref(st.run, MovingSegmentation)).None? then Faulted(State(bound, st.run))
      else Done(State(SetParentTransform(bound, Ref(st.run, MovingSegmentation).value, Target(st, m)), st.run))
  }

  /** The mode shown depends only on the last choice: switching from any mode
      to an applicable `m` gives the scene that choosing `m` directly gives. */
  lemma LastModeWins(st: State, first: Mode, m: Mode)
    requires Coherent(st) && Apply(st, first).Done? && Apply(st, m).Done?
    ensures Apply(Apply(st, first).after, m).Done?
    ensures Apply(Apply(st, first).after, m).after.scene == Apply(st, m).after.scene
  {
    var mid := Apply(st, first).after;
    var vol := Ref(st.run, MovingVolume).value;
    var seg := Ref(st.run, MovingSegmentation).value;
    assert Target(mid, m) == Target(st, m);
    var a := Apply(mid, m).after.scene;
    var b := Apply(st, m).after.scene;
    forall x ensures Observed(a, x) == Observed(b, x) {
      if x !in st.scene.nodes {
        assert x !in a.parentTransform && x !in b.parentTransform;
      }
    }
    ObservedDetermines(a, b);
  }

  /** Two scenes whose nodes observe the same transforms have the same parent
      transform map. */
  lemma ObservedDetermines(a: Scene, b: Scene)
    requires forall x :: Observed(a, x) == Observed(b, x)
    ensures a.parentTransform == b.parentTransform
  {
    assert forall x :: x in a.parentTransform <==> Observed(a, x).Some?;
    assert forall x :: x in b.parentTransform <==> Observed(b, x).Some?;
  }

  /** Choosing the mode again changes nothing. */
  lemma ApplyIdempotent(st: State, m: Mode)
    requires Coherent(st) && Apply(st, m).Done?
    ensures Apply(Apply(st, m).after, m) == Apply(st, m)
  {
    LastModeWins(st, m, m);
  }

  /** The deformable mode applies whenever the moving inputs are present and
      the B-spline reference names a live node, and binds both to it. */
  lemma DeformableShown(st: State)
    requires Coherent(st)
    requires VolumeAt(st.scene, Ref(st.run, MovingVolume)).Some?
    requires SegmentsAt(st.scene, Ref(st.run, MovingSegmentation)).Some?
    requires Live(st.scene, Ref(st.run, Bspline))
    ensures var o := Apply(st, Deformable);
            && o.Done?
            && Observed(o.after.scene, Ref(st.run, MovingVolume).value) == Ref(st.run, Bspline)
            && Observed(o.after.scene, Ref(st.run, MovingSegmentation).value) == Ref(st.run, Bspline)
  {
  }

  /** onRegistrationSuccessful selects the deformable mode: after the
      registration stage the moving volume and segmentation, when still
      present, both observe the new B-spline transform. */
  lemma RegisteredShowsDeformable(p: Plan, st: State, engine: RegistrationEngine)
    requires Coherent(st) && Sound(p)
    requires var after := RegisterWith(p, st, engine).after;
             && VolumeAt(after.scene, Ref(after.run, MovingVolume)).Some?
             && SegmentsAt(after.scene, Ref(after.run, MovingSegmentation)).Some?
    ensures var after := RegisterWith(p, st, engine).after;
            var o := Apply(after, Deformable);
            && o.Done?
            && Observed(o.after.scene, Ref(after.run, MovingVolume).value) == Some(st.scene.nextId + 1)
            && Observed(o.after.scene, Ref(after.run, MovingSegmentation).value) == Some(st.scene.nextId + 1)
            && o.after.scene.nodes[st.scene.nextId + 1] == p.bspline
  {
    RegisterWithCreatesTransforms(p, st, engine);
    DeformableShown(RegisterWith(p, st, engine).after);
  }
}
