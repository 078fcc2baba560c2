/** An abstract scene: live nodes by id, the parent-transform reference of
    each transformable node, the subject-hierarchy parent of each item, and the
    segmentation store's segments. Subject-hierarchy items and data nodes share
    one id space here; a node absent from `shParent` sits at the top level. */
module Scene {
  import opened Options
  import opened Geometry

  /** Node ids are positive; 0 is the invalid item id. */
  type NodeId = nat

  /** One segment of a segmentation: store id, display name, world bounds, and
      the geometry of its binary-labelmap representation. */
  datatype Segment = Segment(id: string, name: string, bounds: Bounds, labelmap: ImageGeometry)

  /** The segment with the given store id, if any. */
  function GetSegment(segments: seq<Segment>, id: string): (r: Option<Segment>)
    ensures r.Some? <==> exists i | 0 <= i < |segments| :: segments[i].id == id
    ensures r.Some? ==> r.value.id == id && r.value in segments
    decreases |segments|
  {
    if |segments| == 0 then None
    else if segments[0].id == id then Some(segments[0])
    else
      var r := GetSegment(segments[1..], id);
      assert forall i | 1 <= i < |segments| :: segments[i] == segments[1..][i - 1];
      r
  }

  /** ASCII lower-casing, as C's `tolower` does in the "C" locale: only the
      letters 'A' to 'Z' change. */
  function LowerChar(c: char): (r: char)
    ensures 'A' <= c <= 'Z' ==> r as int == c as int + 32
    ensures !('A' <= c <= 'Z') ==> r == c
  {
    if 'A' <= c <= 'Z' then (c as int + 32) as char else c
  }

  function Lower(s: string): (r: string)
    ensures |r| == |s| && forall i | 0 <= i < |s| :: r[i] == LowerChar(s[i])
  {
    seq(|s|, i requires 0 <= i < |s| => LowerChar(s[i]))
  }

  /** Segment names are compared ignoring ASCII case. */
  predicate SameName(a: string, b: string) {
    Lower(a) == Lower(b)
  }

  /** A name matches itself in any ASCII case, and a different letter
      still tells two names apart. */
  lemma NameMatchIgnoresCase()
    ensures SameName("Prostate", "prostate") && SameName("PROSTATE", "prostate")
    ensures !SameName("Prostate", "Prostata")
  {
    assert Lower("Prostate")[7] == 'e' && Lower("Prostata")[7] == 'a';
  }

  /** The store id of the first segment whose name matches, ignoring case, if any. */
  function SegmentIdByName(segments: seq<Segment>, name: string): (r: Option<string>)
    ensures r.Some? <==> exists i | 0 <= i < |segments| :: SameName(segments[i].name, name)
    ensures r.Some? ==> exists i | 0 <= i < |segments| :: SameName(segments[i].name, name) && segments[i].id == r.value
    decreases |segments|
  {
    if |segments| == 0 then None
    else if SameName(segments[0].name, name) then Some(segments[0].id)
    else
      var r := SegmentIdByName(segments[1..], name);
      assert forall i | 1 <= i < |segments| :: segments[i] == segments[1..][i - 1];
      r
  }

  /** Store ids are unique within a segmentation. */
  ghost predicate UniqueIds(segments: seq<Segment>) {
    forall i, j | 0 <= i < j < |segments| :: segments[i].id != segments[j].id
  }

  /** Lookup by name as the prostate variant does it: name to id, then id to
      segment. It finds a segment exactly when some segment's name matches,
      ignoring case. */
  function SegmentByName(segments: seq<Segment>, name: string): (r: Option<Segment>)
    ensures r.Some? <==> exists i | 0 <= i < |segments| :: SameName(segments[i].name, name)
    ensures r.Some? && UniqueIds(segments) ==> SameName(r.value.name, name)
  {
    match SegmentIdByName(segments, name)
    case None => None
    case Some(id) =>
      var r := GetSegment(segments, id);
      assert r.Some? && UniqueIds(segments) ==> SameName(r.value.name, name) by {
        if r.Some? && UniqueIds(segments) {
          var i :| 0 <= i < |segments| && SameName(segments[i].name, name) && segments[i].id == id;
          var k :| 0 <= k < |segments| && segments[k] == r.value;
          assert i == k;
        }
      }
      r
  }

  function TranslateSegment(s: Segment, t: Vec3): Segment {
    s.(bounds := Shift(s.bounds, t), labelmap := TranslateGeometry(s.labelmap, t))
  }

  /** Every segment moved by `t`; ids and names are untouched. */
  function TranslateSegments(segments: seq<Segment>, t: Vec3): (r: seq<Segment>)
    ensures |r| == |segments|
    ensures forall i | 0 <= i < |segments| :: r[i] == TranslateSegment(segments[i], t)
    decreases |segments|
  {
    if |segments| == 0 then [] else [TranslateSegment(segments[0], t)] + TranslateSegments(segments[1..], t)
  }

  /** Moving the segments does not change which one an id finds. */
  lemma {:induction false} GetSegmentTranslated(segments: seq<Segment>, id: string, t: Vec3)
    ensures GetSegment(TranslateSegments(segments, t), id) ==
            (match GetSegment(segments, id) case None => None case Some(s) => Some(TranslateSegment(s, t)))
    decreases |segments|
  {
    if |segments| > 0 {
      var moved := TranslateSegments(segments, t);
      assert moved[1..] == TranslateSegments(segments[1..], t);
      GetSegmentTranslated(segments[1..], id, t);
    }
  }

  /** Moving the segments does not change which id a name finds. */
  lemma {:induction false} SegmentIdByNameTranslated(segments: seq<Segment>, name: string, t: Vec3)
    ensures SegmentIdByName(TranslateSegments(segments, t), name) == SegmentIdByName(segments, name)
    decreases |segments|
  {
    if |segments| > 0 {
      var moved := TranslateSegments(segments, t);
      assert moved[1..] == TranslateSegments(segments[1..], t);
      SegmentIdByNameTranslated(segments[1..], name, t);
    }
  }

  /** What a node holds. `Folder` is a patient or study item; `EngineOutput`
      is a node the registration engine creates for its own use. */
  datatype Data =
    | ScalarVolume(geometry: ImageGeometry)
    | LabelmapVolume(geometry: ImageGeometry)
    | Segmentation(segments: seq<Segment>)
    | LinearTransform(matrix: Mat4)
    | AffineTransform
    | BSplineTransform
    | RoiMarkup(roi: Roi)
    | CropParameters
    | Folder
    | EngineOutput

  /** A node: name, contents, DICOM modality attribute ("" when unset), and the
      transforms other than translations that hardening has baked into it,
      oldest first (their numerical effect is not modelled). */
  datatype Node = Node(name: string, data: Data, modality: string, warps: seq<NodeId>)

  /** The node's data moved rigidly by `t`; nodes without a position are unchanged. */
  function TranslateNode(n: Node, t: Vec3): Node {
    match n.data
    case ScalarVolume(g) => n.(data := ScalarVolume(TranslateGeometry(g, t)))
    case LabelmapVolume(g) => n.(data := LabelmapVolume(TranslateGeometry(g, t)))
    case Segmentation(segs) => n.(data := Segmentation(TranslateSegments(segs, t)))
    case _ => n
  }

  lemma TranslatedSegmentation(n: Node, t: Vec3)
    requires n.data.Segmentation?
    ensures TranslateNode(n, t).data == Segmentation(TranslateSegments(n.data.segments, t))
  {
  }

  lemma TranslateNodeRenamed(n: Node, t: Vec3, name: string)
    ensures TranslateNode(n.(name := name), t) == TranslateNode(n, t).(name := name)
  {
  }

  /** Moving by `a` and then by `b` is moving by their sum. */
  lemma TranslateNodeTwice(n: Node, a: Vec3, b: Vec3)
    ensures TranslateNode(TranslateNode(n, a), b) == TranslateNode(n, Add(a, b))
  {
    match n.data
    case Segmentation(segs) =>
      var twice := TranslateSegments(TranslateSegments(segs, a), b);
      var once := TranslateSegments(segs, Add(a, b));
      assert twice == once by {
        forall i | 0 <= i < |segs|
          ensures twice[i] == once[i]
        {
        }
      }
    case _ =>
  }

  datatype Scene = Scene(
    nodes: map<NodeId, Node>,
    parentTransform: map<NodeId, NodeId>,
    shParent: map<NodeId, NodeId>,
    nextId: NodeId)

  /** Ids are positive and below the allocation counter, and the two reference
      maps only speak about live nodes. */
  ghost predicate Valid(s: Scene) {
    && s.nextId > 0
    && (forall id | id in s.nodes :: 0 < id < s.nextId)
    && s.parentTransform.Keys <= s.nodes.Keys
    && s.shParent.Keys <= s.nodes.Keys
    && (forall id | id in s.parentTransform :: s.parentTransform[id] in s.nodes)
    && (forall id | id in s.shParent :: s.shParent[id] in s.nodes)
  }

  /** The ids a set of optional references holds. */
  function IdSet(refs: seq<Option<NodeId>>): (r: set<NodeId>)
    ensures forall id :: id in r <==> exists i | 0 <= i < |refs| :: refs[i] == Some(id)
  {
    set i | 0 <= i < |refs| && refs[i].Some? :: refs[i].value
  }

  /** Live nodes carrying one of the given names. */
  function NodesNamed(s: Scene, names: set<string>): (r: set<NodeId>)
    ensures forall id :: id in r <==> id in s.nodes && s.nodes[id].name in names
  {
    set id | id in s.nodes && s.nodes[id].name in names
  }

  /** `r` only adds to `s`: no node is removed or changed, no parent
      transform changes, and every filed item stays where it was. */
  ghost predicate Extends(s: Scene, r: Scene) {
    && s.nodes.Keys <= r.nodes.Keys
    && (forall id | id in s.nodes :: r.nodes[id] == s.nodes[id])
    && (forall id | id in r.nodes && id !in s.nodes :: s.nextId <= id)
    && r.parentTransform == s.parentTransform
    && (forall id | id in s.shParent :: id in r.shParent && r.shParent[id] == s.shParent[id])
    && (forall id | id in s.nodes && id in r.shParent :: id in s.shParent)
    && s.nextId <= r.nextId
  }

  lemma ExtendsTrans(a: Scene, b: Scene, c: Scene)
    requires Extends(a, b) && Extends(b, c)
    ensures Extends(a, c)
  {
  }

  /** Filing a node that is not in `s0` keeps `s0`'s part of the scene. */
  lemma FileNewExtends(s0: Scene, s: Scene, n: NodeId, parent: Option<NodeId>)
    requires Valid(s0) && Valid(s) && Extends(s0, s) && n in s.nodes && n !in s0.nodes
    requires parent.Some? ==> parent.value in s.nodes
    ensures Extends(s0, SetItemParent(s, n, parent))
  {
  }

  /** Removing nodes that are not in `s0` keeps `s0`'s part of the scene. */
  lemma RemoveNewExtends(s0: Scene, s: Scene, ids: set<NodeId>)
    requires Valid(s0) && Valid(s) && Extends(s0, s)
    requires forall id | id in ids :: id !in s0.nodes
    ensures Extends(s0, RemoveNodes(s, ids))
  {
    var r := RemoveNodes(s, ids);
    assert forall id | id in s0.shParent :: s0.shParent[id] in s0.nodes;
  }

  datatype Added = Added(scene: Scene, id: NodeId)

  /** Adds a node under a fresh id, at the top level and without a parent transform. */
  function AddNode(s: Scene, n: Node): (r: Added)
    requires Valid(s)
    ensures Valid(r.scene)
    ensures r.id > 0 && r.id !in s.nodes
    ensures r.id == s.nextId && r.scene.nextId == s.nextId + 1
    ensures r.scene.nodes == s.nodes[r.id := n]
    ensures r.scene.parentTransform == s.parentTransform && r.scene.shParent == s.shParent
    ensures r.id !in r.scene.parentTransform && r.id !in r.scene.shParent
  {
    Added(s.(nodes := s.nodes[s.nextId := n], nextId := s.nextId + 1), s.nextId)
  }
  lemma AddExtends(s: Scene, n: Node)
    requires Valid(s)
    ensures Extends(s, AddNode(s, n).scene)
  {
  }


  /** Removes nodes; references to a removed node and from it disappear with it.
      Ids that are not live are ignored, as removing a missing node is a no-op. */
  function RemoveNodes(s: Scene, ids: set<NodeId>): (r: Scene)
    requires Valid(s)
    ensures Valid(r)
    ensures r.nodes == s.nodes - ids
    ensures forall id :: id in r.parentTransform <==>
              id in s.parentTransform && id !in ids && s.parentTransform[id] !in ids
    ensures forall id | id in r.parentTransform :: r.parentTransform[id] == s.parentTransform[id]
    ensures forall id :: id in r.shParent <==> id in s.shParent && id !in ids && s.shParent[id] !in ids
    ensures forall id | id in r.shParent :: r.shParent[id] == s.shParent[id]
    ensures r.nextId == s.nextId
  {
    Scene(map id | id in s.nodes && id !in ids :: s.nodes[id],
          map id | id in s.parentTransform && id !in ids && s.parentTransform[id] !in ids :: s.parentTransform[id],
          map id | id in s.shParent && id !in ids && s.shParent[id] !in ids :: s.shParent[id],
          s.nextId)
  }

  /** The transform a node observes. */
  function Observed(s: Scene, n: NodeId): Option<NodeId> {
    if n in s.parentTransform then Some(s.parentTransform[n]) else None
  }

  /** Makes `n` observe transform `t`, or no transform for `None`. */
  function SetParentTransform(s: Scene, n: NodeId, t: Option<NodeId>): (r: Scene)
    requires Valid(s) && n in s.nodes
    requires t.Some? ==> t.value in s.nodes
    ensures Valid(r)
    ensures r.nodes == s.nodes && r.shParent == s.shParent && r.nextId == s.nextId
    ensures t.Some? ==> n in r.parentTransform && r.parentTransform[n] == t.value
    ensures t.None? ==> n !in r.parentTransform
    ensures forall id | id != n :: (id in r.parentTransform <==> id in s.parentTransform)
    ensures forall id | id != n && id in r.parentTransform :: r.parentTransform[id] == s.parentTransform[id]
  {
    match t
    case None => s.(parentTransform := s.parentTransform - {n})
    case Some(tid) => s.(parentTransform := s.parentTransform[n := tid])
  }

  /** Files item `n` under `parent`; an invalid (absent) parent changes nothing. */
  function SetItemParent(s: Scene, n: NodeId, parent: Option<NodeId>): (r: Scene)
    requires Valid(s) && n in s.nodes
    requires parent.Some? ==> parent.value in s.nodes
    ensures Valid(r)
    ensures r.nodes == s.nodes && r.parentTransform == s.parentTransform && r.nextId == s.nextId
    ensures parent.Some? ==> r.shParent == s.shParent[n := parent.value]
    ensures parent.None? ==> r.shParent == s.shParent
  {
    match parent
    case None => s
    case Some(p) => s.(shParent := s.shParent[n := p])
  }

  /** Subject-hierarchy parent of a node's item (its study), if there is one. */
  function StudyOf(s: Scene, n: Option<NodeId>): Option<NodeId> {
    if n.Some? && n.value in s.shParent then Some(s.shParent[n.value]) else None
  }

  /** Nodes a parent-transform reference can point at. */
  predicate IsTransform(d: Data) {
    d.LinearTransform? || d.AffineTransform? || d.BSplineTransform?
  }

  /** The ids of the scene's transform nodes. */
  function TransformIds(s: Scene): (r: set<NodeId>)
    ensures forall id :: id in r <==> id in s.nodes && IsTransform(s.nodes[id].data)
  {
    set id | id in s.nodes && IsTransform(s.nodes[id].data)
  }

  /** One transform `t` holding `d` baked into a node: a translation moves
      its data; any other transform is recorded as a warp. */
  function BakeStep(node: Node, t: NodeId, d: Data): Node {
    match d
    case LinearTransform(m) =>
      if IsTranslation(m) then TranslateNode(node, TranslationOf(m)) else node.(warps := node.warps + [t])
    case _ => node.(warps := node.warps + [t])
  }

  /** Bakes transform `t` into `node`, then the transform `t` observes, and
      so on up to the world, nearest first. Only transforms in `unvisited` are
      followed, and each only once, so the walk ends even on a cycle (which
      the scene never forms). */
  function BakeChain(s: Scene, node: Node, t: NodeId, unvisited: set<NodeId>): Node
    decreases unvisited
  {
    if t !in unvisited || t !in s.nodes then node
    else
      var stepped := BakeStep(node, t, s.nodes[t].data);
      if t in s.parentTransform then BakeChain(s, stepped, s.parentTransform[t], unvisited - {t}) else stepped
  }

  /** The node with its transform to the world baked in: its parent
      transform and every transform above that. */
  function Baked(s: Scene, n: NodeId): Node
    requires n in s.nodes
  {
    if n in s.parentTransform then BakeChain(s, s.nodes[n], s.parentTransform[n], TransformIds(s))
    else s.nodes[n]
  }

  /** Baking does not make a node a transform, or stop it being one, and
      keeps a segmentation a segmentation. */
  lemma {:induction false} BakeChainKind(s: Scene, node: Node, t: NodeId, unvisited: set<NodeId>)
    ensures IsTransform(BakeChain(s, node, t, unvisited).data) <==> IsTransform(node.data)
    ensures node.data.Segmentation? ==> BakeChain(s, node, t, unvisited).data.Segmentation?
    decreases unvisited
  {
    if t in unvisited && t in s.nodes && t in s.parentTransform {
      BakeChainKind(s, BakeStep(node, t, s.nodes[t].data), s.parentTransform[t], unvisited - {t});
    }
  }

  /** Two scenes that agree on every transform the walk may visit, and on
      which nodes are transforms, bake alike. */
  lemma {:induction false} BakeChainAgrees(s: Scene, r: Scene, node: Node, t: NodeId, us: set<NodeId>, ur: set<NodeId>)
    requires t in s.nodes
    requires forall id | id in s.nodes :: (id in ur <==> id in us)
    requires forall id | id in us :: id in s.nodes && id in r.nodes && r.nodes[id] == s.nodes[id]
    requires forall id | id in us :: (id in r.parentTransform <==> id in s.parentTransform)
    requires forall id | id in us && id in s.parentTransform ::
               r.parentTransform[id] == s.parentTransform[id] && s.parentTransform[id] in s.nodes
    ensures BakeChain(r, node, t, ur) == BakeChain(s, node, t, us)
    decreases us
  {
    if t in us && t in s.parentTransform {
      BakeChainAgrees(s, r, BakeStep(node, t, s.nodes[t].data), s.parentTransform[t], us - {t}, ur - {t});
    }
  }

  /** Baking commutes with renaming. */
  lemma {:induction false} BakeChainRenamed(s: Scene, node: Node, t: NodeId, unvisited: set<NodeId>, name: string)
    ensures BakeChain(s, node.(name := name), t, unvisited) == BakeChain(s, node, t, unvisited).(name := name)
    decreases unvisited
  {
    if t in unvisited && t in s.nodes {
      if t in s.parentTransform {
        BakeChainRenamed(s, BakeStep(node, t, s.nodes[t].data), s.parentTransform[t], unvisited - {t}, name);
      }
      match s.nodes[t].data
      case LinearTransform(m) =>
        if IsTranslation(m) {
          TranslateNodeRenamed(node, TranslationOf(m), name);
        }
      case _ =>
    }
  }

  /** Hardening: bakes the parent transform into the node and leaves it with
      no parent transform; every other node and reference is unchanged. */
  function Harden(s: Scene, n: NodeId): (r: Scene)
    requires Valid(s)
    ensures Valid(r)
    ensures n !in r.parentTransform
    ensures r.nodes.Keys == s.nodes.Keys && r.shParent == s.shParent && r.nextId == s.nextId
    ensures n in s.nodes ==> r.nodes[n] == Baked(s, n)
    ensures forall id | id in s.nodes && id != n :: r.nodes[id] == s.nodes[id]
    ensures r.parentTransform == s.parentTransform - {n}
  {
    if n !in s.parentTransform then s
    else s.(nodes := s.nodes[n := Baked(s, n)], parentTransform := s.parentTransform - {n})
  }

  /** Makes every node of `ids` observe transform `tf`. */
  function BindAll(s: Scene, ids: seq<NodeId>, tf: NodeId): (r: Scene)
    requires Valid(s) && tf in s.nodes && forall i | 0 <= i < |ids| :: ids[i] in s.nodes
    ensures Valid(r)
    ensures r.nodes == s.nodes && r.shParent == s.shParent && r.nextId == s.nextId
    ensures forall x :: x in r.parentTransform <==> x in s.parentTransform || x in ids
    ensures forall x | x in r.parentTransform :: r.parentTransform[x] == if x in ids then tf else s.parentTransform[x]
    decreases |ids|
  {
    if |ids| == 0 then s
    else
      assert forall i | 1 <= i < |ids| :: ids[i] == ids[1..][i - 1];
      BindAll(SetParentTransform(s, ids[0], Some(tf)), ids[1..], tf)
  }

  /** Hardens the nodes of `ids` in turn. None of them is a transform, so
      hardening one does not change what another bakes to, and each is baked
      against the scene as it was at the start. */
  function HardenAll(s: Scene, ids: seq<NodeId>): (r: Scene)
    requires Valid(s)
    requires forall x | x in ids && x in s.nodes :: !IsTransform(s.nodes[x].data)
    ensures Valid(r)
    ensures r.nodes.Keys == s.nodes.Keys && r.shParent == s.shParent && r.nextId == s.nextId
    ensures forall x :: x in r.parentTransform <==> x in s.parentTransform && x !in ids
    ensures forall x | x in r.parentTransform :: r.parentTransform[x] == s.parentTransform[x]
    ensures forall x | x in ids && x in s.nodes :: r.nodes[x] == Baked(s, x)
    ensures forall x | x in s.nodes && x !in ids :: r.nodes[x] == s.nodes[x]
    decreases |ids|
  {
    if |ids| == 0 then s
    else
      var s1 := Harden(s, ids[0]);
      assert forall x | x in ids[1..] :: x in ids;
      assert forall x | x in ids && x != ids[0] :: x in ids[1..];
      HardenKeepsKinds(s, ids[0]);
      assert forall x | x in ids[1..] && x in s.nodes :: Baked(s1, x) == Baked(s, x) by {
        forall x | x in ids[1..] && x in s.nodes
          ensures Baked(s1, x) == Baked(s, x)
        {
          if x != ids[0] && x in s.parentTransform {
            BakeChainAgrees(s, s1, s.nodes[x], s.parentTransform[x], TransformIds(s), TransformIds(s1));
          }
        }
      }
      HardenAll(s1, ids[1..])
  }

  /** Hardening a node that is not a transform keeps which nodes are transforms. */
  lemma HardenKeepsKinds(s: Scene, n: NodeId)
    requires Valid(s)
    requires n in s.nodes ==> !IsTransform(s.nodes[n].data)
    ensures var r := Harden(s, n);
      forall x | x in s.nodes :: IsTransform(r.nodes[x].data) <==> IsTransform(s.nodes[x].data)
  {
    if n in s.parentTransform {
      BakeChainKind(s, s.nodes[n], s.parentTransform[n], TransformIds(s));
    }
  }

  /** A scene that only grew bakes every old node as before. */
  lemma BakedExtends(s: Scene, r: Scene, x: NodeId)
    requires Valid(s) && Extends(s, r) && x in s.nodes
    ensures Baked(r, x) == Baked(s, x)
  {
    if x in s.parentTransform {
      BakeChainAgrees(s, r, s.nodes[x], s.parentTransform[x], TransformIds(s), TransformIds(r));
    }
  }

  /** Baking reads only the nodes and the transform references, not the filing. */
  lemma BakedIgnoresFiling(s: Scene, r: Scene, x: NodeId)
    requires Valid(s) && x in s.nodes
    requires r.nodes == s.nodes && r.parentTransform == s.parentTransform
    ensures Baked(r, x) == Baked(s, x)
  {
    if x in s.parentTransform {
      BakeChainAgrees(s, r, s.nodes[x], s.parentTransform[x], TransformIds(s), TransformIds(r));
    }
  }

  /** Baking in a translation transform that itself observes no transform
      moves the node by that translation. */
  lemma BakedTranslation(s: Scene, n: NodeId, t: Vec3)
    requires n in s.nodes && n in s.parentTransform && s.parentTransform[n] in s.nodes
    requires s.parentTransform[n] !in s.parentTransform
    requires s.nodes[s.parentTransform[n]].data == LinearTransform(TranslationMatrix(t))
    ensures Baked(s, n) == TranslateNode(s.nodes[n], t)
  {
    assert s.parentTransform[n] in TransformIds(s);
  }

  /** A node under translation `a`, whose transform observes translation `b`,
      bakes to the node moved by both: the chain is followed to the world. */
  lemma BakedTranslationChain(s: Scene, n: NodeId, a: Vec3, b: Vec3)
    requires n in s.nodes && n in s.parentTransform
    requires var ta := s.parentTransform[n];
      && ta in s.nodes && s.nodes[ta].data == LinearTransform(TranslationMatrix(a))
      && ta in s.parentTransform
      && var tb := s.parentTransform[ta];
         && tb in s.nodes && s.nodes[tb].data == LinearTransform(TranslationMatrix(b))
         && tb !in s.parentTransform
    ensures Baked(s, n) == TranslateNode(s.nodes[n], Add(a, b))
  {
    var ta := s.parentTransform[n];
    var tb := s.parentTransform[ta];
    var u := TransformIds(s);
    assert ta in u && tb in u - {ta};
    var moved := TranslateNode(s.nodes[n], a);
    assert BakeChain(s, moved, tb, u - {ta}) == TranslateNode(moved, b);
    TranslateNodeTwice(s.nodes[n], a, b);
  }

  /** A copy of node `n` under a new name and a fresh id, observing the same
      parent transform (the subject-hierarchy parent is set by the caller). */
  function Clone(s: Scene, n: NodeId, name: string): (r: Added)
    requires Valid(s) && n in s.nodes
    ensures Valid(r.scene)
    ensures r.id > 0 && r.id !in s.nodes
    ensures r.id == s.nextId && r.scene.nextId == s.nextId + 1
    ensures r.scene.nodes == s.nodes[r.id := s.nodes[n].(name := name)]
    ensures r.scene.shParent == s.shParent
    ensures forall id | id != r.id :: (id in r.scene.parentTransform <==> id in s.parentTransform)
    ensures forall id | id != r.id && id in s.parentTransform :: r.scene.parentTransform[id] == s.parentTransform[id]
    ensures r.id in r.scene.parentTransform <==> n in s.parentTransform
    ensures n in s.parentTransform ==> r.scene.parentTransform[r.id] == s.parentTransform[n]
    ensures r.scene.parentTransform - {r.id} == s.parentTransform
  {
    var a := AddNode(s, s.nodes[n].(name := name));
    if n in s.parentTransform then
      Added(a.scene.(parentTransform := a.scene.parentTransform[a.id := s.parentTransform[n]]), a.id)
    else a
  }

  /** Baking into a clone gives the original's baked contents under the clone's name. */
  lemma BakedClone(s: Scene, n: NodeId, name: string)
    requires Valid(s) && n in s.nodes
    ensures var c := Clone(s, n, name); Baked(c.scene, c.id) == Baked(s, n).(name := name)
  {
    var c := Clone(s, n, name);
    if n in s.parentTransform {
      var t := s.parentTransform[n];
      assert c.scene.parentTransform[c.id] == t;
      BakeChainAgrees(s, c.scene, s.nodes[n].(name := name), t, TransformIds(s), TransformIds(c.scene));
      BakeChainRenamed(s, s.nodes[n], t, TransformIds(s), name);
    }
  }
}
