/**
 * ObjectReader (ObjectReader.h, ObjectReader.cpp): loading an object file
 * and turning the points and polygons of its first layer into the
 * renderer's vertex list and 16-bit index list. Every polygon of three or
 * more vertices becomes a fan of triangles in reversed winding order; the
 * others are counted and skipped.
 *
 * Floats stay the bytes they are in memory. The face normal, a normalised
 * cross product, is the parameter `normalOf`.
 */
module MeshReader {
  import opened Wrappers
  import opened Codec
  import opened Chunks
  import opened Walk
  import LightWave

  /** The bytes of the float 0.0f. */
  const ZERO: Word4 := Word4(0x00, 0x00, 0x00, 0x00)

  /** The bytes of the float 1.0f (0x3F800000) in little-endian memory. */
  const ONE: Word4 := Word4(0x00, 0x00, 0x80, 0x3F)

  /** XMFLOAT4. */
  datatype Color4 = Color4(r: Word4, g: Word4, b: Word4, a: Word4)

  /** The colour every vertex gets, XMFLOAT4(1, 1, 1, 1). */
  const WHITE: Color4 := Color4(ONE, ONE, ONE, ONE)

  /** VERTEX: position, normal and colour. */
  datatype Vertex = Vertex(pos: Vec12, normal: Vec12, color: Color4)

  /** A vertex built from a point only: the normal and colour are zero. */
  function SourceVertex(p: Vec12): Vertex
  {
    Vertex(p, Vec12(ZERO, ZERO, ZERO), Color4(ZERO, ZERO, ZERO, ZERO))
  }

  /**
   * The normal of a face from the positions of its first three vertices:
   * XMVector3Normalize(XMVector3Cross(p1 - p2, p1 - p3)) in the source.
   */
  type NormalFn = (Vec12, Vec12, Vec12) -> Vec12

  /** The value a WORD (16-bit unsigned) index list stores for `x`. */
  function Word(x: nat): (w: nat)
    ensures w < TWO_16 && w <= x
    ensures x < TWO_16 ==> w == x
  {
    x % TWO_16
  }

  /**
   * The index counter is a 32-bit `unsigned`; its wrap-around does not show
   * in the stored WORD, since 2^16 divides 2^32.
   */
  lemma WordOfUnsigned(x: nat)
    ensures Word(SizeTOf(x)) == Word(x)
  {
    var q, r := x / TWO_32, x % TWO_32;
    var q2, r2 := r / TWO_16, r % TWO_16;
    assert x == q * TWO_32 + r;
    assert r == q2 * TWO_16 + r2;
    assert x == (q * TWO_16 + q2) * TWO_16 + r2;
  }

  /** A list of indices as a WORD list stores them. */
  function Words(s: seq<nat>): (r: seq<nat>)
    ensures |r| == |s|
    ensures forall i :: 0 <= i < |s| ==> r[i] == Word(s[i])
  {
    seq(|s|, i requires 0 <= i < |s| => Word(s[i]))
  }

  lemma WordsAppend(a: seq<nat>, b: seq<nat>)
    ensures Words(a + b) == Words(a) + Words(b)
  {
    SameElements(Words(a + b), Words(a) + Words(b));
  }

  // ---------------------------------------------------------------------
  // One polygon

  /**
   * The point indices the triangulation reads, the first numVertices of
   * them, exist and name points of the layer; otherwise the source indexes
   * past a vector.
   */
  predicate Fits(p: Polygon, numPoints: nat)
  {
    p.numVertices <= |p.pointIndex| && forall j :: 0 <= j < p.numVertices ==> p.pointIndex[j] < numPoints
  }

  /** The normal every vertex of a face gets: that of its first three points. */
  function FaceNormal(points: seq<Vec12>, p: Polygon, normalOf: NormalFn): Vec12
    requires p.numVertices > 2 && Fits(p, |points|)
  {
    normalOf(points[p.pointIndex[0]], points[p.pointIndex[1]], points[p.pointIndex[2]])
  }

  /** The vertices a face emits: one per polygon vertex, in polygon order. */
  function FaceVertices(points: seq<Vec12>, p: Polygon, normalOf: NormalFn): (r: seq<Vertex>)
    requires p.numVertices > 2 && Fits(p, |points|)
    ensures |r| == p.numVertices
  {
    var normal := FaceNormal(points, p, normalOf);
    seq(p.numVertices, i requires 0 <= i < p.numVertices => Vertex(points[p.pointIndex[i]], normal, WHITE))
  }

  /**
   * The indices of a fan of `n` vertices whose first vertex is `b`, one
   * triangle at a time: the first triangle, then for each further vertex
   * the triangle of that vertex, the one before it and the first.
   */
  function FanIndices(b: nat, n: nat): (r: seq<nat>)
    requires n >= 3
    decreases n
  {
    if n == 3 then [b + 2, b + 1, b] else FanIndices(b, n - 1) + [b + n - 1, b + n - 2, b]
  }

  /** One more fan vertex adds its triangle, as the WORD list stores it. */
  lemma FanStep(b: nat, n: nat)
    requires n >= 3
    ensures Words(FanIndices(b, n + 1)) == Words(FanIndices(b, n)) + [Word(b + n), Word(b + n - 1), Word(b)]
  {
    WordsAppend(FanIndices(b, n), [b + n, b + n - 1, b]);
    assert Words([b + n, b + n - 1, b]) == [Word(b + n), Word(b + n - 1), Word(b)];
  }

  /** Triangle k of an index list. */
  function TriangleAt(s: seq<nat>, k: nat): seq<nat>
    requires 3 * k + 3 <= |s|
  {
    s[3 * k..3 * k + 3]
  }

  /**
   * A fan of n vertices is n - 2 triangles; triangle k is (b+k+2, b+k+1, b),
   * a reversed-winding fan around the first vertex; every index names one
   * of the fan's own vertices.
   */
  lemma {:induction false} FanShape(b: nat, n: nat)
    requires n >= 3
    ensures |FanIndices(b, n)| == 3 * (n - 2)
    ensures forall k :: 0 <= k < n - 2 ==> TriangleAt(FanIndices(b, n), k) == [b + k + 2, b + k + 1, b]
    ensures forall j :: 0 <= j < |FanIndices(b, n)| ==> b <= FanIndices(b, n)[j] < b + n
    decreases n
  {
    if n > 3 {
      FanShape(b, n - 1);
      var s := FanIndices(b, n - 1);
      var r := FanIndices(b, n);
      assert r == s + [b + n - 1, b + n - 2, b];
      forall k | 0 <= k < n - 2
        ensures TriangleAt(r, k) == [b + k + 2, b + k + 1, b]
      {
        if k < n - 3 {
          assert TriangleAt(r, k) == TriangleAt(s, k);
        } else {
          assert TriangleAt(r, k) == r[|s|..];
        }
      }
    }
  }

  // ---------------------------------------------------------------------
  // The whole transfer as a value

  /** The vertex and index lists built so far and the number of polygons skipped. */
  datatype Mesh = Mesh(vertices: seq<Vertex>, indices: seq<nat>, skipped: nat)

  const EMPTY_MESH: Mesh := Mesh([], [], 0)

  /**
   * One polygon of the loop: skipped and counted when it has at most two
   * vertices, a fault when it names a point that is not there, otherwise a
   * fan whose first vertex is the next vertex to be emitted.
   */
  function AddPolygon(points: seq<Vec12>, m: Mesh, p: Polygon, normalOf: NormalFn): Option<Mesh>
  {
    if p.numVertices <= 2 then Some(Mesh(m.vertices, m.indices, m.skipped + 1))
    else if !Fits(p, |points|) then None
    else
      Some(Mesh(m.vertices + FaceVertices(points, p, normalOf),
                m.indices + FanIndices(|m.vertices|, p.numVertices), m.skipped))
  }

  /** The loop over the polygons, in order. */
  function MeshOf(points: seq<Vec12>, pols: seq<Polygon>, normalOf: NormalFn): Option<Mesh>
  {
    if pols == [] then Some(EMPTY_MESH)
    else
      match MeshOf(points, pols[..|pols| - 1], normalOf)
      case None => None
      case Some(m) => AddPolygon(points, m, pols[|pols| - 1], normalOf)
  }

  /** The number of polygons with at most two vertices. */
  function Skipped(pols: seq<Polygon>): nat
  {
    if pols == [] then 0 else (if pols[0].numVertices <= 2 then 1 else 0) + Skipped(pols[1..])
  }

  /** The vertices the faces contribute: n for each polygon of n > 2 vertices. */
  function VertexCount(pols: seq<Polygon>): nat
  {
    if pols == [] then 0 else (if pols[0].numVertices > 2 then pols[0].numVertices else 0) + VertexCount(pols[1..])
  }

  /** The indices the faces contribute: 3 (n - 2) for each polygon of n > 2 vertices. */
  function IndexCount(pols: seq<Polygon>): nat
  {
    if pols == [] then 0 else (if pols[0].numVertices > 2 then 3 * (pols[0].numVertices - 2) else 0) + IndexCount(pols[1..])
  }

  /** Every face names only points that are there. */
  predicate AllFit(pols: seq<Polygon>, numPoints: nat)
  {
    forall i :: 0 <= i < |pols| ==> (pols[i].numVertices > 2 ==> Fits(pols[i], numPoints))
  }

  lemma {:induction false} CountsSnoc(pols: seq<Polygon>, p: Polygon)
    ensures Skipped(pols + [p]) == Skipped(pols) + (if p.numVertices <= 2 then 1 else 0)
    ensures VertexCount(pols + [p]) == VertexCount(pols) + (if p.numVertices > 2 then p.numVertices else 0)
    ensures IndexCount(pols + [p]) == IndexCount(pols) + (if p.numVertices > 2 then 3 * (p.numVertices - 2) else 0)
    decreases |pols|
  {
    if pols != [] {
      assert (pols + [p])[1..] == pols[1..] + [p];
      CountsSnoc(pols[1..], p);
    } else {
      assert [p][1..] == [];
    }
  }

  /**
   * The transfer faults exactly when a face names a missing point.
   * Otherwise it emits VertexCount vertices and IndexCount indices, counts
   * the polygons of at most two vertices, colours every vertex white, and
   * every index names an emitted vertex.
   */
  lemma {:induction false} MeshShape(points: seq<Vec12>, pols: seq<Polygon>, normalOf: NormalFn)
    ensures MeshOf(points, pols, normalOf).Some? <==> AllFit(pols, |points|)
    ensures MeshOf(points, pols, normalOf).Some? ==>
              var m := MeshOf(points, pols, normalOf).value;
              |m.vertices| == VertexCount(pols) && |m.indices| == IndexCount(pols) && m.skipped == Skipped(pols) &&
              (forall j :: 0 <= j < |m.vertices| ==> m.vertices[j].color == WHITE) &&
              (forall j :: 0 <= j < |m.indices| ==> m.indices[j] < |m.vertices|)
    decreases |pols|
  {
    if pols != [] {
      var init, p := pols[..|pols| - 1], pols[|pols| - 1];
      assert pols == init + [p];
      MeshShape(points, init, normalOf);
      CountsSnoc(init, p);
      assert AllFit(pols, |points|) <==> AllFit(init, |points|) && (p.numVertices > 2 ==> Fits(p, |points|)) by {
        assert forall i :: 0 <= i < |init| ==> pols[i] == init[i];
      }
      if MeshOf(points, init, normalOf).Some? && p.numVertices > 2 && Fits(p, |points|) {
        var m := MeshOf(points, init, normalOf).value;
        var r := MeshOf(points, pols, normalOf).value;
        FanShape(|m.vertices|, p.numVertices);
        assert r.vertices == m.vertices + FaceVertices(points, p, normalOf);
        assert r.indices == m.indices + FanIndices(|m.vertices|, p.numVertices);
        forall j | 0 <= j < |r.indices|
          ensures r.indices[j] < |r.vertices|
        {
          if j >= |m.indices| {
            assert r.indices[j] == FanIndices(|m.vertices|, p.numVertices)[j - |m.indices|];
          }
        }
      }
    }
  }

  /**
   * A face emits, after the vertices already there, vertex i as a copy of
   * the point its i-th index names, all with the face's normal; its index
   * block is the fan from the first of them.
   */
  lemma PolygonEmits(points: seq<Vec12>, m: Mesh, p: Polygon, normalOf: NormalFn)
    requires p.numVertices > 2 && Fits(p, |points|)
    ensures AddPolygon(points, m, p, normalOf).Some?
    ensures var r := AddPolygon(points, m, p, normalOf).value;
            var b := |m.vertices|;
            |r.vertices| == b + p.numVertices && r.vertices[..b] == m.vertices &&
            (forall i :: 0 <= i < p.numVertices ==>
               r.vertices[b + i].pos == points[p.pointIndex[i]] && r.vertices[b + i].normal == FaceNormal(points, p, normalOf)) &&
            |r.indices| == |m.indices| + 3 * (p.numVertices - 2) && r.indices[..|m.indices|] == m.indices &&
            (forall k :: 0 <= k < p.numVertices - 2 ==>
               TriangleAt(r.indices[|m.indices|..], k) == [b + k + 2, b + k + 1, b]) &&
            r.skipped == m.skipped
  {
    var r := AddPolygon(points, m, p, normalOf).value;
    FanShape(|m.vertices|, p.numVertices);
    assert r.indices[|m.indices|..] == FanIndices(|m.vertices|, p.numVertices);
    assert r.vertices[..|m.vertices|] == m.vertices;
    assert r.indices[..|m.indices|] == m.indices;
  }

  /** A polygon of at most two vertices emits nothing and is counted. */
  lemma PolygonSkipped(points: seq<Vec12>, m: Mesh, p: Polygon, normalOf: NormalFn)
    requires p.numVertices <= 2
    ensures AddPolygon(points, m, p, normalOf) == Some(Mesh(m.vertices, m.indices, m.skipped + 1))
  {
  }

  /** Once a polygon faults, the rest of the loop does not run. */
  lemma {:induction false} MeshFaultSticks(points: seq<Vec12>, pols: seq<Polygon>, i: nat, normalOf: NormalFn)
    requires i <= |pols| && MeshOf(points, pols[..i], normalOf).None?
    ensures MeshOf(points, pols, normalOf).None?
    decreases |pols| - i
  {
    if i < |pols| {
      assert pols[..i + 1][..i] == pols[..i];
      MeshFaultSticks(points, pols, i + 1, normalOf);
    } else {
      assert pols[..i] == pols;
    }
  }

  /** The warning left in errorReason when polygons were skipped. */
  function SkipWarning(skipped: nat): string
  {
    NatToString(skipped) + " polygons had an unsupported number of vertices and were skipped."
  }

  /** The result of TransferMeshDataFromLWO; TransferFault where the source indexes out of range or dereferences null. */
  datatype TransferStatus = Transferred | NoLayers | TransferFault

  datatype Transfer = Transfer(status: TransferStatus, mesh: Mesh)

  /**
   * TransferMeshDataFromLWO as a value: false with no layers; otherwise the
   * points and polygons of layer 0, a fault where either chunk is missing,
   * and the mesh of its polygons.
   */
  function TransferOf(ls: seq<LayerData>, normalOf: NormalFn): (r: Transfer)
    ensures r.status != Transferred ==> r.mesh == EMPTY_MESH
    ensures r.status == NoLayers <==> |ls| == 0
  {
    if |ls| == 0 then Transfer(NoLayers, EMPTY_MESH)
    else
      match LightWave.PointsOf(ls, 0)
      case None => Transfer(TransferFault, EMPTY_MESH)
      case Some(points) =>
        match LightWave.PolsOf(ls, 0)
        case None => Transfer(TransferFault, EMPTY_MESH)
        case Some(pols) =>
          match MeshOf(points, pols, normalOf)
          case None => Transfer(TransferFault, EMPTY_MESH)
          case Some(m) => Transfer(Transferred, m)
  }

  // ---------------------------------------------------------------------
  // ReadObjectFile as a value

  /**
   * How ReadObjectFile judges Read's result, as written: `!result` is a
   * failure, so only a nonzero result is accepted.
   */
  function ReadAcceptedAsWritten(code: int): (accepted: bool)
  {
    code != 0
  }

  /** As written, EXIT_SUCCESS is rejected and EXIT_FAILURE accepted. */
  lemma ReadAcceptedAsWrittenInverts()
    ensures !ReadAcceptedAsWritten(LightWave.StatusCode(LightWave.ExitSuccess))
    ensures ReadAcceptedAsWritten(LightWave.StatusCode(LightWave.ExitFailure))
  {
  }

  /** The corrected test: Read succeeded when it returned EXIT_SUCCESS. */
  function ReadAccepted(status: LightWave.ReadStatus): (accepted: bool)
    ensures accepted <==> !status.Fault? && LightWave.StatusCode(status) == 0
  {
    status == LightWave.ExitSuccess
  }

  /** What ReadObjectFile leaves: the reason it failed, the mesh and its warning, or a fault. */
  datatype Load = NotLoaded(reason: string) | Loaded(mesh: Mesh, warning: string) | LoadFault

  const NO_FILE: string := "The file does not exist"
  const NOT_READ: string := "The file could not be read"
  const NOT_TRANSFERRED: string := "Could not transfer mesh data from object file"

  /**
   * The load after Read has returned `read` on a fresh object, given
   * whether the result was accepted and `t`, the transfer of its layers.
   */
  function LoadAfter(read: LightWave.Outcome, accepted: bool, t: Transfer): Load
  {
    if read.status.Fault? then LoadFault
    else if !accepted then NotLoaded(NOT_READ)
    else
      match t.status
      case NoLayers => NotLoaded(NOT_TRANSFERRED)
      case TransferFault => LoadFault
      case Transferred => Loaded(t.mesh, if t.mesh.skipped > 0 then SkipWarning(t.mesh.skipped) else "")
  }

  /**
   * ReadObjectFile with the corrected test of Read's result. The
   * file-existence check is `fileExists`; the file's bytes are `file`.
   */
  function LoadOf(fileExists: bool, file: Option<Bytes>, normalOf: NormalFn): (r: Load)
    ensures !fileExists ==> r == NotLoaded(NO_FILE)
    ensures fileExists && LightWave.ReadOutcome(file).status == LightWave.ExitFailure ==> r == NotLoaded(NOT_READ)
  {
    if !fileExists then NotLoaded(NO_FILE)
    else
      var read := LightWave.ReadOutcome(file);
      LoadAfter(read, ReadAccepted(read.status), TransferOf(read.layers, normalOf))
  }

  /** ReadObjectFile as written. */
  function LoadOfAsWritten(fileExists: bool, file: Option<Bytes>, normalOf: NormalFn): Load
  {
    if !fileExists then NotLoaded(NO_FILE)
    else
      var read := LightWave.ReadOutcome(file);
      LoadAfter(read, !read.status.Fault? && ReadAcceptedAsWritten(LightWave.StatusCode(read.status)), TransferOf(read.layers, normalOf))
  }

  /**
   * As written no file ever loads: a successful read is reported as one
   * that failed, and a failed read leaves no layers to transfer.
   */
  lemma AsWrittenNeverLoads(fileExists: bool, file: Option<Bytes>, normalOf: NormalFn)
    ensures !LoadOfAsWritten(fileExists, file, normalOf).Loaded?
  {
  }

  /**
   * With the corrected test, a file whose layer 0 has points and polygons
   * that fit loads, and the mesh is that of those polygons.
   */
  lemma LoadsFirstLayer(file: Option<Bytes>, normalOf: NormalFn)
    requires LightWave.ReadOutcome(file).status == LightWave.ExitSuccess
    requires var ls := LightWave.ReadOutcome(file).layers;
             LightWave.PointsOf(ls, 0).Some? && LightWave.PolsOf(ls, 0).Some? &&
             AllFit(LightWave.PolsOf(ls, 0).value, |LightWave.PointsOf(ls, 0).value|)
    ensures var ls := LightWave.ReadOutcome(file).layers;
            var points, pols := LightWave.PointsOf(ls, 0).value, LightWave.PolsOf(ls, 0).value;
            LoadOf(true, file, normalOf).Loaded? && Some(LoadOf(true, file, normalOf).mesh) == MeshOf(points, pols, normalOf)
  {
    var ls := LightWave.ReadOutcome(file).layers;
    MeshShape(LightWave.PointsOf(ls, 0).value, LightWave.PolsOf(ls, 0).value, normalOf);
  }

  // ---------------------------------------------------------------------
  // The reader

  /** The loop that copies the layer's points into the temporary vertex list. */
  method CopyPoints(points: seq<Vec12>) returns (lwVertices: seq<Vertex>)
    ensures |lwVertices| == |points|
    ensures forall i :: 0 <= i < |points| ==> lwVertices[i] == SourceVertex(points[i])
  {
    lwVertices := [];
    var i := 0;
    while i < |points|
      invariant 0 <= i <= |points| && |lwVertices| == i
      invariant forall j :: 0 <= j < i ==> lwVertices[j] == SourceVertex(points[j])
    {
      lwVertices := lwVertices + [SourceVertex(points[i])];
      i := i + 1;
    }
  }

  class ObjectReader {
    var vertices: seq<Vertex>
    var indices: seq<nat>
    var objectLoaded: bool

    /** A reader with nothing loaded. */
    constructor ()
      ensures vertices == [] && indices == [] && !objectLoaded
    {
      vertices, indices, objectLoaded := [], [], false;
    }

    /**
     * One face: its first triangle, then one triangle per further vertex,
     * each vertex a copy of the temporary vertex its index names with the
     * face's normal and white. `base` is the offset of the face's first
     * vertex.
     */
    method EmitFace(points: seq<Vec12>, lwVertices: seq<Vertex>, p: Polygon, normalOf: NormalFn, base: nat)
      requires p.numVertices > 2 && Fits(p, |points|)
      requires |lwVertices| == |points| && forall i :: 0 <= i < |points| ==> lwVertices[i] == SourceVertex(points[i])
      modifies this
      ensures vertices == old(vertices) + FaceVertices(points, p, normalOf)
      ensures indices == old(indices) + Words(FanIndices(base, p.numVertices))
      ensures objectLoaded == old(objectLoaded)
    {
      ghost var face := FaceVertices(points, p, normalOf);
      var v1, v2, v3 := lwVertices[p.pointIndex[0]], lwVertices[p.pointIndex[1]], lwVertices[p.pointIndex[2]];
      var normal := normalOf(v1.pos, v2.pos, v3.pos);
      v1, v2, v3 := v1.(normal := normal, color := WHITE), v2.(normal := normal, color := WHITE), v3.(normal := normal, color := WHITE);
      vertices := vertices + [v1, v2, v3];
      indices := indices + [Word(base + 2), Word(base + 1), Word(base + 0)];
      assert face[..3] == [v1, v2, v3];
      var endTarget, midTarget, target := base + 0, base + 2, base + 3;
      var vertexIndex := 3;
      while vertexIndex < p.numVertices
        invariant 3 <= vertexIndex <= p.numVertices
        invariant target == base + vertexIndex && midTarget == target - 1 && endTarget == base
        invariant vertices == old(vertices) + face[..vertexIndex]
        invariant indices == old(indices) + Words(FanIndices(base, vertexIndex))
        invariant objectLoaded == old(objectLoaded)
      {
        var newVertex := lwVertices[p.pointIndex[vertexIndex]].(normal := normal, color := WHITE);
        assert newVertex == face[vertexIndex];
        assert face[..vertexIndex + 1] == face[..vertexIndex] + [newVertex];
        assert old(vertices) + face[..vertexIndex] + [newVertex] == old(vertices) + (face[..vertexIndex] + [newVertex]);
        vertices := vertices + [newVertex];
        FanStep(base, vertexIndex);
        ghost var fan := Words(FanIndices(base, vertexIndex));
        assert old(indices) + fan + [Word(target), Word(midTarget), Word(endTarget)] ==
               old(indices) + (fan + [Word(target), Word(midTarget), Word(endTarget)]);
        indices := indices + [Word(target), Word(midTarget), Word(endTarget)];
        midTarget := target;
        target := target + 1;
        vertexIndex := vertexIndex + 1;
      }
      assert face[..vertexIndex] == face;
    }

    /**
     * TransferMeshDataFromLWO: with at least one layer, the vertices and
     * WORD indices of layer 0's faces are appended; errorReason receives the
     * warning when polygons were skipped and is kept otherwise.
     */
    method TransferMeshData(obj: LightWave.LightWaveObject, normalOf: NormalFn, errorReason: string, ghost ls: seq<LayerData>)
      returns (status: TransferStatus, reason: string)
      requires ls == obj.LayersValue()
      modifies this
      ensures status == TransferOf(ls, normalOf).status
      ensures objectLoaded == old(objectLoaded)
      ensures status == NoLayers ==> vertices == old(vertices) && indices == old(indices) && reason == errorReason
      ensures status == Transferred ==>
                var m := TransferOf(ls, normalOf).mesh;
                vertices == old(vertices) + m.vertices && indices == old(indices) + Words(m.indices) &&
                reason == if m.skipped > 0 then SkipWarning(m.skipped) else errorReason
    {
      reason := errorReason;
      if obj.GetNumLayers() == 0 {
        return NoLayers, reason;
      }
      var okPoints, points := obj.GetPointsByLayer(0);
      if !okPoints {
        return TransferFault, reason;
      }
      var lwVertices := CopyPoints(points);
      var okPols, pols := obj.GetPolsByLayer(0);
      if !okPols {
        return TransferFault, reason;
      }
      var ok, unsupportedPolygons := EmitPolygons(points, lwVertices, pols, normalOf);
      if !ok {
        return TransferFault, reason;
      }
      assert TransferOf(ls, normalOf) == Transfer(Transferred, MeshOf(points, pols, normalOf).value);
      if unsupportedPolygons > 0 {
        reason := SkipWarning(unsupportedPolygons);
      }
      return Transferred, reason;
    }

    /**
     * The loop of TransferMeshDataFromLWO over the polygons: each face is
     * emitted from the next vertex offset, each other polygon counted. `ok`
     * is false where a face names a point that is not there.
     */
    method EmitPolygons(points: seq<Vec12>, lwVertices: seq<Vertex>, pols: seq<Polygon>, normalOf: NormalFn)
      returns (ok: bool, unsupportedPolygons: nat)
      requires |lwVertices| == |points| && forall i :: 0 <= i < |points| ==> lwVertices[i] == SourceVertex(points[i])
      modifies this
      ensures ok <==> MeshOf(points, pols, normalOf).Some?
      ensures objectLoaded == old(objectLoaded)
      ensures ok ==>
                var m := MeshOf(points, pols, normalOf).value;
                vertices == old(vertices) + m.vertices && indices == old(indices) + Words(m.indices) &&
                unsupportedPolygons == m.skipped
    {
      unsupportedPolygons := 0;
      var targetIndexOffset := 0;
      ghost var m := EMPTY_MESH;
      var i := 0;
      while i < |pols|
        invariant 0 <= i <= |pols|
        invariant MeshOf(points, pols[..i], normalOf) == Some(m)
        invariant vertices == old(vertices) + m.vertices && indices == old(indices) + Words(m.indices)
        invariant targetIndexOffset == |m.vertices| && unsupportedPolygons == m.skipped
        invariant objectLoaded == old(objectLoaded)
      {
        assert pols[..i + 1][..i] == pols[..i];
        ok, targetIndexOffset, unsupportedPolygons :=
          EmitPolygon(points, lwVertices, pols[i], normalOf, targetIndexOffset, unsupportedPolygons, m, old(vertices), old(indices));
        if !ok {
          MeshFaultSticks(points, pols, i + 1, normalOf);
          return false, unsupportedPolygons;
        }
        m := AddPolygon(points, m, pols[i], normalOf).value;
        i := i + 1;
      }
      assert pols[..i] == pols;
      return true, unsupportedPolygons;
    }

    /**
     * One polygon of the loop, after the mesh `m` has been emitted on top of
     * `vertices0` and `indices0`: a face from offset targetIndexOffset, or
     * one more unsupported polygon.
     */
    method EmitPolygon(points: seq<Vec12>, lwVertices: seq<Vertex>, pol: Polygon, normalOf: NormalFn,
                       targetIndexOffset: nat, unsupportedPolygons: nat,
                       ghost m: Mesh, ghost vertices0: seq<Vertex>, ghost indices0: seq<nat>)
      returns (ok: bool, targetIndexOffset': nat, unsupportedPolygons': nat)
      requires |lwVertices| == |points| && forall i :: 0 <= i < |points| ==> lwVertices[i] == SourceVertex(points[i])
      requires vertices == vertices0 + m.vertices && indices == indices0 + Words(m.indices)
      requires targetIndexOffset == |m.vertices| && unsupportedPolygons == m.skipped
      modifies this
      ensures ok <==> AddPolygon(points, m, pol, normalOf).Some?
      ensures objectLoaded == old(objectLoaded)
      ensures ok ==>
                var m' := AddPolygon(points, m, pol, normalOf).value;
                vertices == vertices0 + m'.vertices && indices == indices0 + Words(m'.indices) &&
                targetIndexOffset' == |m'.vertices| && unsupportedPolygons' == m'.skipped
    {
      targetIndexOffset', unsupportedPolygons' := targetIndexOffset, unsupportedPolygons;
      if pol.numVertices > 2 {
        if !Fits(pol, |lwVertices|) {
          return false, targetIndexOffset', unsupportedPolygons';
        }
        EmitFace(points, lwVertices, pol, normalOf, targetIndexOffset);
        WordsAppend(m.indices, FanIndices(targetIndexOffset, pol.numVertices));
        targetIndexOffset' := targetIndexOffset + pol.numVertices;
      } else {
        unsupportedPolygons' := unsupportedPolygons + 1;
      }
      ok := true;
    }

    /**
     * ReadObjectFile: clear the lists, give up when the file does not
     * exist, read it into a new object, then transfer its mesh. The result
     * is that of LoadOf; on a fault nothing is promised.
     */
    method ReadObjectFile(fileExists: bool, file: Option<Bytes>, normalOf: NormalFn)
      returns (loaded: bool, errorReason: string)
      modifies this
      ensures LoadOf(fileExists, file, normalOf).NotLoaded? ==>
                !loaded && !objectLoaded && errorReason == LoadOf(fileExists, file, normalOf).reason &&
                vertices == [] && indices == []
      ensures LoadOf(fileExists, file, normalOf).Loaded? ==>
                var m := LoadOf(fileExists, file, normalOf).mesh;
                loaded && objectLoaded && errorReason == LoadOf(fileExists, file, normalOf).warning &&
                vertices == m.vertices && indices == Words(m.indices)
    {
      objectLoaded := false;
      vertices := [];
      indices := [];
      if !fileExists {
        return false, NO_FILE;
      }
      var lwObject := new LightWave.LightWaveObject();
      var status := lwObject.Read(file);
      ghost var read := LightWave.ReadOutcome(file);
      assert !status.Fault? ==> lwObject.LayersValue() == read.layers;
      loaded, errorReason := LoadRead(lwObject, status, read, normalOf, TransferOf(read.layers, normalOf));
    }

    /** The rest of ReadObjectFile, once Read has returned `status` on a fresh object. */
    method LoadRead(lwObject: LightWave.LightWaveObject, status: LightWave.ReadStatus, ghost read: LightWave.Outcome,
                    normalOf: NormalFn, ghost t: Transfer)
      returns (loaded: bool, errorReason: string)
      requires status == read.status && (!status.Fault? ==> lwObject.LayersValue() == read.layers)
      requires t == TransferOf(read.layers, normalOf)
      requires vertices == [] && indices == [] && !objectLoaded
      modifies this
      ensures LoadAfter(read, ReadAccepted(status), t).NotLoaded? ==>
                !loaded && !objectLoaded && errorReason == LoadAfter(read, ReadAccepted(status), t).reason &&
                vertices == [] && indices == []
      ensures LoadAfter(read, ReadAccepted(status), t).Loaded? ==>
                var m := LoadAfter(read, ReadAccepted(status), t).mesh;
                loaded && objectLoaded && errorReason == LoadAfter(read, ReadAccepted(status), t).warning &&
                vertices == m.vertices && indices == Words(m.indices)
    {
      ghost var l := LoadAfter(read, ReadAccepted(status), t);
      if status.Fault? {
        assert l.LoadFault?;
        return false, "";
      }
      if !ReadAccepted(status) {
        assert l == NotLoaded(NOT_READ);
        return false, NOT_READ;
      }
      errorReason := "";
      var transfer;
      transfer, errorReason := TransferMeshData(lwObject, normalOf, errorReason, read.layers);
      if transfer != Transferred {
        assert transfer == NoLayers ==> l == NotLoaded(NOT_TRANSFERRED) && errorReason == "";
        assert transfer == TransferFault ==> l.LoadFault?;
        if errorReason == "" {
          errorReason := NOT_TRANSFERRED;
        }
        return false, errorReason;
      }
      assert l == Loaded(t.mesh, if t.mesh.skipped > 0 then SkipWarning(t.mesh.skipped) else "");
      assert vertices == t.mesh.vertices by { assert [] + t.mesh.vertices == t.mesh.vertices; }
      assert indices == Words(t.mesh.indices) by { assert [] + Words(t.mesh.indices) == Words(t.mesh.indices); }
      objectLoaded := true;
      return true, errorReason;
    }
  }
}
