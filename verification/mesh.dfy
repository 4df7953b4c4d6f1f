/**
 * What `Mesh::loadFromOBJFile` does with an OBJ file once its lines are
 * read: vertices are collected, each face contributes three 0-based
 * indices, and the vertices are rescaled so the mesh's bounding box is
 * centred on the origin with unit extent.
 *
 * Reading the file is not modelled: the input is the sequence of lines,
 * already split into vertex lines, face lines and everything else. A face
 * line the reader rejects is `BadFace`.
 */
module Meshes {
  import opened Vectors
  import opened Wrappers

  datatype Vec3 = Vec3(x: real, y: real, z: real)

  /** The three vertex numbers of a face line, as written (1-based). */
  datatype Face = Face(v0: nat, v1: nat, v2: nat) | BadFace

  datatype ObjLine = VertexLine(position: Vec3) | TexCoordLine | FaceLine(face: Face) | OtherLine

  /** Indices are stored as `uint16_t`. */
  const INDEX_MOD: nat := 65536

  /** `(uint16_t)v - 1`, stored back into a `uint16_t`. */
  function ObjIndex(v: nat): (r: nat)
    ensures r < INDEX_MOD
    ensures 1 <= v <= INDEX_MOD ==> r == v - 1
    ensures v % INDEX_MOD == 0 ==> r == INDEX_MOD - 1
  {
    (v % INDEX_MOD + INDEX_MOD - 1) % INDEX_MOD
  }

  /** The vertex positions of the lines read so far, in file order. */
  function VerticesOf(lines: seq<ObjLine>): seq<Vec3>
  {
    if |lines| == 0 then []
    else
      var rest := VerticesOf(lines[..|lines| - 1]);
      match lines[|lines| - 1]
      case VertexLine(p) => rest + [p]
      case _ => rest
  }

  /** The face lines read so far, in file order. */
  function FacesOf(lines: seq<ObjLine>): seq<Face>
  {
    if |lines| == 0 then []
    else
      var rest := FacesOf(lines[..|lines| - 1]);
      match lines[|lines| - 1]
      case FaceLine(f) => rest + [f]
      case _ => rest
  }

  function FaceIndices(f: Face): seq<nat>
  {
    match f
    case Face(a, b, c) => [ObjIndex(a), ObjIndex(b), ObjIndex(c)]
    case BadFace => []
  }

  /** The index buffer the faces produce, three entries per face. */
  function IndicesOf(faces: seq<Face>): seq<nat>
  {
    if |faces| == 0 then [] else IndicesOf(faces[..|faces| - 1]) + FaceIndices(faces[|faces| - 1])
  }

  /**
   * Every readable face contributes exactly three indices, each its
   * vertex number minus one, in order.
   */
  lemma {:induction false} IndicesShape(faces: seq<Face>)
    requires BadFace !in faces
    ensures |IndicesOf(faces)| == 3 * |faces|
    ensures forall k :: 0 <= k < |faces| ==>
      IndicesOf(faces)[3 * k] == ObjIndex(faces[k].v0) && IndicesOf(faces)[3 * k + 1] == ObjIndex(faces[k].v1)
      && IndicesOf(faces)[3 * k + 2] == ObjIndex(faces[k].v2)
  {
    if |faces| > 0 {
      var init := faces[..|faces| - 1];
      assert BadFace !in init by {
        forall k | 0 <= k < |init| ensures init[k] != BadFace { assert init[k] == faces[k]; }
      }
      IndicesShape(init);
      forall k | 0 <= k < |faces|
        ensures IndicesOf(faces)[3 * k] == ObjIndex(faces[k].v0) && IndicesOf(faces)[3 * k + 1] == ObjIndex(faces[k].v1)
          && IndicesOf(faces)[3 * k + 2] == ObjIndex(faces[k].v2)
      {
        if k < |init| {
          assert faces[k] == init[k];
        }
      }
    }
  }

  /**
   * When every face names a vertex that exists, every index is a valid
   * position in the vertex list.
   */
  lemma IndicesInRange(faces: seq<Face>, vertexCount: nat)
    requires vertexCount <= INDEX_MOD
    requires forall f :: f in faces ==> f.Face? && 1 <= f.v0 <= vertexCount && 1 <= f.v1 <= vertexCount && 1 <= f.v2 <= vertexCount
    ensures forall i :: i in IndicesOf(faces) ==> i < vertexCount
  {
    if |faces| > 0 {
      var init := faces[..|faces| - 1];
      assert forall f :: f in init ==> f in faces;
      IndicesInRange(init, vertexCount);
      assert faces[|faces| - 1] in faces;
    }
  }

  datatype Parsed = Parsed(vertices: seq<Vec3>, indices: seq<nat>, ok: bool)

  /**
   * The reading loop: vertex lines append a vertex, face lines append
   * three indices, and an unreadable face line stops the reading with
   * failure.
   */
  method ReadObj(lines: seq<ObjLine>) returns (p: Parsed)
    ensures p.ok <==> BadFace !in FacesOf(lines)
    ensures p.ok ==> p.vertices == VerticesOf(lines) && p.indices == IndicesOf(FacesOf(lines))
    ensures |p.indices| % 3 == 0
  {
    var vertices: seq<Vec3> := [];
    var indices: seq<nat> := [];
    for i := 0 to |lines|
      invariant vertices == VerticesOf(lines[..i])
      invariant indices == IndicesOf(FacesOf(lines[..i]))
      invariant BadFace !in FacesOf(lines[..i])
      invariant |indices| == 3 * |FacesOf(lines[..i])|
    {
      assert lines[..i + 1][..i] == lines[..i];
      match lines[i]
      case VertexLine(pos) =>
        vertices := vertices + [pos];
      case FaceLine(f) =>
        if f.BadFace? {
          FacesPrefix(lines, i + 1);
          return Parsed(vertices, indices, false);
        }
        indices := indices + [ObjIndex(f.v0), ObjIndex(f.v1), ObjIndex(f.v2)];
      case _ =>
    }
    assert lines[..|lines|] == lines;
    return Parsed(vertices, indices, true);
  }

  /** Faces read from a prefix stay among the faces of the whole file. */
  lemma {:induction false} FacesPrefix(lines: seq<ObjLine>, n: nat)
    requires n <= |lines|
    ensures forall f :: f in FacesOf(lines[..n]) ==> f in FacesOf(lines)
    decreases |lines| - n
  {
    if n < |lines| {
      FacesPrefix(lines, n + 1);
      assert lines[..n + 1][..n] == lines[..n];
    } else {
      assert lines[..n] == lines;
    }
  }

  /** The initial corners of the bounds search. */
  const BOUND_SENTINEL: real := 99999.0

  /** Componentwise maximum over the vertices, starting from -99999. */
  function Hi(vs: seq<Vec3>): (r: Vec3)
    ensures forall v :: v in vs ==> v.x <= r.x && v.y <= r.y && v.z <= r.z
    ensures r.x == -BOUND_SENTINEL || exists v :: v in vs && v.x == r.x
    ensures r.y == -BOUND_SENTINEL || exists v :: v in vs && v.y == r.y
    ensures r.z == -BOUND_SENTINEL || exists v :: v in vs && v.z == r.z
    ensures -BOUND_SENTINEL <= r.x && -BOUND_SENTINEL <= r.y && -BOUND_SENTINEL <= r.z
  {
    if |vs| == 0 then Vec3(-BOUND_SENTINEL, -BOUND_SENTINEL, -BOUND_SENTINEL)
    else
      var h := Hi(vs[..|vs| - 1]);
      var v := vs[|vs| - 1];
      assert forall u :: u in vs[..|vs| - 1] ==> u in vs;
      Vec3(Max(h.x, v.x), Max(h.y, v.y), Max(h.z, v.z))
  }

  /** Componentwise minimum over the vertices, starting from 99999. */
  function Lo(vs: seq<Vec3>): (r: Vec3)
    ensures forall v :: v in vs ==> r.x <= v.x && r.y <= v.y && r.z <= v.z
    ensures r.x == BOUND_SENTINEL || exists v :: v in vs && v.x == r.x
    ensures r.y == BOUND_SENTINEL || exists v :: v in vs && v.y == r.y
    ensures r.z == BOUND_SENTINEL || exists v :: v in vs && v.z == r.z
    ensures r.x <= BOUND_SENTINEL && r.y <= BOUND_SENTINEL && r.z <= BOUND_SENTINEL
  {
    if |vs| == 0 then Vec3(BOUND_SENTINEL, BOUND_SENTINEL, BOUND_SENTINEL)
    else
      var l := Lo(vs[..|vs| - 1]);
      var v := vs[|vs| - 1];
      assert forall u :: u in vs[..|vs| - 1] ==> u in vs;
      Vec3(Min(l.x, v.x), Min(l.y, v.y), Min(l.z, v.z))
  }

  /** A mesh lying within 0.001 in z is given depth 1, so z is not stretched. */
  const FLAT_Z: real := 0.001

  /** The top corner after the flat-z adjustment. */
  function Top(vs: seq<Vec3>): (r: Vec3)
    ensures r.x == Hi(vs).x && r.y == Hi(vs).y
    ensures Abs(Hi(vs).z - Lo(vs).z) < FLAT_Z ==> r.z == Lo(vs).z + 1.0
    ensures Abs(Hi(vs).z - Lo(vs).z) >= FLAT_Z ==> r.z == Hi(vs).z
  {
    var hi := Hi(vs);
    var lo := Lo(vs);
    if Abs(hi.z - lo.z) < FLAT_Z then hi.(z := lo.z + 1.0) else hi
  }

  /** `size3d`: the extent per axis. */
  function Extent(vs: seq<Vec3>): (r: Vec3)
    ensures r.x == Hi(vs).x - Lo(vs).x && r.y == Hi(vs).y - Lo(vs).y
    ensures r.z != 0.0
    ensures Abs(Hi(vs).z - Lo(vs).z) < FLAT_Z ==> r.z == 1.0
  {
    var top := Top(vs);
    var lo := Lo(vs);
    Vec3(top.x - lo.x, top.y - lo.y, top.z - lo.z)
  }

  function Rescale(p: Vec3, lo: Vec3, size: Vec3): Vec3
    requires size.x != 0.0 && size.y != 0.0 && size.z != 0.0
  {
    Vec3((p.x - lo.x) / size.x - 0.5, (p.y - lo.y) / size.y - 0.5, (p.z - lo.z) / size.z - 0.5)
  }

  /** A mesh whose x or y extent is zero cannot be rescaled. */
  predicate Rescalable(vs: seq<Vec3>)
  {
    Extent(vs).x != 0.0 && Extent(vs).y != 0.0
  }

  function RescaleAll(vs: seq<Vec3>, lo: Vec3, size: Vec3): (r: seq<Vec3>)
    requires size.x != 0.0 && size.y != 0.0 && size.z != 0.0
    ensures |r| == |vs|
    ensures forall i :: 0 <= i < |vs| ==> r[i] == Rescale(vs[i], lo, size)
  {
    seq(|vs|, i requires 0 <= i < |vs| => Rescale(vs[i], lo, size))
  }

  datatype Mesh = Mesh(vertices: seq<Vec3>, colored: seq<Vec3>, indices: seq<nat>, size: Vec2)

  /**
   * The whole post-processing of a read file: `None` when a face line was
   * unreadable; otherwise the rescaled vertices, the coloured copies
   * rescaled by the same corner and extent, the index buffer and the x-y
   * extent.
   */
  method LoadMesh(lines: seq<ObjLine>, withColors: bool) returns (r: Option<Mesh>)
    requires BadFace !in FacesOf(lines) ==> Rescalable(VerticesOf(lines))
    ensures r.None? <==> BadFace in FacesOf(lines)
    ensures r.Some? ==> |r.value.vertices| == |VerticesOf(lines)| && r.value.indices == IndicesOf(FacesOf(lines))
    ensures r.Some? ==> r.value.colored == (if withColors then r.value.vertices else [])
    ensures r.Some? ==> r.value.size == Vec2(Extent(VerticesOf(lines)).x, Extent(VerticesOf(lines)).y)
    ensures r.Some? ==> forall i :: 0 <= i < |r.value.vertices| ==>
      r.value.vertices[i] == Rescale(VerticesOf(lines)[i], Lo(VerticesOf(lines)), Extent(VerticesOf(lines)))
  {
    var p := ReadObj(lines);
    if !p.ok {
      return None;
    }
    var lo := Lo(p.vertices);
    var size := Extent(p.vertices);
    var vs := RescaleAll(p.vertices, lo, size);
    var colored := if withColors then RescaleAll(p.vertices, lo, size) else [];
    r := Some(Mesh(vs, colored, p.indices, Vec2(size.x, size.y)));
  }

  lemma UnitInterval(p: real, lo: real, hi: real, size: real)
    requires lo <= p <= hi && 0.0 < size && hi - lo <= size
    ensures -0.5 <= (p - lo) / size - 0.5 <= 0.5
  {
    assert 0.0 <= (p - lo) / size;
    assert (p - lo) / size <= (hi - lo) / size <= 1.0;
  }

  lemma UnitEnds(p: real, lo: real, size: real)
    requires 0.0 < size
    ensures (p - lo) / size - 0.5 == -0.5 <==> p == lo
    ensures (p - lo) / size - 0.5 == 0.5 <==> p == lo + size
  {
    var q := (p - lo) / size;
    assert q * size == p - lo;
  }

  lemma RescaleInBox(p: Vec3, lo: Vec3, hi: Vec3, size: Vec3)
    requires lo.x <= p.x <= hi.x && lo.y <= p.y <= hi.y && lo.z <= p.z <= hi.z
    requires 0.0 < size.x && 0.0 < size.y && 0.0 < size.z
    requires hi.x - lo.x <= size.x && hi.y - lo.y <= size.y && hi.z - lo.z <= size.z
    ensures -0.5 <= Rescale(p, lo, size).x <= 0.5
    ensures -0.5 <= Rescale(p, lo, size).y <= 0.5
    ensures -0.5 <= Rescale(p, lo, size).z <= 0.5
  {
    UnitInterval(p.x, lo.x, hi.x, size.x);
    UnitInterval(p.y, lo.y, hi.y, size.y);
    UnitInterval(p.z, lo.z, hi.z, size.z);
  }

  /**
   * Rescaling maps every vertex into the box [-0.5, 0.5]^3 when both
   * planar extents are positive.
   */
  lemma RescaledInUnitBox(vs: seq<Vec3>, i: nat)
    requires i < |vs|
    requires Extent(vs).x > 0.0 && Extent(vs).y > 0.0
    ensures -0.5 <= Rescale(vs[i], Lo(vs), Extent(vs)).x <= 0.5
    ensures -0.5 <= Rescale(vs[i], Lo(vs), Extent(vs)).y <= 0.5
    ensures -0.5 <= Rescale(vs[i], Lo(vs), Extent(vs)).z <= 0.5
  {
    var v := vs[i];
    var lo := Lo(vs);
    var hi := Top(vs);
    assert v in vs;
    assert Hi(vs).z <= hi.z;
    RescaleInBox(v, lo, hi, Extent(vs));
  }

  /** Along x and y, rescaling sends exactly the low corner to -0.5 and exactly the high corner to +0.5. */
  lemma RescaleEnds(p: Vec3, lo: Vec3, size: Vec3)
    requires 0.0 < size.x && 0.0 < size.y && size.z != 0.0
    ensures Rescale(p, lo, size).x == -0.5 <==> p.x == lo.x
    ensures Rescale(p, lo, size).x == 0.5 <==> p.x == lo.x + size.x
    ensures Rescale(p, lo, size).y == -0.5 <==> p.y == lo.y
    ensures Rescale(p, lo, size).y == 0.5 <==> p.y == lo.y + size.y
  {
    UnitEnds(p.x, lo.x, size.x);
    UnitEnds(p.y, lo.y, size.y);
  }

  /** The lowest x goes to -0.5 and the highest to +0.5; likewise for y. */
  lemma RescaledCorners(vs: seq<Vec3>, i: nat)
    requires i < |vs|
    requires Extent(vs).x > 0.0 && Extent(vs).y > 0.0
    ensures Rescale(vs[i], Lo(vs), Extent(vs)).x == -0.5 <==> vs[i].x == Lo(vs).x
    ensures Rescale(vs[i], Lo(vs), Extent(vs)).x == 0.5 <==> vs[i].x == Hi(vs).x
    ensures Rescale(vs[i], Lo(vs), Extent(vs)).y == -0.5 <==> vs[i].y == Lo(vs).y
    ensures Rescale(vs[i], Lo(vs), Extent(vs)).y == 0.5 <==> vs[i].y == Hi(vs).y
  {
    RescaleEnds(vs[i], Lo(vs), Extent(vs));
  }
}
