/** Flattening of a Blender mesh into the arrays of a USD `UsdGeomMesh`:
    points, face-vertex counts, face-vertex indices, per-material face groups
    and the three crease arrays. */
module UsdMesh {

  /** An unsigned 8-bit value, the type of an edge's crease weight. */
  type Byte = x: int | 0 <= x < 256

  /** A polygon: its first loop, its number of loops and its material slot. */
  datatype Poly = Poly(loopstart: nat, totloop: nat, matNr: int)

  /** An edge between two vertices, with its crease weight. */
  datatype Edge = Edge(v1: nat, v2: nat, crease: Byte)

  /** The mesh arrays the writer reads; a loop is represented by its vertex
      index. `V` is the vertex coordinate type, copied without arithmetic. */
  datatype Mesh<V> = Mesh(
    verts: seq<V>,
    polys: seq<Poly>,
    loops: seq<nat>,
    edges: seq<Edge>,
    totcol: int)

  /** Mesh validity the writer relies on: every polygon's loops exist. */
  ghost predicate LoopsInRange<V>(m: Mesh<V>) {
    forall i :: 0 <= i < |m.polys| ==> m.polys[i].loopstart + m.polys[i].totloop <= |m.loops|
  }

  /** Crease sharpness: infinitely sharp, or the fraction `crease / 255`
      represented by its numerator. */
  datatype Sharpness = Infinite | Fraction(numerator: Byte)

  /** The flat USD arrays. `faceGroups` maps a material number to the
      polygons using it. */
  datatype MeshData<V> = MeshData(
    points: seq<V>,
    faceVertexCounts: seq<nat>,
    faceIndices: seq<nat>,
    faceGroups: map<int, seq<nat>>,
    creaseLengths: seq<nat>,
    creaseVertexIndices: seq<nat>,
    creaseSharpnesses: seq<Sharpness>)

  function Sum(s: seq<nat>): nat {
    if |s| == 0 then 0 else Sum(s[..|s| - 1]) + s[|s| - 1]
  }

  /** The shape constraints the `UsdGeomMesh` schema places on the arrays:
      the face-vertex counts cover the face-vertex indices, there is one
      sharpness per crease, the crease lengths cover the crease indices, and
      every crease is at least one edge (two vertices) long. */
  ghost predicate SchemaShape<V>(d: MeshData<V>) {
    && Sum(d.faceVertexCounts) == |d.faceIndices|
    && |d.creaseSharpnesses| == |d.creaseLengths|
    && Sum(d.creaseLengths) == |d.creaseVertexIndices|
    && (forall k :: 0 <= k < |d.creaseLengths| ==> d.creaseLengths[k] >= 2)
  }

  // ---------------------------------------------------------------- points

  method GetVertices<V>(verts: seq<V>) returns (points: seq<V>)
    ensures |points| == |verts|
    ensures forall i :: 0 <= i < |verts| ==> points[i] == verts[i]
  {
    points := [];
    var i := 0;
    while i < |verts|
      invariant 0 <= i <= |verts|
      invariant points == verts[..i]
    {
      points := points + [verts[i]];
      i := i + 1;
    }
  }

  // ------------------------------------------------------ polygons and loops

  /** Reference definition of the face-vertex counts: one per polygon. */
  function FaceVertexCounts(polys: seq<Poly>): seq<nat> {
    seq(|polys|, i requires 0 <= i < |polys| => polys[i].totloop)
  }

  /** The vertex indices of polygon `i`'s loops, in loop order. */
  function FaceLoops<V>(m: Mesh<V>, i: nat): seq<nat>
    requires i < |m.polys| && LoopsInRange(m)
  {
    m.loops[m.polys[i].loopstart .. m.polys[i].loopstart + m.polys[i].totloop]
  }

  /** Reference definition of the face-vertex indices of the first `n`
      polygons: their loops, polygon after polygon. */
  function FaceIndicesUpTo<V>(m: Mesh<V>, n: nat): seq<nat>
    requires n <= |m.polys| && LoopsInRange(m)
  {
    if n == 0 then [] else FaceIndicesUpTo(m, n - 1) + FaceLoops(m, n - 1)
  }

  /** The face-vertex indices of `n` polygons are as many as their counts
      add up to. */
  lemma {:induction false} FaceIndicesLength<V>(m: Mesh<V>, n: nat)
    requires n <= |m.polys| && LoopsInRange(m)
    ensures |FaceIndicesUpTo(m, n)| == Sum(FaceVertexCounts(m.polys)[..n])
  {
    if n > 0 {
      FaceIndicesLength(m, n - 1);
      var counts := FaceVertexCounts(m.polys);
      assert counts[..n][..n - 1] == counts[..n - 1];
    }
  }

  /** Polygon `i` occupies the face-vertex indices starting at the sum of the
      counts before it: a reader that walks the counts finds each polygon's
      loops where the writer put them. */
  lemma {:induction false} FaceIndexAt<V>(m: Mesh<V>, n: nat, i: nat, j: nat)
    requires n <= |m.polys| && LoopsInRange(m)
    requires i < n && j < m.polys[i].totloop
    ensures Sum(FaceVertexCounts(m.polys)[..i]) + j < |FaceIndicesUpTo(m, n)|
    ensures FaceIndicesUpTo(m, n)[Sum(FaceVertexCounts(m.polys)[..i]) + j] == m.loops[m.polys[i].loopstart + j]
  {
    var counts := FaceVertexCounts(m.polys);
    FaceIndicesLength(m, n - 1);
    FaceIndicesLength(m, n);
    if i < n - 1 {
      FaceIndexAt(m, n - 1, i, j);
    } else {
      assert |FaceIndicesUpTo(m, n - 1)| == Sum(counts[..i]);
    }
  }

  /** Every face-vertex index is the vertex of some loop. */
  lemma {:induction false} FaceIndicesAreLoopVertices<V>(m: Mesh<V>, n: nat)
    requires n <= |m.polys| && LoopsInRange(m)
    ensures forall k :: 0 <= k < |FaceIndicesUpTo(m, n)| ==> FaceIndicesUpTo(m, n)[k] in m.loops
  {
    if n > 0 {
      FaceIndicesAreLoopVertices(m, n - 1);
      var prev := FaceIndicesUpTo(m, n - 1);
      var face := FaceLoops(m, n - 1);
      forall k | 0 <= k < |FaceIndicesUpTo(m, n)| ensures FaceIndicesUpTo(m, n)[k] in m.loops {
        if k >= |prev| {
          var p := m.polys[n - 1];
          assert face[k - |prev|] == m.loops[p.loopstart + (k - |prev|)];
        }
      }
    }
  }

  /** Reference definition of one face group: the polygons among the first
      `n` whose material is `k`, in polygon order. */
  function Group(polys: seq<Poly>, k: int, n: nat): seq<nat>
    requires n <= |polys|
  {
    if n == 0 then []
    else Group(polys, k, n - 1) + (if polys[n - 1].matNr == k then [n - 1] else [])
  }

  /** The materials used by the first `n` polygons. */
  function Materials(polys: seq<Poly>, n: nat): set<int>
    requires n <= |polys|
  {
    set i | 0 <= i < n :: polys[i].matNr
  }

  /** Reference definition of the face groups of the first `n` polygons. */
  function GroupsUpTo(polys: seq<Poly>, n: nat): map<int, seq<nat>>
    requires n <= |polys|
  {
    map k | k in Materials(polys, n) :: Group(polys, k, n)
  }

  /** Face groups are only built when the mesh has more than one material. */
  function FaceGroups<V>(m: Mesh<V>): map<int, seq<nat>> {
    if m.totcol > 1 then GroupsUpTo(m.polys, |m.polys|) else map[]
  }

  /** A group holds exactly the polygons of its material. */
  lemma {:induction false} GroupMembership(polys: seq<Poly>, k: int, n: nat)
    requires n <= |polys|
    ensures forall i: nat :: i in Group(polys, k, n) <==> i < n && polys[i].matNr == k
  {
    if n > 0 {
      GroupMembership(polys, k, n - 1);
    }
  }

  /** A group is strictly ascending, so it lists each polygon at most once. */
  lemma {:induction false} GroupAscending(polys: seq<Poly>, k: int, n: nat)
    requires n <= |polys|
    ensures forall a, b :: 0 <= a < b < |Group(polys, k, n)| ==> Group(polys, k, n)[a] < Group(polys, k, n)[b]
  {
    if n > 0 {
      GroupAscending(polys, k, n - 1);
      GroupMembership(polys, k, n - 1);
      var g := Group(polys, k, n - 1);
      forall a | 0 <= a < |g| ensures g[a] < n - 1 {
        assert g[a] in g;
      }
    }
  }

  /** A material no polygon uses has an empty group. */
  lemma {:induction false} GroupOfUnusedMaterial(polys: seq<Poly>, k: int, n: nat)
    requires n <= |polys| && k !in Materials(polys, n)
    ensures Group(polys, k, n) == []
  {
    if n > 0 {
      assert polys[n - 1].matNr in Materials(polys, n);
      assert Materials(polys, n - 1) <= Materials(polys, n);
      GroupOfUnusedMaterial(polys, k, n - 1);
    }
  }

  /** Appending polygon `n` to the face groups adds `n` to the end of its
      material's group, creating the group if needed, as `face_groups[mat_nr]`
      does. */
  lemma GroupsStep(polys: seq<Poly>, n: nat)
    requires n < |polys|
    ensures var g := GroupsUpTo(polys, n); var mat := polys[n].matNr;
      GroupsUpTo(polys, n + 1) == g[mat := (if mat in g then g[mat] else []) + [n]]
  {
    var g := GroupsUpTo(polys, n);
    var mat := polys[n].matNr;
    var g' := GroupsUpTo(polys, n + 1);
    var h := g[mat := (if mat in g then g[mat] else []) + [n]];
    assert Materials(polys, n + 1) == Materials(polys, n) + {mat};
    if mat !in g {
      GroupOfUnusedMaterial(polys, mat, n);
    }
    assert g'.Keys == h.Keys;
    forall k | k in g' ensures g'[k] == h[k] {
    }
  }

  /** Polygon `i` exists and uses material `k`. */
  predicate HasMaterial(polys: seq<Poly>, i: int, k: int) {
    0 <= i < |polys| && polys[i].matNr == k
  }

  /** A face group lists only polygons of its own material, so a polygon is
      in no group but its material's. */
  lemma FaceGroupMembers<V>(m: Mesh<V>)
    ensures forall k, i: nat :: k in FaceGroups(m) && i in FaceGroups(m)[k] ==> HasMaterial(m.polys, i, k)
  {
    forall k, i: nat ensures k in FaceGroups(m) && i in FaceGroups(m)[k] ==> HasMaterial(m.polys, i, k) {
      if k in FaceGroups(m) && i in FaceGroups(m)[k] {
        assert FaceGroups(m)[k] == Group(m.polys, k, |m.polys|);
        GroupMembership(m.polys, k, |m.polys|);
        assert i in Group(m.polys, k, |m.polys|);
      }
    }
  }

  /** With several materials, the groups are keyed by exactly the materials
      in use and every polygon is in its material's group; otherwise no
      groups are built. */
  lemma FaceGroupsCover<V>(m: Mesh<V>)
    ensures m.totcol <= 1 ==> FaceGroups(m) == map[]
    ensures m.totcol > 1 ==> forall k :: k in FaceGroups(m) <==> exists i :: HasMaterial(m.polys, i, k)
    ensures m.totcol > 1 ==> forall i :: 0 <= i < |m.polys| ==>
      m.polys[i].matNr in FaceGroups(m) && i in FaceGroups(m)[m.polys[i].matNr]
  {
    var n := |m.polys|;
    if m.totcol > 1 {
      forall k ensures k in FaceGroups(m) <==> exists i :: HasMaterial(m.polys, i, k) {
        if k in Materials(m.polys, n) {
          var i :| 0 <= i < n && m.polys[i].matNr == k;
          assert HasMaterial(m.polys, i, k);
        }
      }
      forall i | 0 <= i < n ensures m.polys[i].matNr in FaceGroups(m) && i in FaceGroups(m)[m.polys[i].matNr] {
        var k := m.polys[i].matNr;
        assert k in Materials(m.polys, n);
        GroupMembership(m.polys, k, n);
      }
    }
  }

  /** Within a face group the polygon indices ascend strictly, so each
      polygon appears once. */
  lemma FaceGroupsAscending<V>(m: Mesh<V>)
    ensures forall k, a, b :: k in FaceGroups(m) && 0 <= a < b < |FaceGroups(m)[k]| ==> FaceGroups(m)[k][a] < FaceGroups(m)[k][b]
  {
    forall k | k in FaceGroups(m)
      ensures forall a, b :: 0 <= a < b < |FaceGroups(m)[k]| ==> FaceGroups(m)[k][a] < FaceGroups(m)[k][b]
    {
      GroupAscending(m.polys, k, |m.polys|);
    }
  }

  method GetLoopsPolys<V>(m: Mesh<V>) returns (counts: seq<nat>, indices: seq<nat>, groups: map<int, seq<nat>>)
    requires LoopsInRange(m)
    ensures |counts| == |m.polys|
    ensures forall i :: 0 <= i < |m.polys| ==> counts[i] == m.polys[i].totloop
    ensures |indices| == Sum(counts)
    ensures indices == FaceIndicesUpTo(m, |m.polys|)
    ensures groups == FaceGroups(m)
  {
    var constructFaceGroups := m.totcol > 1;
    counts := [];
    indices := [];
    groups := map[];
    var i := 0;
    while i < |m.polys|
      invariant 0 <= i <= |m.polys|
      invariant counts == FaceVertexCounts(m.polys)[..i]
      invariant indices == FaceIndicesUpTo(m, i)
      invariant groups == if constructFaceGroups then GroupsUpTo(m.polys, i) else map[]
    {
      var p := m.polys[i];
      counts := counts + [p.totloop];
      var j := 0;
      while j < p.totloop
        invariant 0 <= j <= p.totloop
        invariant indices == FaceIndicesUpTo(m, i) + m.loops[p.loopstart .. p.loopstart + j]
      {
        indices := indices + [m.loops[p.loopstart + j]];
        j := j + 1;
      }
      if constructFaceGroups {
        GroupsStep(m.polys, i);
        var existing := if p.matNr in groups then groups[p.matNr] else [];
        groups := groups[p.matNr := existing + [i]];
      }
      i := i + 1;
    }
    assert counts == FaceVertexCounts(m.polys);
    FaceIndicesLength(m, |m.polys|);
  }

  // ---------------------------------------------------------------- creases

  /** The sharpness written for a crease weight: 255 is infinitely sharp,
      any other weight the fraction `crease / 255`. */
  function SharpnessOf(crease: Byte): Sharpness {
    if crease == 255 then Infinite else Fraction(crease)
  }

  /** The crease weight a sharpness stands for. */
  function CreaseOf(s: Sharpness): Byte {
    match s
    case Infinite => 255
    case Fraction(c) => c
  }

  /** Order of sharpnesses: fractions by numerator, infinity above all. */
  predicate SharpnessLe(a: Sharpness, b: Sharpness) {
    b.Infinite? || (a.Fraction? && b.Fraction? && a.numerator <= b.numerator)
  }

  /** The crease encoding loses nothing and keeps the order of weights:
      a heavier crease is never written less sharp. */
  lemma SharpnessEncoding(c1: Byte, c2: Byte)
    ensures CreaseOf(SharpnessOf(c1)) == c1
    ensures SharpnessOf(c1) == SharpnessOf(c2) <==> c1 == c2
    ensures SharpnessLe(SharpnessOf(c1), SharpnessOf(c2)) <==> c1 <= c2
    ensures SharpnessOf(c1).Infinite? <==> c1 == 255
  {
  }

  /** The edges that contribute a crease, in edge order. */
  function CreaseEdges(edges: seq<Edge>): seq<Edge> {
    if |edges| == 0 then []
    else
      var last := edges[|edges| - 1];
      CreaseEdges(edges[..|edges| - 1]) + (if last.crease != 0 then [last] else [])
  }

  /** An edge contributes a crease exactly when its weight is non-zero, and
      the filter keeps edge order: filtering a concatenation concatenates the
      filtered parts. */
  lemma {:induction false} CreaseEdgesFilter(a: seq<Edge>, b: seq<Edge>)
    ensures forall e :: e in CreaseEdges(a) <==> e in a && e.crease != 0
    ensures CreaseEdges(a + b) == CreaseEdges(a) + CreaseEdges(b)
  {
    if |b| == 0 {
      assert a + b == a;
      if |a| > 0 {
        CreaseEdgesFilter(a[..|a| - 1], []);
        assert a == a[..|a| - 1] + [a[|a| - 1]];
      }
    } else {
      CreaseEdgesFilter(a, b[..|b| - 1]);
      assert (a + b)[..|a + b| - 1] == a + b[..|b| - 1];
    }
  }

  /** Reference definition of the crease vertex indices: both ends of each
      creased edge, in order. */
  function CreaseIndices(ce: seq<Edge>): seq<nat> {
    if |ce| == 0 then []
    else CreaseIndices(ce[..|ce| - 1]) + [ce[|ce| - 1].v1, ce[|ce| - 1].v2]
  }

  /** Crease `k` occupies crease indices `2k` and `2k + 1`. */
  lemma {:induction false} CreaseIndicesLayout(ce: seq<Edge>)
    ensures |CreaseIndices(ce)| == 2 * |ce|
    ensures forall k :: 0 <= k < |ce| ==> CreaseIndices(ce)[2 * k] == ce[k].v1 && CreaseIndices(ce)[2 * k + 1] == ce[k].v2
  {
    if |ce| > 0 {
      var init := ce[..|ce| - 1];
      CreaseIndicesLayout(init);
      forall k | 0 <= k < |ce| ensures CreaseIndices(ce)[2 * k] == ce[k].v1 && CreaseIndices(ce)[2 * k + 1] == ce[k].v2 {
        if k < |ce| - 1 {
          assert init[k] == ce[k];
        }
      }
    }
  }

  /** Every crease has length two. */
  function CreaseLengths(ce: seq<Edge>): seq<nat> {
    seq(|ce|, k => 2)
  }

  function CreaseSharpnesses(ce: seq<Edge>): seq<Sharpness> {
    seq(|ce|, k requires 0 <= k < |ce| => SharpnessOf(ce[k].crease))
  }

  lemma {:induction false} SumOfTwos(n: nat)
    ensures Sum(seq(n, k => 2)) == 2 * n
  {
    if n > 0 {
      SumOfTwos(n - 1);
      assert seq(n, k => 2)[..n - 1] == seq(n - 1, k => 2);
    }
  }

  /** Appending one edge appends at most one crease, at the end. */
  lemma CreaseEdgesStep(edges: seq<Edge>, i: nat)
    requires i < |edges|
    ensures CreaseEdges(edges[..i + 1]) == CreaseEdges(edges[..i]) + (if edges[i].crease != 0 then [edges[i]] else [])
  {
    assert edges[..i + 1][..i] == edges[..i];
  }

  /** The crease arrays grow by one crease per appended creased edge. */
  lemma CreaseArraysStep(ce: seq<Edge>, e: Edge)
    ensures CreaseLengths(ce + [e]) == CreaseLengths(ce) + [2]
    ensures CreaseIndices(ce + [e]) == CreaseIndices(ce) + [e.v1, e.v2]
    ensures CreaseSharpnesses(ce + [e]) == CreaseSharpnesses(ce) + [SharpnessOf(e.crease)]
  {
    assert (ce + [e])[..|ce|] == ce;
  }

  /** The shape of the crease arrays built from creased edges `ce`. */
  lemma CreaseArraysShape(ce: seq<Edge>)
    ensures |CreaseLengths(ce)| == |CreaseSharpnesses(ce)| == |ce|
    ensures forall k :: 0 <= k < |ce| ==> CreaseLengths(ce)[k] == 2
    ensures |CreaseIndices(ce)| == Sum(CreaseLengths(ce)) == 2 * |ce|
    ensures forall k :: 0 <= k < |ce| ==>
      && CreaseIndices(ce)[2 * k] == ce[k].v1
      && CreaseIndices(ce)[2 * k + 1] == ce[k].v2
      && CreaseSharpnesses(ce)[k] == SharpnessOf(ce[k].crease)
  {
    CreaseIndicesLayout(ce);
    SumOfTwos(|ce|);
  }

  method GetCreases(edges: seq<Edge>) returns (lengths: seq<nat>, indices: seq<nat>, sharpnesses: seq<Sharpness>)
    ensures |lengths| == |sharpnesses| == |CreaseEdges(edges)|
    ensures lengths == CreaseLengths(CreaseEdges(edges))
    ensures indices == CreaseIndices(CreaseEdges(edges))
    ensures sharpnesses == CreaseSharpnesses(CreaseEdges(edges))
  {
    lengths := [];
    indices := [];
    sharpnesses := [];
    ghost var ce: seq<Edge> := [];
    var i := 0;
    while i < |edges|
      invariant 0 <= i <= |edges|
      invariant ce == CreaseEdges(edges[..i])
      invariant lengths == CreaseLengths(ce)
      invariant indices == CreaseIndices(ce)
      invariant sharpnesses == CreaseSharpnesses(ce)
    {
      var e := edges[i];
      CreaseEdgesStep(edges, i);
      if e.crease != 0 {
        CreaseArraysStep(ce, e);
        var sharpness := if e.crease == 255 then Infinite else Fraction(e.crease);
        indices := indices + [e.v1, e.v2];
        lengths := lengths + [2];
        sharpnesses := sharpnesses + [sharpness];
        ce := ce + [e];
      }
      i := i + 1;
    }
    assert edges[..|edges|] == edges;
    CreaseArraysShape(ce);
  }

  // ------------------------------------------------------------ whole mesh

  /** The crease attributes are written only when there is a crease. */
  predicate CreaseAttributesWritten<V>(d: MeshData<V>) {
    |d.creaseLengths| != 0
  }

  /** The crease attributes are written exactly when some edge has a
      non-zero crease weight. */
  lemma CreaseGuard(edges: seq<Edge>)
    ensures |CreaseLengths(CreaseEdges(edges))| != 0 <==> exists k :: 0 <= k < |edges| && edges[k].crease != 0
  {
    CreaseEdgesFilter(edges, []);
    if exists k :: 0 <= k < |edges| && edges[k].crease != 0 {
      var k :| 0 <= k < |edges| && edges[k].crease != 0;
      assert edges[k] in CreaseEdges(edges);
    }
    if |CreaseEdges(edges)| != 0 {
      var e := CreaseEdges(edges)[0];
      assert e in CreaseEdges(edges);
      var k :| 0 <= k < |edges| && edges[k] == e;
    }
  }

  method GetGeometryData<V>(m: Mesh<V>) returns (d: MeshData<V>)
    requires LoopsInRange(m)
    ensures SchemaShape(d)
    ensures d.points == m.verts
    ensures d.faceVertexCounts == FaceVertexCounts(m.polys)
    ensures d.faceIndices == FaceIndicesUpTo(m, |m.polys|)
    ensures d.faceGroups == FaceGroups(m)
    ensures d.creaseLengths == CreaseLengths(CreaseEdges(m.edges))
    ensures d.creaseVertexIndices == CreaseIndices(CreaseEdges(m.edges))
    ensures d.creaseSharpnesses == CreaseSharpnesses(CreaseEdges(m.edges))
    ensures CreaseAttributesWritten(d) <==> exists k :: 0 <= k < |m.edges| && m.edges[k].crease != 0
  {
    var points := GetVertices(m.verts);
    var counts, indices, groups := GetLoopsPolys(m);
    var lengths, creaseIndices, sharpnesses := GetCreases(m.edges);
    d := MeshData(points, counts, indices, groups, lengths, creaseIndices, sharpnesses);
    CreaseArraysShape(CreaseEdges(m.edges));
    CreaseGuard(m.edges);
  }

  // -------------------------------------------------------- object support

  datatype EvaluationMode = EvalViewport | EvalRender

  /** The bits of an object's duplicator visibility flag. */
  datatype DupliFlag = DupliViewport | DupliRender

  /** What `is_supported` reads of an object. */
  datatype ObjectInfo = ObjectInfo(hasParticleSystems: bool, duplicatorVisibility: set<DupliFlag>)

  /** The duplicator flag bit that governs a given evaluation mode. */
  function CheckFlag(mode: EvaluationMode): DupliFlag {
    if mode == EvalRender then DupliRender else DupliViewport
  }

  /** A mesh whose particle systems hide their emitter is not exported. */
  function IsSupported(o: ObjectInfo, mode: EvaluationMode): bool {
    if o.hasParticleSystems then CheckFlag(mode) in o.duplicatorVisibility else true
  }

  /** Objects without particle systems are always exported; with particle
      systems, export in a mode depends only on that mode's flag, and an
      object is exported in both modes exactly when both flags are set. */
  lemma IsSupportedCases(o: ObjectInfo, mode: EvaluationMode)
    ensures !o.hasParticleSystems ==> IsSupported(o, mode)
    ensures o.hasParticleSystems ==> (IsSupported(o, EvalRender) <==> DupliRender in o.duplicatorVisibility)
    ensures o.hasParticleSystems ==> (IsSupported(o, EvalViewport) <==> DupliViewport in o.duplicatorVisibility)
    ensures (IsSupported(o, EvalRender) && IsSupported(o, EvalViewport)) <==>
      (!o.hasParticleSystems || o.duplicatorVisibility == {DupliViewport, DupliRender})
  {
    if o.hasParticleSystems && DupliRender in o.duplicatorVisibility && DupliViewport in o.duplicatorVisibility {
      forall f | f in o.duplicatorVisibility ensures f == DupliViewport || f == DupliRender {
      }
      assert o.duplicatorVisibility == {DupliViewport, DupliRender};
    }
  }
}
