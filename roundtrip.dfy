/** How the writer and the reader compose: a surface written with its channel frame and read
    back, and a file read and written again. */
module RoundTrip {
  import opened MeshData
  import opened Reader
  import opened Writer

  /** Columns with distinct labels, as one-dimensional arrays, keep their labels distinct. */
  lemma ColumnArraysDistinct(cols: seq<(string, seq<Elem>)>)
    requires DistinctKeys(cols)
    ensures DistinctKeys(ColumnArrays(cols))
  {
    var attrs := ColumnArrays(cols);
    forall i, j | 0 <= i < j < |attrs| ensures attrs[i].0 != attrs[j].0 {
      assert attrs[i].0 == cols[i].0 && attrs[j].0 == cols[j].0;
    }
  }

  /** The columns of a frame with one row per vertex are written as they are, in order. */
  lemma CopiedColumns(meta: Meta, n: nat)
    requires FrameOf(meta).Some? && FrameOf(meta).value.rows == n && DistinctKeys(FrameOf(meta).value.columns)
    ensures CopiedPointData(meta, n) == ColumnArrays(FrameOf(meta).value.columns)
  {
    var attrs := ColumnArrays(FrameOf(meta).value.columns);
    ColumnArraysDistinct(FrameOf(meta).value.columns);
    assert [] + attrs == attrs;
    PutAllFresh([], attrs);
  }

  lemma ColumnArraysPrefix(cols: seq<(string, seq<Elem>)>, k: nat)
    requires k <= |cols|
    ensures ColumnArrays(cols)[..k] == ColumnArrays(cols[..k])
  {
  }

  /** Reading one-dimensional arrays of `n` values gives back their columns, each flattened
      under its own name. */
  lemma {:induction false} VectorChannels(n: nat, cols: seq<(string, seq<Elem>)>)
    requires AllOfLength(cols, n)
    ensures AllChannels(n, ColumnArrays(cols)) == cols
    ensures !HasShapeFailure(n, ColumnArrays(cols))
    decreases |cols|
  {
    var attrs := ColumnArrays(cols);
    if cols != [] {
      var k := |cols| - 1;
      var init := cols[..k];
      ColumnArraysPrefix(cols, k);
      assert attrs[..|attrs| - 1] == ColumnArrays(init);
      assert AllOfLength(init, n);
      VectorChannels(n, init);
      assert |attrs[k].1.flat| == n;
      assert Channels(n, attrs[k].0, attrs[k].1) == [cols[k]];
      assert init + [cols[k]] == cols;
    }
  }

  /** A surface whose point data is a frame of channels, one row per vertex, written and read
      back is the same surface with the same frame; a frame with no columns is not written,
      and the layer comes back without metadata. */
  lemma WriteThenRead(layer: Layer)
    requires FrameOf(layer.meta).Some?
    requires var f := FrameOf(layer.meta).value; ValidFrame(f) && f.rows == |layer.data.vertices|
    ensures var f := FrameOf(layer.meta).value;
            var r := ReadSurfaceSpec(Parsed(SurfaceMesh(layer)));
            && r.Ok?
            && r.value.data == layer.data
            && r.value.layerType == SurfaceTag
            && (f.columns != [] ==> r.value.meta == WithFrame(f))
            && (f.columns == [] ==> r.value.meta == NoMeta)
  {
    var f := FrameOf(layer.meta).value;
    var n := |layer.data.vertices|;
    var mesh := SurfaceMesh(layer);
    CopiedColumns(layer.meta, n);
    assert mesh.pointData == ColumnArrays(f.columns);
    VectorChannels(n, f.columns);
    ColumnArraysDistinct(f.columns);
    assert DistinctKeys(AllChannels(n, mesh.pointData));
    TableWithoutClashes(n, mesh.pointData);
    FirstTrianglesFound(mesh.cells, 0);
    ReadLayerShape(mesh);
  }

  /** A file read and written again keeps its vertices and its first triangle block, and its
      point data becomes the read channel table, every channel a one-dimensional array. */
  lemma ReadThenWrite(mesh: Mesh)
    requires !HasShapeFailure(|mesh.points|, mesh.pointData)
    ensures var r := ReadSurfaceSpec(Parsed(mesh));
            var n := |mesh.points|;
            && r.Ok?
            && SurfaceMesh(r.value).points == mesh.points
            && SurfaceMesh(r.value).cells == [CellBlock(TriangleType, FirstTriangles(mesh.cells))]
            && SurfaceMesh(r.value).pointData == ColumnArrays(ChannelTable(n, mesh.pointData))
  {
    var n := |mesh.points|;
    ReadLayerShape(mesh);
    var layer := ReadSurfaceSpec(Parsed(mesh)).value;
    var table := ChannelTable(n, mesh.pointData);
    if |mesh.pointData| > 0 && table != [] {
      CopiedColumns(layer.meta, n);
    }
  }

  /** A file whose point data are one-dimensional arrays of one value per vertex under
      distinct names is written back with exactly the same point data. */
  lemma ScalarArraysRoundTrip(mesh: Mesh)
    requires forall i :: 0 <= i < |mesh.pointData| ==> mesh.pointData[i].1.shape == [|mesh.points|]
    requires DistinctKeys(mesh.pointData)
    ensures var r := ReadSurfaceSpec(Parsed(mesh));
            r.Ok? && SurfaceMesh(r.value).pointData == mesh.pointData
  {
    var n := |mesh.points|;
    var cols := seq(|mesh.pointData|, i requires 0 <= i < |mesh.pointData| => (mesh.pointData[i].0, mesh.pointData[i].1.flat));
    forall i | 0 <= i < |mesh.pointData| ensures |cols[i].1| == n {
      assert Product([n]) == n * Product([]);
    }
    assert ColumnArrays(cols) == mesh.pointData by {
      forall i | 0 <= i < |cols| ensures ColumnArrays(cols)[i] == mesh.pointData[i] {
        assert Vector(cols[i].1) == mesh.pointData[i].1;
      }
    }
    VectorChannels(n, cols);
    assert DistinctKeys(cols) by {
      forall i, j | 0 <= i < j < |cols| ensures cols[i].0 != cols[j].0 {
        assert cols[i].0 == mesh.pointData[i].0;
      }
    }
    TableWithoutClashes(n, mesh.pointData);
    ReadThenWrite(mesh);
  }

  /** A file with one array of `n` rows and `k` columns, `k` not 1, is written back with `k`
      one-dimensional arrays named `name_C0` … in place of the original: the channels stay split. */
  lemma SplitArrayStaysSplit(mesh: Mesh, name: string, a: NdArray)
    requires mesh.pointData == [(name, a)]
    requires |a.shape| == 2 && a.shape[0] == |mesh.points| && |mesh.points| > 0 && a.shape[1] != 1
    ensures ReadSurfaceSpec(Parsed(mesh)).Ok?
    ensures var written := SurfaceMesh(ReadSurfaceSpec(Parsed(mesh)).value).pointData;
            && |written| == a.shape[1]
            && forall i :: 0 <= i < a.shape[1] ==> written[i] == (ChannelName(name, i), Vector(Column(a, i)))
  {
    var n := |mesh.points|;
    assert !HasShapeFailure(n, mesh.pointData);
    SplitArrayChannels(n, name, a);
    var cs := SplitChannels(name, a, a.shape[1]);
    assert mesh.pointData[..0] == [];
    assert ChannelTable(n, mesh.pointData) == PutAll([], cs);
    assert DistinctKeys(cs) by {
      forall i, j | 0 <= i < j < |cs| ensures cs[i].0 != cs[j].0 {
        assert cs[i].0 == ChannelName(name, i) && cs[j].0 == ChannelName(name, j);
      }
    }
    assert [] + cs == cs;
    PutAllFresh([], cs);
    ReadThenWrite(mesh);
  }
}
