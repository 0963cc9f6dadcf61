/** The values that the reader produces and the writer consumes: numpy arrays,
    meshio meshes, napari layer tuples, the pandas frame that holds the channels,
    and the insertion-ordered dictionaries that name per-vertex data. */
module MeshData {

  datatype Option<T> = None | Some(value: T)

  datatype Result<T, E> = Ok(value: T) | Err(error: E)

  /** Array elements are never inspected by the plugin; integers stand for them. */
  type Elem = int

  /** One row of a two-dimensional array (a vertex position, or the corner indices of a face). */
  type Row = seq<Elem>

  function Product(shape: seq<nat>): nat {
    if shape == [] then 1 else shape[0] * Product(shape[1..])
  }

  lemma ProductOfTwo(shape: seq<nat>)
    requires |shape| == 2
    ensures Product(shape) == shape[0] * shape[1]
  {
    assert Product(shape[1..][1..]) == 1;
    assert Product(shape[1..]) == shape[1] * 1;
  }

  /** A numpy array: its shape and its elements in row-major (C) order. */
  datatype ArrayData = ArrayData(shape: seq<nat>, flat: seq<Elem>)

  type NdArray = a: ArrayData | |a.flat| == Product(a.shape) witness ArrayData([0], [])

  /** `np.array(column)`: a one-dimensional array holding `col`. */
  function Vector(col: seq<Elem>): NdArray {
    assert Product([|col|]) == |col| * Product([]);
    ArrayData([|col|], col)
  }

  /** One meshio cell block: a cell type such as "triangle", "line" or "quad", and its cells. */
  datatype CellBlock = CellBlock(cellType: string, data: seq<Row>)

  const TriangleType := "triangle"

  /** A meshio mesh: vertex positions, cell blocks in file order, and named per-vertex arrays in
      dictionary order. */
  datatype Mesh = Mesh(points: seq<Row>, cells: seq<CellBlock>, pointData: seq<(string, NdArray)>)

  /** The data of a napari Surface layer: vertices and triangular faces. */
  datatype Surface = Surface(vertices: seq<Row>, faces: seq<Row>)

  /** A pandas DataFrame: a row count and named columns in order. */
  datatype Frame = Frame(rows: nat, columns: seq<(string, seq<Elem>)>)

  /** The value stored under `meta["metadata"]["point_data"]`, which need not be a DataFrame. */
  datatype PointDataValue = DataFrame(frame: Frame) | OtherValue

  /** `meta["metadata"]`, with or without a "point_data" key. */
  datatype Metadata = Metadata(pointData: Option<PointDataValue>)

  /** The keyword arguments of a layer that the plugin looks at: "name" and "metadata". */
  datatype Meta = Meta(name: Option<string>, metadata: Option<Metadata>)

  const NoMeta := Meta(None, None)

  /** A napari layer data tuple `(data, meta, layer_type)`. */
  datatype Layer = Layer(data: Surface, meta: Meta, layerType: string)

  const SurfaceTag := "surface"

  /** The DataFrame held at `meta["metadata"]["point_data"]`, if there is one. */
  function FrameOf(meta: Meta): Option<Frame> {
    if meta.metadata.Some? && meta.metadata.value.pointData.Some?
       && meta.metadata.value.pointData.value.DataFrame?
    then Some(meta.metadata.value.pointData.value.frame)
    else None
  }

  /** The meta that carries `f` as its point data and nothing else. */
  function WithFrame(f: Frame): (meta: Meta)
    ensures FrameOf(meta) == Some(f)
  {
    Meta(None, Some(Metadata(Some(DataFrame(f)))))
  }

  /** A frame as pandas builds one from a dictionary: distinct labels, every column `rows` long. */
  ghost predicate ValidFrame(f: Frame) {
    DistinctKeys(f.columns) && forall i :: 0 <= i < |f.columns| ==> |f.columns[i].1| == f.rows
  }

  // Insertion-ordered dictionaries, as a sequence of (key, value) entries.

  function Keys<V>(d: seq<(string, V)>): seq<string> {
    seq(|d|, i requires 0 <= i < |d| => d[i].0)
  }

  ghost predicate DistinctKeys<V>(d: seq<(string, V)>) {
    forall i, j :: 0 <= i < j < |d| ==> d[i].0 != d[j].0
  }

  ghost predicate AllOfLength(d: seq<(string, seq<Elem>)>, n: nat) {
    forall i :: 0 <= i < |d| ==> |d[i].1| == n
  }

  /** `d[k] = v` on a Python dictionary: a new key goes to the end; an existing key keeps its
      place and takes the new value. */
  function Put<V>(d: seq<(string, V)>, k: string, v: V): (r: seq<(string, V)>)
    ensures Keys(r) == if k in Keys(d) then Keys(d) else Keys(d) + [k]
    ensures forall i :: 0 <= i < |r| ==> if r[i].0 == k then r[i].1 == v else i < |d| && r[i] == d[i]
    ensures DistinctKeys(d) ==> DistinctKeys(r)
  {
    if k in Keys(d) then seq(|d|, i requires 0 <= i < |d| => if d[i].0 == k then (k, v) else d[i])
    else
      assert forall i :: 0 <= i < |d| ==> Keys(d)[i] == d[i].0;
      d + [(k, v)]
  }

  /** The entries of `cs` put into `d` one after another. */
  function PutAll<V>(d: seq<(string, V)>, cs: seq<(string, V)>): (r: seq<(string, V)>)
    ensures DistinctKeys(d) ==> DistinctKeys(r)
    ensures |d| <= |r| <= |d| + |cs|
  {
    if cs == [] then d else Put(PutAll(d, cs[..|cs| - 1]), cs[|cs| - 1].0, cs[|cs| - 1].1)
  }

  /** Putting the first `i + 1` entries is putting the first `i`, then entry `i`. */
  lemma PutAllPrefixStep<V>(d: seq<(string, V)>, cs: seq<(string, V)>, i: nat)
    requires i < |cs|
    ensures PutAll(d, cs[..i + 1]) == Put(PutAll(d, cs[..i]), cs[i].0, cs[i].1)
  {
    assert cs[..i + 1][..i] == cs[..i];
  }

  /** Putting entries whose keys are all new appends them in order. */
  lemma {:induction false} PutAllFresh<V>(d: seq<(string, V)>, cs: seq<(string, V)>)
    requires DistinctKeys(d + cs)
    ensures PutAll(d, cs) == d + cs
    decreases |cs|
  {
    if cs != [] {
      var init := cs[..|cs| - 1];
      assert (d + cs)[..|d + init|] == d + init;
      PutAllFresh(d, init);
      var k := cs[|cs| - 1].0;
      assert k !in Keys(d + init) by {
        forall i | 0 <= i < |d + init| ensures Keys(d + init)[i] != k {
          assert Keys(d + init)[i] == (d + cs)[i].0;
          assert (d + cs)[|d + init|].0 == k;
        }
      }
      assert d + init + [cs[|cs| - 1]] == d + cs;
    }
  }

  /** Putting values of length `n` into a dictionary of such values keeps every value `n` long. */
  lemma {:induction false} PutAllOfLength(d: seq<(string, seq<Elem>)>, cs: seq<(string, seq<Elem>)>, n: nat)
    requires AllOfLength(d, n) && AllOfLength(cs, n)
    ensures AllOfLength(PutAll(d, cs), n)
    decreases |cs|
  {
    if cs != [] {
      PutAllOfLength(d, cs[..|cs| - 1], n);
      var p := PutAll(d, cs[..|cs| - 1]);
      var r := Put(p, cs[|cs| - 1].0, cs[|cs| - 1].1);
      forall i | 0 <= i < |r| ensures |r[i].1| == n {
        if r[i].0 != cs[|cs| - 1].0 {
          assert r[i] == p[i];
        }
      }
    }
  }
}
