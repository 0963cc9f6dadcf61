/** The plugin's reader (`_reader.py`): picking the reader by file suffix, turning a
    parsed meshio mesh into a napari Surface layer tuple, and splitting per-vertex
    arrays into the one-dimensional channels of the point-data table. Parsing a file
    is the mesh library's work; its outcome is an input here. */
module Reader {
  import opened Decimal
  import opened PathNames
  import opened MeshData

  /** What napari hands the reader: one path, or a list of paths. */
  datatype PathArg = OnePath(path: string) | PathList(paths: seq<string>)

  function PathsOf(p: PathArg): seq<string> {
    match p
    case OnePath(x) => [x]
    case PathList(ps) => ps
  }

  /** The outcome of `napari_get_reader`: the reader function, `None`, or the `IndexError`
      that `path[0]` raises on an empty list. */
  datatype ReaderChoice = OffersReader | NoReader | EmptyListError

  /** `napari_get_reader`: only the first path of a list is looked at; `reader_function` is
      offered exactly when that path's suffix is one of the accepted extensions. */
  function GetReader(path: PathArg, extensions: set<string>): (r: ReaderChoice)
    ensures r == EmptyListError <==> path == PathList([])
    ensures r == OffersReader <==> PathsOf(path) != [] && Suffix(FinalName(PathsOf(path)[0])) in extensions
  {
    var first :=
      match path
      case OnePath(p) => Some(p)
      case PathList(ps) => if ps == [] then None else Some(ps[0]);
    if first.None? then EmptyListError
    else if Suffix(FinalName(first.value)) !in extensions then NoReader
    else OffersReader
  }

  /** Only the first path of a list decides which reader is offered. */
  lemma OnlyFirstPathDecides(p: string, rest: seq<string>, extensions: set<string>)
    ensures GetReader(PathList([p] + rest), extensions) == GetReader(OnePath(p), extensions)
  {
    assert PathsOf(PathList([p] + rest))[0] == PathsOf(OnePath(p))[0];
  }

  // Parsing and its failures.

  /** What `meshio.read` does with a file: returns a mesh, exits with `SystemExit`, or raises
      some other exception (such as `meshio.ReadError`). */
  datatype ParseResult = Parsed(mesh: Mesh) | SystemExit | LibraryError(reason: string)

  /** The failures `read_surface` lets out. */
  datatype ReadError =
    | RuntimeError(message: string)  // raised in place of the library's SystemExit
    | Raised(reason: string)         // any other library exception, unchanged
    | ShapeIndexError                // `.shape[0]` of a zero-dimensional point-data array

  const UnreadableMessage := "Surface file is not in a readable format."

  // Face selection.

  /** The faces of the surface: the data of the first "triangle" cell block, or none. */
  function FirstTriangles(cells: seq<CellBlock>): (faces: seq<Row>)
    ensures (forall j :: 0 <= j < |cells| ==> cells[j].cellType != TriangleType) ==> faces == []
    ensures faces != [] ==> exists i :: 0 <= i < |cells| && cells[i].cellType == TriangleType && faces == cells[i].data
  {
    if cells == [] then []
    else if cells[0].cellType == TriangleType then cells[0].data
    else FirstTriangles(cells[1..])
  }

  /** The faces are the first triangle block's data, whatever blocks of other types come
      before or after it; without a triangle block there are no faces. */
  lemma {:induction false} FirstTrianglesFound(cells: seq<CellBlock>, i: nat)
    requires i < |cells| && cells[i].cellType == TriangleType
    requires forall j :: 0 <= j < i ==> cells[j].cellType != TriangleType
    ensures FirstTriangles(cells) == cells[i].data
    decreases i
  {
    if i > 0 {
      FirstTrianglesFound(cells[1..], i - 1);
    }
  }

  lemma {:induction false} NoTrianglesNoFaces(cells: seq<CellBlock>)
    requires forall j :: 0 <= j < |cells| ==> cells[j].cellType != TriangleType
    ensures FirstTriangles(cells) == []
    decreases |cells|
  {
    if cells != [] {
      NoTrianglesNoFaces(cells[1..]);
    }
  }

  /** The scan over `mesh.cells` that stops at the first triangle block. */
  method SelectFaces(cells: seq<CellBlock>) returns (faces: seq<Row>)
    ensures faces == FirstTriangles(cells)
  {
    faces := [];
    var i := 0;
    while i < |cells|
      invariant 0 <= i <= |cells|
      invariant FirstTriangles(cells) == FirstTriangles(cells[i..])
    {
      assert cells[i..][1..] == cells[i + 1..];
      if cells[i].cellType == TriangleType {
        faces := cells[i].data;
        break;
      }
      i := i + 1;
    }
  }

  // The channel table.

  /** How `read_surface` treats one point-data array for a mesh of `n` vertices. */
  datatype AttrKind = Flatten | Split(width: nat) | Dropped | ShapeFailure

  /** A zero-dimensional array holds one element, so `.shape[0]` raises only when `n` is not 1;
      an `(n, k)` array is split only when its size is not `n`, that is when `n > 0` and `k != 1`. */
  function Classify(n: nat, a: NdArray): (kind: AttrKind)
    ensures kind == Flatten <==> |a.flat| == n
    ensures kind == ShapeFailure <==> a.shape == [] && n != 1
    ensures kind.Split? <==> |a.shape| == 2 && a.shape[0] == n && n > 0 && a.shape[1] != 1
    ensures kind.Split? ==> kind.width == a.shape[1]
  {
    SizeOfRows(n, a);
    if |a.flat| == n then Flatten  // `.size == n_points`
    else if |a.shape| == 0 then ShapeFailure
    else if a.shape[0] == n && |a.shape| == 2 then Split(a.shape[1])
    else Dropped
  }

  /** An array of `n` rows and `k` columns has `n` elements exactly when `n` is 0 or `k` is 1. */
  lemma SizeOfRows(n: nat, a: NdArray)
    ensures |a.shape| == 2 && a.shape[0] == n ==> (|a.flat| == n <==> n == 0 || a.shape[1] == 1)
  {
    if |a.shape| == 2 && a.shape[0] == n {
      ProductOfTwo(a.shape);
      var w := a.shape[1];
      if n == 0 || w == 1 {
      } else if w == 0 {
        assert n * w == 0;
      } else {
        assert n * w >= n * 2;
      }
    }
  }

  lemma RowMajorBound(r: nat, c: nat, n: nat, k: nat)
    requires r < n && c < k
    ensures r * k + c < n * k
  {
    assert (r + 1) * k <= n * k;
  }

  /** `a[r, c]` of a two-dimensional array. */
  function Element(a: NdArray, r: nat, c: nat): Elem
    requires |a.shape| == 2 && r < a.shape[0] && c < a.shape[1]
  {
    ProductOfTwo(a.shape);
    RowMajorBound(r, c, a.shape[0], a.shape[1]);
    a.flat[r * a.shape[1] + c]
  }

  /** Every row-major index of column `c` lies inside the array. */
  lemma ColumnInside(a: NdArray, c: nat)
    requires |a.shape| == 2 && c < a.shape[1]
    ensures forall r :: 0 <= r < a.shape[0] ==> r * a.shape[1] + c < |a.flat|
  {
    ProductOfTwo(a.shape);
    forall r | 0 <= r < a.shape[0] ensures r * a.shape[1] + c < |a.flat| {
      RowMajorBound(r, c, a.shape[0], a.shape[1]);
    }
  }

  /** `a[:, c]` of a two-dimensional array. */
  function Column(a: NdArray, c: nat): (col: seq<Elem>)
    requires |a.shape| == 2 && c < a.shape[1]
    ensures |col| == a.shape[0]
    ensures forall r :: 0 <= r < |col| ==> r * a.shape[1] + c < |a.flat| && col[r] == a.flat[r * a.shape[1] + c]
  {
    ColumnInside(a, c);
    seq(a.shape[0], r requires 0 <= r < a.shape[0] => Element(a, r, c))
  }

  /** `f"{k}_C{i}"`. */
  function ChannelName(k: string, i: nat): (name: string)
    ensures |name| > |k| + 2 && name[..|k|] == k && name[|k|..|k| + 2] == "_C"
    ensures AllDigits(name[|k| + 2..]) && ParseDecimal(name[|k| + 2..]) == i
  {
    ParseToDecimal(i);
    assert (k + "_C" + ToDecimal(i))[|k| + 2..] == ToDecimal(i);
    k + "_C" + ToDecimal(i)
  }

  /** The channels of columns `0 .. i-1` of a two-dimensional array. */
  function SplitChannels(k: string, a: NdArray, i: nat): (cs: seq<(string, seq<Elem>)>)
    requires |a.shape| == 2 && i <= a.shape[1]
    ensures |cs| == i
    ensures forall c :: 0 <= c < i ==> cs[c] == (ChannelName(k, c), Column(a, c))
  {
    if i == 0 then [] else SplitChannels(k, a, i - 1) + [(ChannelName(k, i - 1), Column(a, i - 1))]
  }

  function Width(kind: AttrKind): nat {
    match kind
    case Flatten => 1
    case Split(w) => w
    case _ => 0
  }

  /** The channels that the array `a`, named `k`, adds to the table. */
  function Channels(n: nat, k: string, a: NdArray): (cs: seq<(string, seq<Elem>)>)
    ensures |cs| == Width(Classify(n, a))
  {
    match Classify(n, a)
    case Flatten => [(k, a.flat)]
    case Split(w) => SplitChannels(k, a, w)
    case _ => []
  }

  /** The `point_data` dictionary that `read_surface` fills, from the mesh's arrays in order. */
  function ChannelTable(n: nat, attrs: seq<(string, NdArray)>): (table: seq<(string, seq<Elem>)>)
    ensures |table| <= ChannelCount(n, attrs)
  {
    if attrs == [] then []
    else
      var last := attrs[|attrs| - 1];
      PutAll(ChannelTable(n, attrs[..|attrs| - 1]), Channels(n, last.0, last.1))
  }

  /** Every channel in the table has one value per vertex, and no name occurs twice. */
  lemma {:induction false} ChannelTableWellFormed(n: nat, attrs: seq<(string, NdArray)>)
    ensures DistinctKeys(ChannelTable(n, attrs))
    ensures AllOfLength(ChannelTable(n, attrs), n)
    decreases |attrs|
  {
    if attrs != [] {
      var last := attrs[|attrs| - 1];
      ChannelTableWellFormed(n, attrs[..|attrs| - 1]);
      PutAllOfLength(ChannelTable(n, attrs[..|attrs| - 1]), Channels(n, last.0, last.1), n);
    }
  }

  lemma ChannelTableSnoc(n: nat, xs: seq<(string, NdArray)>, x: (string, NdArray))
    ensures ChannelTable(n, xs + [x]) == PutAll(ChannelTable(n, xs), Channels(n, x.0, x.1))
  {
    assert (xs + [x])[..|xs|] == xs;
  }

  /** All channels of all arrays, in encounter order and then column order. */
  function AllChannels(n: nat, attrs: seq<(string, NdArray)>): seq<(string, seq<Elem>)> {
    if attrs == [] then []
    else AllChannels(n, attrs[..|attrs| - 1]) + Channels(n, attrs[|attrs| - 1].0, attrs[|attrs| - 1].1)
  }

  /** The number of channels the arrays would give: one per flattened array, one per column
      of a split array, none for the others. */
  function ChannelCount(n: nat, attrs: seq<(string, NdArray)>): nat {
    if attrs == [] then 0
    else ChannelCount(n, attrs[..|attrs| - 1]) + Width(Classify(n, attrs[|attrs| - 1].1))
  }

  /** When no two channels share a name, the table is all channels in encounter order, then
      column order, and holds exactly `ChannelCount` of them. */
  lemma {:induction false} TableWithoutClashes(n: nat, attrs: seq<(string, NdArray)>)
    requires DistinctKeys(AllChannels(n, attrs))
    ensures ChannelTable(n, attrs) == AllChannels(n, attrs)
    ensures |ChannelTable(n, attrs)| == ChannelCount(n, attrs)
    decreases |attrs|
  {
    if attrs != [] {
      var init := attrs[..|attrs| - 1];
      var last := attrs[|attrs| - 1];
      var all := AllChannels(n, attrs);
      assert all[..|AllChannels(n, init)|] == AllChannels(n, init);
      TableWithoutClashes(n, init);
      PutAllFresh(AllChannels(n, init), Channels(n, last.0, last.1));
    }
  }

  /** An array that gives no channel can be taken out without changing the table. */
  lemma {:induction false} DroppedArrayIgnored(n: nat, xs: seq<(string, NdArray)>, a: (string, NdArray), ys: seq<(string, NdArray)>)
    requires Classify(n, a.1) == Dropped
    ensures ChannelTable(n, xs + [a] + ys) == ChannelTable(n, xs + ys)
    decreases |ys|
  {
    if ys == [] {
      assert xs + [a] + ys == xs + [a];
      assert xs + ys == xs;
      ChannelTableSnoc(n, xs, a);
    } else {
      var init := ys[..|ys| - 1];
      var last := ys[|ys| - 1];
      assert xs + [a] + ys == (xs + [a] + init) + [last];
      assert xs + ys == (xs + init) + [last];
      ChannelTableSnoc(n, xs + [a] + init, last);
      ChannelTableSnoc(n, xs + init, last);
      DroppedArrayIgnored(n, xs, a, init);
    }
  }

  /** On a mesh with vertices, a two-dimensional array with `n` rows and `k` columns, `k` not 1, gives `k` channels,
      channel `i` being column `i` under the name `k_C{i}`. */
  lemma SplitArrayChannels(n: nat, k: string, a: NdArray)
    requires |a.shape| == 2 && a.shape[0] == n && n > 0 && a.shape[1] != 1
    ensures Channels(n, k, a) == SplitChannels(k, a, a.shape[1])
  {
    ProductOfTwo(a.shape);
    var w := a.shape[1];
    if w >= 2 && n != 0 {
      assert n * w >= n * 2;
    }
  }

  /** An array whose element count is `n`, such as one of shape (n, 1), keeps its own name. */
  lemma FlattenKeepsName(n: nat, k: string, a: NdArray)
    requires |a.flat| == n
    ensures Channels(n, k, a) == [(k, a.flat)]
  {
  }

  /** The split channel names of one array are all different. */
  lemma ChannelNamesDistinct(k: string, i: nat, j: nat)
    requires ChannelName(k, i) == ChannelName(k, j)
    ensures i == j
  {
    var p := k + "_C";
    assert ChannelName(k, i)[|p|..] == ToDecimal(i);
    assert ChannelName(k, j)[|p|..] == ToDecimal(j);
    ToDecimalInjective(i, j);
  }

  /** Does some array make `.shape[0]` raise before the table is complete? */
  function HasShapeFailure(n: nat, attrs: seq<(string, NdArray)>): bool {
    attrs != [] && (HasShapeFailure(n, attrs[..|attrs| - 1]) || Classify(n, attrs[|attrs| - 1].1) == ShapeFailure)
  }

  /** The read fails exactly when one of the arrays is zero-dimensional with a size other than `n`. */
  lemma {:induction false} ShapeFailureMeaning(n: nat, attrs: seq<(string, NdArray)>)
    ensures HasShapeFailure(n, attrs) <==> exists i :: 0 <= i < |attrs| && Classify(n, attrs[i].1) == ShapeFailure
    decreases |attrs|
  {
    if attrs != [] {
      var init := attrs[..|attrs| - 1];
      ShapeFailureMeaning(n, init);
      if HasShapeFailure(n, init) {
        var i :| 0 <= i < |init| && Classify(n, init[i].1) == ShapeFailure;
        assert attrs[i] == init[i];
      }
      if exists i :: 0 <= i < |attrs| && Classify(n, attrs[i].1) == ShapeFailure {
        var i :| 0 <= i < |attrs| && Classify(n, attrs[i].1) == ShapeFailure;
        if i < |init| {
          assert init[i] == attrs[i];
        }
      }
    }
  }

  lemma ShapeFailureStep(n: nat, attrs: seq<(string, NdArray)>, j: nat)
    requires j < |attrs|
    ensures HasShapeFailure(n, attrs[..j + 1]) == (HasShapeFailure(n, attrs[..j]) || Classify(n, attrs[j].1) == ShapeFailure)
  {
    assert attrs[..j + 1][..j] == attrs[..j];
  }

  /** Once an array fails, the whole read fails, whatever follows. */
  lemma {:induction false} ShapeFailureExtends(n: nat, attrs: seq<(string, NdArray)>, j: nat)
    requires j <= |attrs| && HasShapeFailure(n, attrs[..j])
    ensures HasShapeFailure(n, attrs)
    decreases |attrs| - j
  {
    if j < |attrs| {
      ShapeFailureStep(n, attrs, j);
      ShapeFailureExtends(n, attrs, j + 1);
    } else {
      assert attrs[..j] == attrs;
    }
  }

  lemma TableStep(n: nat, attrs: seq<(string, NdArray)>, j: nat)
    requires j < |attrs|
    ensures ChannelTable(n, attrs[..j + 1]) == PutAll(ChannelTable(n, attrs[..j]), Channels(n, attrs[j].0, attrs[j].1))
  {
    assert attrs[..j + 1] == attrs[..j] + [attrs[j]];
    ChannelTableSnoc(n, attrs[..j], attrs[j]);
  }

  lemma FlattenStep(n: nat, k: string, a: NdArray, t: seq<(string, seq<Elem>)>)
    requires |a.flat| == n
    ensures PutAll(t, Channels(n, k, a)) == Put(t, k, a.flat)
  {
    assert [(k, a.flat)][..0] == [];
  }

  lemma DropStep(n: nat, k: string, a: NdArray, t: seq<(string, seq<Elem>)>)
    requires |a.flat| != n && |a.shape| != 0 && !(a.shape[0] == n && |a.shape| == 2)
    ensures PutAll(t, Channels(n, k, a)) == t
  {
  }

  /** The inner loop of `read_surface`: column `i` of `a` put into `pointData` as `k_C{i}`. */
  method PutColumns(pointData: seq<(string, seq<Elem>)>, k: string, a: NdArray) returns (d: seq<(string, seq<Elem>)>)
    requires |a.shape| == 2
    ensures d == PutAll(pointData, SplitChannels(k, a, a.shape[1]))
  {
    d := pointData;
    var i := 0;
    while i < a.shape[1]
      invariant 0 <= i <= a.shape[1]
      invariant d == PutAll(pointData, SplitChannels(k, a, i))
    {
      assert SplitChannels(k, a, i + 1)[..i] == SplitChannels(k, a, i);
      d := Put(d, ChannelName(k, i), Column(a, i));
      i := i + 1;
    }
  }

  /** One pass of the loop that fills `point_data`: the array `a`, named `k`, flattened, split
      into columns or skipped; `None` when its `.shape[0]` raises. */
  method PutAttribute(pointData: seq<(string, seq<Elem>)>, n: nat, k: string, a: NdArray)
    returns (d: Option<seq<(string, seq<Elem>)>>)
    ensures d.None? <==> Classify(n, a) == ShapeFailure
    ensures d.Some? ==> d.value == PutAll(pointData, Channels(n, k, a))
  {
    if |a.flat| == n {
      FlattenStep(n, k, a, pointData);
      d := Some(Put(pointData, k, a.flat));
    } else if |a.shape| == 0 {
      d := None;
    } else if a.shape[0] == n && |a.shape| == 2 {
      var columns := PutColumns(pointData, k, a);
      d := Some(columns);
    } else {
      DropStep(n, k, a, pointData);
      d := Some(pointData);
    }
  }

  /** Pass `j` of the loop that fills `point_data`, on the table of the arrays before `j`. */
  method TablePass(n: nat, attrs: seq<(string, NdArray)>, j: nat, pointData: seq<(string, seq<Elem>)>)
    returns (next: Option<seq<(string, seq<Elem>)>>)
    requires j < |attrs| && pointData == ChannelTable(n, attrs[..j])
    ensures next.None? <==> Classify(n, attrs[j].1) == ShapeFailure
    ensures next.Some? ==> next.value == ChannelTable(n, attrs[..j + 1])
  {
    TableStep(n, attrs, j);
    next := PutAttribute(pointData, n, attrs[j].0, attrs[j].1);
  }

  /** The loop that fills `point_data`: `None` when an array's `.shape[0]` raises. */
  method BuildChannelTable(n: nat, attrs: seq<(string, NdArray)>) returns (r: Option<seq<(string, seq<Elem>)>>)
    ensures r.None? <==> HasShapeFailure(n, attrs)
    ensures r.Some? ==> r.value == ChannelTable(n, attrs)
  {
    var pointData: seq<(string, seq<Elem>)> := [];
    var j := 0;
    while j < |attrs|
      invariant 0 <= j <= |attrs|
      invariant !HasShapeFailure(n, attrs[..j])
      invariant pointData == ChannelTable(n, attrs[..j])
    {
      ShapeFailureStep(n, attrs, j);
      var next := TablePass(n, attrs, j, pointData);
      if next.None? {
        ShapeFailureExtends(n, attrs, j + 1);
        return None;
      }
      pointData := next.value;
      j := j + 1;
    }
    assert attrs[..j] == attrs;
    r := Some(pointData);
  }

  // Reading one surface.

  /** The DataFrame built from the table: as many rows as vertices, or none when empty. */
  function TableFrame(n: nat, table: seq<(string, seq<Elem>)>): (f: Frame)
    ensures f.columns == table
    ensures DistinctKeys(table) && AllOfLength(table, n) ==> ValidFrame(f)
  {
    Frame(if table == [] then 0 else n, table)
  }

  /** What `read_surface` returns for a parse outcome. */
  function ReadSurfaceSpec(parsed: ParseResult): (r: Result<Layer, ReadError>)
    ensures parsed.SystemExit? ==> r == Err(RuntimeError(UnreadableMessage))
    ensures parsed.LibraryError? ==> r == Err(Raised(parsed.reason))
    ensures parsed.Parsed? ==> (r.Err? <==> HasShapeFailure(|parsed.mesh.points|, parsed.mesh.pointData))
    ensures r.Ok? ==> r.value.layerType == SurfaceTag && r.value.data.vertices == parsed.mesh.points
  {
    match parsed
    case SystemExit => Err(RuntimeError(UnreadableMessage))
    case LibraryError(reason) => Err(Raised(reason))
    case Parsed(mesh) =>
      var n := |mesh.points|;
      if HasShapeFailure(n, mesh.pointData) then Err(ShapeIndexError)
      else
        var meta := if |mesh.pointData| == 0 then NoMeta
                    else WithFrame(TableFrame(n, ChannelTable(n, mesh.pointData)));
        Ok(Layer(Surface(mesh.points, FirstTriangles(mesh.cells)), meta, SurfaceTag))
  }

  /** `read_surface`. */
  method ReadSurface(parsed: ParseResult) returns (r: Result<Layer, ReadError>)
    ensures r == ReadSurfaceSpec(parsed)
  {
    if parsed.SystemExit? {
      return Err(RuntimeError(UnreadableMessage));
    } else if parsed.LibraryError? {
      return Err(Raised(parsed.reason));
    }
    var mesh := parsed.mesh;
    var points := mesh.points;
    var cells := SelectFaces(mesh.cells);
    var data := Surface(points, cells);
    var metaKwargs := NoMeta;
    var nPoints := |points|;
    if |mesh.pointData| > 0 {
      var pointData := BuildChannelTable(nPoints, mesh.pointData);
      if pointData.None? {
        return Err(ShapeIndexError);
      }
      metaKwargs := WithFrame(TableFrame(nPoints, pointData.value));
    } else {
      assert !HasShapeFailure(nPoints, mesh.pointData);
    }
    r := Ok(Layer(data, metaKwargs, SurfaceTag));
  }

  /** A read layer is a surface over the file's vertices and first triangle block, and its
      meta is empty exactly when the file has no point data; otherwise it carries a frame whose
      columns are the table's channels, each as long as the frame has rows. */
  lemma ReadLayerShape(mesh: Mesh)
    requires !HasShapeFailure(|mesh.points|, mesh.pointData)
    ensures var r := ReadSurfaceSpec(Parsed(mesh));
      && r.Ok?
      && r.value.layerType == SurfaceTag
      && r.value.data == Surface(mesh.points, FirstTriangles(mesh.cells))
      && (r.value.meta == NoMeta <==> |mesh.pointData| == 0)
      && (|mesh.pointData| > 0 ==>
            && FrameOf(r.value.meta) == Some(TableFrame(|mesh.points|, ChannelTable(|mesh.points|, mesh.pointData)))
            && ValidFrame(TableFrame(|mesh.points|, ChannelTable(|mesh.points|, mesh.pointData))))
  {
    ChannelTableWellFormed(|mesh.points|, mesh.pointData);
  }

  /** `reader_function`: one layer per path, in order; the first failure ends the read. */
  function ReadAll(paths: seq<string>, parse: string -> ParseResult): (r: Result<seq<Layer>, ReadError>)
    ensures r.Ok? ==> (|r.value| == |paths| &&
              forall i :: 0 <= i < |paths| ==> ReadSurfaceSpec(parse(paths[i])) == Ok(r.value[i]))
    ensures r.Err? ==> exists i :: (0 <= i < |paths| && ReadSurfaceSpec(parse(paths[i])) == Err(r.error) &&
              forall j :: 0 <= j < i ==> ReadSurfaceSpec(parse(paths[j])).Ok?)
  {
    if paths == [] then Ok([])
    else
      match ReadSurfaceSpec(parse(paths[0]))
      case Err(e) => Err(e)
      case Ok(layer) =>
        match ReadAll(paths[1..], parse)
        case Err(e) =>
          ghost var i :| 0 <= i < |paths[1..]| && ReadSurfaceSpec(parse(paths[1..][i])) == Err(e)
            && forall j :: 0 <= j < i ==> ReadSurfaceSpec(parse(paths[1..][j])).Ok?;
          assert ReadSurfaceSpec(parse(paths[i + 1])) == Err(e);
          Err(e)
        case Ok(layers) => Ok([layer] + layers)
  }

  /** `reader_function(path)`: a single path is read as a list of one. */
  function ReaderFunction(path: PathArg, parse: string -> ParseResult): (r: Result<seq<Layer>, ReadError>)
    ensures r.Ok? ==> |r.value| == |PathsOf(path)|
    ensures r.Ok? ==> forall i :: 0 <= i < |r.value| ==> r.value[i].layerType == SurfaceTag
  {
    ReadAll(PathsOf(path), parse)
  }

  /** Reading one path is reading the list that holds only that path. */
  lemma SinglePathIsOneElementList(p: string, parse: string -> ParseResult)
    ensures ReaderFunction(OnePath(p), parse) == ReaderFunction(PathList([p]), parse)
    ensures ReaderFunction(OnePath(p), parse).Ok? ==> |ReaderFunction(OnePath(p), parse).value| == 1
  {
  }
}
