/** The plugin's writer (`_writer.py`): building the meshio mesh for one Surface layer,
    and planning the file name of every surface layer when several are saved into one
    directory. The mesh library's file output and the file system are not modelled; the
    meshes that would be written are returned instead. Names are relative to the
    output directory. */
module Writer {
  import opened Decimal
  import opened PathNames
  import opened MeshData

  // One surface.

  /** The point-data columns turned into one-dimensional arrays, in column order. */
  function ColumnArrays(columns: seq<(string, seq<Elem>)>): (attrs: seq<(string, NdArray)>)
    ensures |attrs| == |columns|
    ensures forall i :: 0 <= i < |columns| ==> attrs[i] == (columns[i].0, Vector(columns[i].1))
  {
    seq(|columns|, i requires 0 <= i < |columns| => (columns[i].0, Vector(columns[i].1)))
  }

  /** The point data attached to the written mesh for a layer with `n` vertices. */
  function CopiedPointData(meta: Meta, n: nat): (pd: seq<(string, NdArray)>)
    ensures FrameOf(meta).None? || FrameOf(meta).value.rows != n ==> pd == []
    ensures DistinctKeys(pd)
    ensures |pd| <= if FrameOf(meta).Some? then |FrameOf(meta).value.columns| else 0
  {
    var f := FrameOf(meta);
    if f.Some? && f.value.rows == n then PutAll([], ColumnArrays(f.value.columns)) else []
  }

  /** The mesh `write_single_surface` writes: the vertices, one triangle block, and the point data. */
  function SurfaceMesh(layer: Layer): (mesh: Mesh)
    ensures mesh.points == layer.data.vertices
    ensures mesh.cells == [CellBlock(TriangleType, layer.data.faces)]
    ensures DistinctKeys(mesh.pointData)
  {
    Mesh(layer.data.vertices, [CellBlock(TriangleType, layer.data.faces)],
         CopiedPointData(layer.meta, |layer.data.vertices|))
  }

  /** Point data is attached only from a DataFrame with one row per vertex; then every column
      becomes one one-dimensional array under its own label, in column order, so that split
      `_C{i}` columns stay split. */
  lemma CopyRule(meta: Meta, n: nat)
    ensures FrameOf(meta).None? || FrameOf(meta).value.rows != n ==> CopiedPointData(meta, n) == []
    ensures FrameOf(meta).Some? && FrameOf(meta).value.rows == n && DistinctKeys(FrameOf(meta).value.columns) ==>
      var cols := FrameOf(meta).value.columns;
      var pd := CopiedPointData(meta, n);
      && |pd| == |cols|
      && forall i :: 0 <= i < |cols| ==> pd[i].0 == cols[i].0 && pd[i].1.shape == [|cols[i].1|] && pd[i].1.flat == cols[i].1
  {
    var f := FrameOf(meta);
    if f.Some? && f.value.rows == n && DistinctKeys(f.value.columns) {
      var attrs := ColumnArrays(f.value.columns);
      assert DistinctKeys(attrs) by {
        forall i, j | 0 <= i < j < |attrs| ensures attrs[i].0 != attrs[j].0 {
          assert attrs[i].0 == f.value.columns[i].0 && attrs[j].0 == f.value.columns[j].0;
        }
      }
      assert [] + attrs == attrs;
      PutAllFresh([], attrs);
    }
  }

  /** `write_single_surface`: builds the mesh, copies the point data column by column, and
      returns the one path it was given. */
  method WriteSingleSurface(path: string, layer: Layer) returns (written: seq<string>, mesh: Mesh)
    ensures written == [path]
    ensures mesh.points == layer.data.vertices
    ensures mesh.cells == [CellBlock(TriangleType, layer.data.faces)]
    ensures mesh == SurfaceMesh(layer)
  {
    var data := layer.data;
    mesh := Mesh(data.vertices, [CellBlock(TriangleType, data.faces)], []);
    var pointData := FrameOf(layer.meta);
    if pointData.Some? && pointData.value.rows == |data.vertices| {
      var columns := pointData.value.columns;
      ghost var attrs := ColumnArrays(columns);
      var i := 0;
      while i < |columns|
        invariant 0 <= i <= |columns|
        invariant mesh.points == data.vertices && mesh.cells == [CellBlock(TriangleType, data.faces)]
        invariant mesh.pointData == PutAll([], attrs[..i])
      {
        PutAllPrefixStep([], attrs, i);
        mesh := mesh.(pointData := Put(mesh.pointData, columns[i].0, Vector(columns[i].1)));
        i := i + 1;
      }
      assert attrs[..i] == attrs;
    }
    written := [path];
  }

  // Output names for several surfaces.

  const DefaultName := "mesh0.vtu"
  const DefaultExtension := ".vtu"

  /** The name a surface layer asks for: its "name", or "mesh0.vtu"; a name without a suffix
      becomes its stem followed by ".vtu". */
  function OutputName(meta: Meta): (r: string)
    ensures meta.name.None? ==> r == DefaultName
    ensures meta.name.Some? && Suffix(FinalName(meta.name.value)) != "" ==> r == meta.name.value
    ensures meta.name.Some? && Suffix(FinalName(meta.name.value)) == "" ==> r == FinalName(meta.name.value) + DefaultExtension
    ensures Suffix(FinalName(r)) != "" || r == DefaultExtension
  {
    if meta.name.None? then
      DefaultNameParts();
      DefaultName
    else
      var name := meta.name.value;
      if Suffix(FinalName(name)) != "" then name
      else
        WithDefaultExtension(name);
        Stem(FinalName(name)) + DefaultExtension
  }

  /** "mesh0.vtu" is a final name with the stem "mesh0" and the suffix ".vtu". */
  lemma DefaultNameParts()
    ensures FinalName(DefaultName) == DefaultName
    ensures Stem(DefaultName) == "mesh0" && Suffix(DefaultName) == DefaultExtension
  {
    DefaultNameFinal();
    DefaultNameSplit();
  }

  lemma DefaultNameFinal()
    ensures FinalName(DefaultName) == DefaultName
  {
    FinalNameOfName(DefaultName);
  }

  lemma DefaultNameSplit()
    ensures Stem(DefaultName) == "mesh0" && Suffix(DefaultName) == DefaultExtension
  {
    AppendExtension("mesh0", DefaultExtension);
    assert "mesh0" + DefaultExtension == DefaultName;
  }

  /** A final name without a suffix is its own stem, and with ".vtu" put on it it has a suffix,
      unless it was empty. */
  lemma WithDefaultExtension(name: string)
    requires Suffix(FinalName(name)) == ""
    ensures Stem(FinalName(name)) == FinalName(name)
    ensures var r := FinalName(name) + DefaultExtension;
            FinalName(r) == r && (Suffix(r) != "" || r == DefaultExtension)
  {
    var stem := FinalName(name);
    assert Stem(stem) + "" == stem;
    var r := stem + DefaultExtension;
    assert '/' !in r by {
      forall j | 0 <= j < |r| ensures r[j] != '/' {
        if j < |stem| {
          assert r[j] == stem[j];
        } else {
          assert r[j] == DefaultExtension[j - |stem|];
        }
      }
    }
    FinalNameOfName(r);
    if stem != "" {
      AppendExtension(stem, DefaultExtension);
    }
  }

  /** Can `.*[\D](\d+)`, matched at the start of `s`, put its `[\D]` at index `p`?
      (`.` does not match a line break; `[\D]` does.) */
  predicate MatchAt(s: string, p: nat) {
    p + 1 < |s| && !IsDigit(s[p]) && IsDigit(s[p + 1]) && '\n' !in s[..p]
  }

  /** The greedy `.*` backs off from the longest prefix: the largest matching `p <= hi`. */
  function LastMatchUpTo(s: string, hi: int): (r: Option<nat>)
    ensures r.Some? ==> r.value <= hi && MatchAt(s, r.value)
    ensures forall q: nat :: q <= hi && (r.None? || r.value < q) ==> !MatchAt(s, q)
    decreases hi + 1
  {
    if hi < 0 then None
    else if MatchAt(s, hi) then Some(hi)
    else LastMatchUpTo(s, hi - 1)
  }

  /** The end of the greedy `\d+` that starts at `i`. */
  function DigitRunEnd(s: string, i: nat): (e: nat)
    requires i <= |s|
    ensures i <= e <= |s| && AllDigits(s[i..e])
    ensures e == |s| || !IsDigit(s[e])
    decreases |s| - i
  {
    if i < |s| && IsDigit(s[i]) then
      var e := DigitRunEnd(s, i + 1);
      assert s[i..e] == [s[i]] + s[i + 1..e];
      e
    else i
  }

  /** `re.match(r".*[\D](\d+)", s).group(1)`: the digit run after the last non-digit that
      starts one (the run need not end the string), or None when there is no match. */
  function NumberGroup(s: string): (g: Option<string>)
    ensures g.Some? ==> 0 < |g.value| < |s| && AllDigits(g.value)
  {
    match LastMatchUpTo(s, |s| - 2)
    case None => None
    case Some(p) => Some(s[p + 1..DigitRunEnd(s, p + 1)])
  }

  /** There is a group exactly when some position can hold `[\D]`; the group is the whole
      digit run after the last such position. */
  lemma NumberGroupMeaning(s: string)
    ensures NumberGroup(s).None? <==> forall p: nat :: !MatchAt(s, p)
    ensures NumberGroup(s).Some? ==>
              exists p: nat :: MatchAt(s, p) && NumberGroup(s).value == s[p + 1..DigitRunEnd(s, p + 1)]
                               && forall q: nat :: p < q ==> !MatchAt(s, q)
  {
    var m := LastMatchUpTo(s, |s| - 2);
    if m.Some? {
      var p := m.value;
      assert MatchAt(s, p) && NumberGroup(s).value == s[p + 1..DigitRunEnd(s, p + 1)];
    }
  }

  /** The name tried with number `k`. */
  function Candidate(base: string, k: nat, suf: string): string {
    base + ToDecimal(k) + suf
  }

  /** A candidate is the base, then the counter's digits, then the suffix. */
  lemma CandidateShape(base: string, k: nat, suf: string)
    ensures var c := Candidate(base, k, suf);
            && |c| > |base| + |suf| && c[..|base|] == base && c[|c| - |suf|..] == suf
            && AllDigits(c[|base|..|c| - |suf|]) && ParseDecimal(c[|base|..|c| - |suf|]) == k
  {
    ParseToDecimal(k);
    var c := Candidate(base, k, suf);
    assert c[..|base|] == base && c[|base|..|c| - |suf|] == ToDecimal(k);
  }

  lemma CandidateInjective(base: string, suf: string, j: nat, k: nat)
    requires Candidate(base, j, suf) == Candidate(base, k, suf)
    ensures j == k
  {
    var cj, ck := Candidate(base, j, suf), Candidate(base, k, suf);
    assert |ToDecimal(j)| == |ToDecimal(k)|;
    assert cj[|base|..|base| + |ToDecimal(j)|] == ToDecimal(j);
    assert ck[|base|..|base| + |ToDecimal(k)|] == ToDecimal(k);
    ToDecimalInjective(j, k);
  }

  /** The claimed names that a number from `n` on could still produce. */
  ghost function Pending(base: string, suf: string, claimed: seq<string>, n: nat): set<string> {
    set f | f in claimed && exists k: nat :: k >= n && f == Candidate(base, k, suf)
  }

  lemma PendingShrinks(base: string, suf: string, claimed: seq<string>, n: nat)
    requires Candidate(base, n, suf) in claimed
    ensures Pending(base, suf, claimed, n + 1) < Pending(base, suf, claimed, n)
  {
    var c := Candidate(base, n, suf);
    assert c in Pending(base, suf, claimed, n);
    if c in Pending(base, suf, claimed, n + 1) {
      var k: nat :| k >= n + 1 && c == Candidate(base, k, suf);
      CandidateInjective(base, suf, n, k);
    }
  }

  /** The number the probing loop stops at: the first `k >= n` whose name is unclaimed. */
  function FirstFree(base: string, suf: string, claimed: seq<string>, n: nat): (k: nat)
    ensures n <= k && Candidate(base, k, suf) !in claimed
    ensures forall j :: n <= j < k ==> Candidate(base, j, suf) in claimed
    decreases Pending(base, suf, claimed, n)
  {
    if Candidate(base, n, suf) !in claimed then n
    else
      PendingShrinks(base, suf, claimed, n);
      FirstFree(base, suf, claimed, n + 1)
  }

  /** The numbered rule: the first free name counting up from the number `digits` plus one,
      keeping the text before the number and the suffix. */
  function NextNumbered(base: string, digits: string, suf: string, claimed: seq<string>): (out: string)
    requires AllDigits(digits)
    ensures out !in claimed
    ensures exists k: nat :: k > ParseDecimal(digits) && out == Candidate(base, k, suf)
              && forall j :: ParseDecimal(digits) < j < k ==> Candidate(base, j, suf) in claimed
  {
    var k := FirstFree(base, suf, claimed, ParseDecimal(digits) + 1);
    var out := Candidate(base, k, suf);
    assert k > ParseDecimal(digits) && out == Candidate(base, k, suf);
    out
  }

  /** What a name already assigned becomes, from its final component `name`: without a number
      in the stem, the name with "0" and the suffix appended, whether or not that is free;
      with one, the numbered rule, which always gives a free name. */
  function Renamed(name: string, claimed: seq<string>): (out: string)
    ensures NumberGroup(Stem(name)).None? ==> out == name + "0" + Suffix(name)
    ensures NumberGroup(Stem(name)).Some? ==> out !in claimed
  {
    var stem := Stem(name);
    match NumberGroup(stem)
    case None => name + "0" + Suffix(name)
    case Some(digits) => NextNumbered(stem[..|stem| - |digits|], digits, Suffix(name), claimed)
  }

  /** The name `write_multiple` assigns to a layer that asks for `r` when `claimed` are taken:
      `r` itself when it is free, and a free name too whenever the stem carries a number. */
  function ResolveName(r: string, claimed: seq<string>): (out: string)
    ensures r !in claimed ==> out == r
    ensures r !in claimed || NumberGroup(Stem(FinalName(r))).Some? ==> out !in claimed
    ensures r in claimed && NumberGroup(Stem(FinalName(r))).None? ==>
              out == FinalName(r) + "0" + Suffix(FinalName(r))
  {
    if r !in claimed then r else Renamed(FinalName(r), claimed)
  }

  /** The extension alone carries no number. */
  lemma NoNumberInExtension()
    ensures Stem(DefaultExtension) == DefaultExtension
    ensures NumberGroup(DefaultExtension).None?
  {
    NumberGroupMeaning(DefaultExtension);
    forall p: nat ensures !MatchAt(DefaultExtension, p) {
      if p + 1 < |DefaultExtension| {
        assert !IsDigit(DefaultExtension[p + 1]);
      }
    }
  }

  /** Neither a prefix of a name's stem nor its suffix holds a separator the name lacks. */
  lemma SeparatorFreeParts(name: string, i: nat)
    requires '/' !in name && i <= |Stem(name)|
    ensures '/' !in Stem(name)[..i] && '/' !in Suffix(name)
  {
    var stem, suf := Stem(name), Suffix(name);
    assert stem + suf == name;
    forall j | 0 <= j < i ensures stem[..i][j] != '/' {
      assert stem[..i][j] == name[j];
    }
    forall j | 0 <= j < |suf| ensures suf[j] != '/' {
      assert suf[j] == name[|stem| + j];
    }
  }

  /** A numbered candidate keeps the name's suffix, and names a file in the output directory. */
  lemma CandidateParts(base: string, k: nat, suf: string)
    requires '/' !in base && '/' !in suf && IsExtension(suf)
    ensures FinalName(Candidate(base, k, suf)) == Candidate(base, k, suf)
    ensures Suffix(Candidate(base, k, suf)) == suf
  {
    var c := Candidate(base, k, suf);
    assert '/' !in c by {
      forall i | 0 <= i < |c| ensures c[i] != '/' {
        if i < |base| {
          assert c[i] == base[i];
        } else if i < |base| + |ToDecimal(k)| {
          assert c[i] == ToDecimal(k)[i - |base|];
        } else {
          assert c[i] == suf[i - |base| - |ToDecimal(k)|];
        }
      }
    }
    FinalNameOfName(c);
    assert c == (base + ToDecimal(k)) + suf;
    AppendExtension(base + ToDecimal(k), suf);
  }

  /** The probing loop of `write_multiple`: counts up from `start` until the name is free. */
  method ProbeFreeName(nameBase: string, suf: string, outputFiles: seq<string>, start: nat) returns (meshFile: string)
    requires IsExtension(suf) && '/' !in nameBase && '/' !in suf
    ensures meshFile !in outputFiles
    ensures meshFile == Candidate(nameBase, FirstFree(nameBase, suf, outputFiles, start), suf)
  {
    var nextNumber := start;
    meshFile := nameBase + ToDecimal(nextNumber) + suf;
    while meshFile in outputFiles
      invariant start <= nextNumber
      invariant meshFile == Candidate(nameBase, nextNumber, suf)
      invariant FirstFree(nameBase, suf, outputFiles, nextNumber) == FirstFree(nameBase, suf, outputFiles, start)
      decreases Pending(nameBase, suf, outputFiles, nextNumber)
    {
      PendingShrinks(nameBase, suf, outputFiles, nextNumber);
      CandidateParts(nameBase, nextNumber, suf);
      nextNumber := nextNumber + 1;
      meshFile := nameBase + ToDecimal(nextNumber) + Suffix(FinalName(meshFile));
    }
  }

  /** The renaming of `write_multiple` for a name already assigned, from its final component. */
  method RenameTaken(name: string, outputFiles: seq<string>) returns (meshFile: string)
    requires '/' !in name
    requires Suffix(name) != "" || name == DefaultExtension
    ensures meshFile == Renamed(name, outputFiles)
  {
    var stem := Stem(name);
    var numberMatch := NumberGroup(stem);
    if numberMatch.None? {
      meshFile := name + "0" + Suffix(name);
    } else {
      if name == DefaultExtension {
        NoNumberInExtension();
      }
      var currentStr := numberMatch.value;
      var nameBase := stem[..|stem| - |currentStr|];
      var nextNumber := ParseDecimal(currentStr) + 1;
      SeparatorFreeParts(name, |stem| - |currentStr|);
      meshFile := ProbeFreeName(nameBase, Suffix(name), outputFiles, nextNumber);
    }
  }

  /** The first naming step of `write_multiple` for a surface layer: its "name" or the
      default, with ".vtu" put on a final name that has no suffix. */
  method RequestedName(meta: Meta) returns (meshFile: string)
    ensures meshFile == OutputName(meta)
  {
    var name := if meta.name.Some? then meta.name.value else DefaultName;
    meshFile := name;
    if Suffix(FinalName(meshFile)) == "" {
      meshFile := Stem(FinalName(meshFile)) + DefaultExtension;
    }
  }

  /** The second naming step of `write_multiple`: a name already assigned is renamed. */
  method AvoidClash(meshFile: string, outputFiles: seq<string>) returns (resolved: string)
    requires Suffix(FinalName(meshFile)) != "" || meshFile == DefaultExtension
    ensures resolved == ResolveName(meshFile, outputFiles)
  {
    resolved := meshFile;
    if resolved in outputFiles {
      if resolved == DefaultExtension {
        FinalNameOfName(DefaultExtension);
      }
      resolved := RenameTaken(FinalName(resolved), outputFiles);
    }
  }

  /** The positions of the surface layers in a batch, in increasing order: a reference for
      which layers get a file. */
  ghost function SurfacePositions(layers: seq<Layer>): (ps: seq<nat>)
    ensures forall j :: 0 <= j < |ps| ==> ps[j] < |layers| && layers[ps[j]].layerType == SurfaceTag
    ensures forall j, k :: 0 <= j < k < |ps| ==> ps[j] < ps[k]
    ensures forall i :: 0 <= i < |layers| && layers[i].layerType == SurfaceTag ==> i in ps
  {
    if layers == [] then []
    else
      var init := layers[..|layers| - 1];
      var ps := SurfacePositions(init);
      assert forall i :: 0 <= i < |init| ==> layers[i] == init[i];
      if layers[|layers| - 1].layerType == SurfaceTag then ps + [|layers| - 1] else ps
  }

  /** The surface layers, in order; other layer types get no file. */
  function Surfaces(layers: seq<Layer>): (s: seq<Layer>)
    ensures |s| == |SurfacePositions(layers)|
    ensures forall j :: 0 <= j < |s| ==> s[j] == layers[SurfacePositions(layers)[j]]
    ensures forall i :: 0 <= i < |s| ==> s[i].layerType == SurfaceTag
  {
    if layers == [] then []
    else
      var init := layers[..|layers| - 1];
      var last := layers[|layers| - 1];
      assert forall j :: 0 <= j < |SurfacePositions(init)| ==> layers[SurfacePositions(init)[j]] == init[SurfacePositions(init)[j]];
      if last.layerType == SurfaceTag then Surfaces(init) + [last] else Surfaces(init)
  }

  /** The names `write_multiple` assigns, one per surface layer in order, each resolved
      against the names assigned before it. */
  function PlanNames(layers: seq<Layer>): (names: seq<string>)
    ensures |names| == |Surfaces(layers)|
  {
    if layers == [] then []
    else
      var init := PlanNames(layers[..|layers| - 1]);
      var last := layers[|layers| - 1];
      if last.layerType == SurfaceTag then init + [ResolveName(OutputName(last.meta), init)] else init
  }

  /** One step of the plan: a surface layer appends the name it resolves to; any other
      layer leaves the plan and the surface list as they are. */
  lemma PlanStep(layers: seq<Layer>, i: nat)
    requires i < |layers|
    ensures layers[i].layerType == SurfaceTag ==>
              && PlanNames(layers[..i + 1]) == PlanNames(layers[..i]) + [ResolveName(OutputName(layers[i].meta), PlanNames(layers[..i]))]
              && Surfaces(layers[..i + 1]) == Surfaces(layers[..i]) + [layers[i]]
    ensures layers[i].layerType != SurfaceTag ==>
              PlanNames(layers[..i + 1]) == PlanNames(layers[..i]) && Surfaces(layers[..i + 1]) == Surfaces(layers[..i])
  {
    assert layers[..i + 1][..i] == layers[..i];
  }

  /** Each planned name paired with its surface layer. */
  function Zip(names: seq<string>, surfaces: seq<Layer>): (z: seq<(string, Layer)>)
    requires |names| == |surfaces|
    ensures |z| == |names|
    ensures forall i :: 0 <= i < |z| ==> z[i] == (names[i], surfaces[i])
  {
    seq(|names|, i requires 0 <= i < |names| => (names[i], surfaces[i]))
  }

  lemma ZipSnoc(names: seq<string>, surfaces: seq<Layer>, name: string, surface: Layer)
    requires |names| == |surfaces|
    ensures Zip(names + [name], surfaces + [surface]) == Zip(names, surfaces) + [(name, surface)]
  {
  }

  /** The writing loop of `write_multiple`: each planned file written in order, its path collected. */
  method WriteAll(outputArgs: seq<(string, Layer)>) returns (outputPaths: seq<string>, written: seq<(string, Mesh)>)
    ensures |outputPaths| == |written| == |outputArgs|
    ensures forall m :: 0 <= m < |outputArgs| ==>
              outputPaths[m] == outputArgs[m].0 && written[m] == (outputArgs[m].0, SurfaceMesh(outputArgs[m].1))
  {
    outputPaths := [];
    written := [];
    var j := 0;
    while j < |outputArgs|
      invariant 0 <= j <= |outputArgs|
      invariant |outputPaths| == |written| == j
      invariant forall m :: 0 <= m < j ==>
                  outputPaths[m] == outputArgs[m].0 && written[m] == (outputArgs[m].0, SurfaceMesh(outputArgs[m].1))
    {
      var meshPath, mesh := WriteSingleSurface(outputArgs[j].0, outputArgs[j].1);
      outputPaths := outputPaths + meshPath;
      written := written + [(outputArgs[j].0, mesh)];
      j := j + 1;
    }
  }

  /** The naming loop of `write_multiple`: a name for each surface layer, in order, each
      resolved against the names assigned before it. */
  method PlanOutputs(layers: seq<Layer>) returns (outputFiles: seq<string>, outputArgs: seq<(string, Layer)>)
    ensures outputFiles == PlanNames(layers)
    ensures outputArgs == Zip(outputFiles, Surfaces(layers))
  {
    outputFiles := [];
    outputArgs := [];
    var i := 0;
    while i < |layers|
      invariant 0 <= i <= |layers|
      invariant outputFiles == PlanNames(layers[..i])
      invariant outputArgs == Zip(outputFiles, Surfaces(layers[..i]))
    {
      outputFiles, outputArgs := PlanLayer(layers, i, outputFiles, outputArgs);
      i := i + 1;
    }
    assert layers[..i] == layers;
  }

  /** One pass of the naming loop: layer `i` named, when it is a surface, after the layers before it. */
  method PlanLayer(layers: seq<Layer>, i: nat, outputFiles: seq<string>, outputArgs: seq<(string, Layer)>)
    returns (files: seq<string>, args: seq<(string, Layer)>)
    requires i < |layers| && outputFiles == PlanNames(layers[..i])
    requires outputArgs == Zip(outputFiles, Surfaces(layers[..i]))
    ensures files == PlanNames(layers[..i + 1])
    ensures args == Zip(files, Surfaces(layers[..i + 1]))
  {
    PlanStep(layers, i);
    files, args := outputFiles, outputArgs;
    if layers[i].layerType == SurfaceTag {
      var meshFile := RequestedName(layers[i].meta);
      meshFile := AvoidClash(meshFile, outputFiles);
      ZipSnoc(outputFiles, Surfaces(layers[..i]), meshFile, layers[i]);
      files := outputFiles + [meshFile];
      args := outputArgs + [(meshFile, layers[i])];
    }
  }

  /** `write_multiple`: nothing when the target is an existing file; otherwise one planned
      name and one written mesh per surface layer, in order, and the list of written paths. */
  method WriteMultiple(targetIsFile: bool, layers: seq<Layer>) returns (outputPaths: seq<string>, written: seq<(string, Mesh)>)
    ensures targetIsFile ==> outputPaths == [] && written == []
    ensures !targetIsFile ==> outputPaths == PlanNames(layers)
    ensures !targetIsFile ==> |written| == |outputPaths|
    ensures !targetIsFile ==>
              forall i :: 0 <= i < |written| ==> written[i] == (outputPaths[i], SurfaceMesh(Surfaces(layers)[i]))
  {
    if targetIsFile {
      return [], [];
    }
    var outputFiles, outputArgs := PlanOutputs(layers);
    outputPaths, written := WriteAll(outputArgs);
    assert outputPaths == outputFiles;
  }

  // Properties of the plan.

  /** The assigned names only grow: a batch's plan extends the plan of any prefix of it. */
  lemma {:induction false} PlanExtends(xs: seq<Layer>, ys: seq<Layer>)
    ensures PlanNames(xs) <= PlanNames(xs + ys)
    decreases |ys|
  {
    if ys == [] {
      assert xs + ys == xs;
    } else {
      var init := ys[..|ys| - 1];
      assert (xs + ys)[..|xs + ys| - 1] == xs + init;
      PlanExtends(xs, init);
    }
  }

  /** No two entries of `names` are equal. */
  ghost predicate Distinct(names: seq<string>) {
    forall i, j :: 0 <= i < j < |names| ==> names[i] != names[j]
  }

  /** Every surface layer asks for a name whose stem carries a number. */
  ghost predicate AllNumbered(layers: seq<Layer>) {
    forall i :: 0 <= i < |layers| && layers[i].layerType == SurfaceTag ==>
      NumberGroup(Stem(FinalName(OutputName(layers[i].meta)))).Some?
  }

  /** When every requested stem carries a number, no two surface layers are given the same file. */
  lemma {:induction false} NumberedPlanDistinct(layers: seq<Layer>)
    requires AllNumbered(layers)
    ensures Distinct(PlanNames(layers))
    decreases |layers|
  {
    if layers != [] {
      var init := layers[..|layers| - 1];
      assert AllNumbered(init) by {
        forall i | 0 <= i < |init| && init[i].layerType == SurfaceTag
          ensures NumberGroup(Stem(FinalName(OutputName(init[i].meta)))).Some?
        {
          assert init[i] == layers[i];
        }
      }
      NumberedPlanDistinct(init);
      var i := |layers| - 1;
      PlanStep(layers, i);
      assert layers[..i + 1] == layers && layers[..i] == init;
      if layers[i].layerType == SurfaceTag {
        var names := PlanNames(init);
        DistinctSnoc(names, ResolveName(OutputName(layers[i].meta), names));
      }
    }
  }

  lemma DistinctSnoc(names: seq<string>, x: string)
    requires Distinct(names) && x !in names
    ensures Distinct(names + [x])
  {
  }

  /** The default name "mesh0.vtu" has the number 0 in its stem. */
  lemma DefaultNameNumbered()
    ensures FinalName(DefaultName) == DefaultName && Stem(DefaultName) == "mesh0"
    ensures NumberGroup("mesh0") == Some("0")
  {
    DefaultNameParts();
    DefaultStemShape();
    TrailingDigitNumber("mesh0");
  }

  lemma DefaultStemShape()
    ensures var s := "mesh0";
            |s| >= 2 && !IsDigit(s[|s| - 2]) && IsDigit(s[|s| - 1]) && '\n' !in s && s[|s| - 1..] == "0"
  {
    var s := "mesh0";
    assert !IsDigit(s[3]) && IsDigit(s[4]);
    assert s[4..] == "0";
  }

  /** A stem ending in one digit after a non-digit, on one line, has that digit as its number. */
  lemma TrailingDigitNumber(s: string)
    requires |s| >= 2 && !IsDigit(s[|s| - 2]) && IsDigit(s[|s| - 1]) && '\n' !in s
    ensures NumberGroup(s) == Some(s[|s| - 1..])
  {
    var p := |s| - 2;
    assert '\n' !in s[..p] by {
      forall j | 0 <= j < p ensures s[..p][j] != '\n' {
        assert s[..p][j] == s[j];
      }
    }
    assert MatchAt(s, p);
    assert LastMatchUpTo(s, |s| - 2) == Some(p);
    assert DigitRunEnd(s, p + 2) == |s|;
    assert DigitRunEnd(s, p + 1) == |s|;
    assert s[p + 1..|s|] == s[|s| - 1..];
  }

  /** Layers without a "name" are all saved, each to its own file. */
  lemma UnnamedLayersDistinct(layers: seq<Layer>)
    requires forall i :: 0 <= i < |layers| ==> layers[i].meta.name.None?
    ensures Distinct(PlanNames(layers))
  {
    DefaultNameNumbered();
    NumberedPlanDistinct(layers);
  }

  /** A name without a number in its stem, asked for a third time, is given the same file as
      the second time: the name with "0" appended is not checked against the names assigned. */
  lemma UnnumberedRenameRepeats(r: string, claimed: seq<string>)
    requires r in claimed && NumberGroup(Stem(FinalName(r))).None?
    ensures var second := ResolveName(r, claimed);
            ResolveName(r, claimed + [second]) == second
  {
  }

  /** A clash on the default name counts up from 1 with the stem "mesh". */
  lemma DefaultRenamed(claimed: seq<string>)
    requires DefaultName in claimed
    ensures ResolveName(DefaultName, claimed) == Candidate("mesh", FirstFree("mesh", DefaultExtension, claimed, 1), DefaultExtension)
  {
    DefaultNameNumbered();
    DefaultNameParts();
    DefaultStemBase();
    NumberedRename(DefaultName, "0", claimed);
  }

  lemma DefaultStemBase()
    ensures "mesh0"[..|"mesh0"| - |"0"|] == "mesh" && ParseDecimal("0") + 1 == 1
  {
    assert "mesh0"[..4] == "mesh";
  }

  /** A taken name whose stem carries the number `digits` counts up from that number plus one,
      keeping the text before the number and the suffix. */
  lemma NumberedRename(name: string, digits: string, claimed: seq<string>)
    requires NumberGroup(Stem(name)) == Some(digits)
    ensures var base := Stem(name)[..|Stem(name)| - |digits|];
            Renamed(name, claimed) == Candidate(base, FirstFree(base, Suffix(name), claimed, ParseDecimal(digits) + 1), Suffix(name))
  {
    var base := Stem(name)[..|Stem(name)| - |digits|];
    assert Renamed(name, claimed) == NextNumbered(base, digits, Suffix(name), claimed);
  }

  lemma CountUpNames()
    ensures Candidate("mesh", 1, DefaultExtension) == "mesh1.vtu"
    ensures Candidate("mesh", 2, DefaultExtension) == "mesh2.vtu"
    ensures "mesh2.vtu" !in ["mesh0.vtu", "mesh1.vtu"] && "mesh1.vtu" !in ["mesh0.vtu"]
  {
    assert ToDecimal(1) == "1" && ToDecimal(2) == "2";
    assert "mesh0.vtu"[4] == '0' && "mesh1.vtu"[4] == '1' && "mesh2.vtu"[4] == '2';
  }

  /** The second and third clash on the default name give "mesh1.vtu" and "mesh2.vtu". */
  lemma DefaultClashes()
    ensures ResolveName(DefaultName, [DefaultName]) == "mesh1.vtu"
    ensures ResolveName(DefaultName, [DefaultName, "mesh1.vtu"]) == "mesh2.vtu"
  {
    CountUpNames();
    DefaultRenamed([DefaultName]);
    assert FirstFree("mesh", DefaultExtension, [DefaultName], 1) == 1;
    var two := [DefaultName, "mesh1.vtu"];
    DefaultRenamed(two);
    assert FirstFree("mesh", DefaultExtension, two, 2) == 2;
    assert FirstFree("mesh", DefaultExtension, two, 1) == 2;
  }
}
