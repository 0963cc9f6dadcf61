# napari-multi-channel-surface, modelled in Dafny

This project models the reader and the writer of the napari plugin
`napari-multi-channel-surface`, which loads triangle surfaces with per-vertex channel data
into napari and saves them again through the `meshio` library.

- **Reader** (`_reader.py`)
  - `napari_get_reader` offers the plugin's reader when the first path's suffix is accepted.
  - `reader_function` reads every path in order.
  - `read_surface` does four things:
    - It turns a parsed mesh into a Surface layer tuple `(data, meta, "surface")`. The faces come from the first "triangle" cell block.
    - It flattens, splits or drops each per-vertex array, filling an ordered `point_data` dictionary:
      - an array with one value per vertex keeps its name;
      - an `(N, K)` array becomes `K` channels `name_C0 … name_C{K-1}`;
      - anything else is dropped, except a zero-dimensional array on a mesh whose vertex count is not 1: its `.shape[0]` raises IndexError and the read fails.
    - It lets that IndexError out: one such array makes the whole read fail.
    - It maps the library's `SystemExit` to `RuntimeError("Surface file is not in a readable format.")`.
- **Writer** (`_writer.py`)
  - `write_single_surface` builds the mesh from the vertices, one triangle block, and the frame's columns. The columns are written as one-dimensional arrays, and only when the frame has one row per vertex.
  - `write_multiple` plans a file name for each surface layer and then writes them.
  - The naming rule works like this:
    - A missing "name" becomes "mesh0.vtu".
    - A name without a suffix gets ".vtu".
    - A name already assigned is renamed. When the stem has a number (`re.match(r".*[\D](\d+)", stem)`), counting starts after that number. Otherwise "0" and the suffix are appended to the whole final name.

The modules:

- `Decimal`: `str(n)` and `int(s)` on non-negative integers.
- `PathNames`: `pathlib`'s `name`, `suffix` and `stem` on '/'-separated strings, following Python 3.12's rule.
- `MeshData`: arrays, meshes, layer tuples and frames, plus insertion-ordered dictionaries with Python's `d[k] = v`.
- `Reader`, `Writer`: the two plugin files.
- `RoundTrip`: how writing and reading compose.

State changes follow the source:
- Loops that fill a dictionary or a list are methods with loop invariants.
- Each such method is proved equal to a specification function.
- The properties are proved about those functions.

The renaming rule is modelled as the code writes it. For a name without a number in its stem, the
comment at `_writer.py:111` says counting starts at 0. The code appends "0" and the suffix to the whole
final name, so a second "a.vtu" becomes "a.vtu0.vtu", and a second "mesh" becomes "mesh.vtu0.vtu".
That name is not checked again, so a third "a.vtu" also gets "a.vtu0.vtu"
(`Writer.UnnumberedRenameRepeats`). For a stem with a number, the comment at `_writer.py:116` says
counting starts at the next integer. The number the code takes is the last digit run that follows a
non-digit, wherever the run ends. The code then cuts as many characters from the end of the stem as
the run has digits, so "a1b" renamed becomes "a12.vtu": the stem loses its last character, and 2 is
appended.

## Model

| member | source | states |
|---|---|---|
| Decimal.ToDecimal | src/napari_multi_channel_surface/_writer.py:119-121 | `str(n)` is a non-empty run of digits with no leading zero |
| Decimal.ParseDecimal | src/napari_multi_channel_surface/_writer.py:119 | `int(s)` on a string of ASCII digits: the decimal value, read left to right (a definition, characterised by `Decimal.ParseToDecimal` and `Decimal.LeadingZeroIgnored`) |
| Decimal.ParseToDecimal | src/napari_multi_channel_surface/_writer.py:117-126 | `int(str(n)) == n`: the counter read back from a written name is the number written |
| Decimal.ToDecimalInjective | src/napari_multi_channel_surface/_writer.py:119-126 | different counters give different spellings |
| Decimal.LeadingZeroIgnored | src/napari_multi_channel_surface/_writer.py:117-119 | `int` ignores leading zeros, so "a007" counts on from 7 and the zeros are lost |
| PathNames.RFind | src/napari_multi_channel_surface/_writer.py:103-106 | the index of the last occurrence of a character, or -1, and no occurrence after it |
| PathNames.FinalName | src/napari_multi_channel_surface/_writer.py:103-113 | `Path.name` is the separator-free tail of the path, preceded by a separator when shorter |
| PathNames.FinalNameOfName | src/napari_multi_channel_surface/_writer.py:120-127 | a name without separators is its own final name |
| PathNames.Suffix | src/napari_multi_channel_surface/_reader.py:55-57 | `Path.suffix` is empty or a dot and at least one more character with no further dot, and ends the name |
| PathNames.Stem | src/napari_multi_channel_surface/_writer.py:104-109 | stem followed by suffix is the name; a name with a suffix has a non-empty stem |
| PathNames.AppendExtension | src/napari_multi_channel_surface/_writer.py:104-106 | a non-empty stem with ".vtu" appended has suffix ".vtu" and that stem back |
| MeshData.WithFrame | src/napari_multi_channel_surface/_reader.py:161 | the meta built by the reader carries the frame at `meta["metadata"]["point_data"]` |
| MeshData.FrameOf | src/napari_multi_channel_surface/_writer.py:49-53 | the DataFrame at `meta["metadata"]["point_data"]` when both keys are present and the value is a DataFrame, else none (a definition) |
| MeshData.Vector | src/napari_multi_channel_surface/_writer.py:56 | `np.array(column)`: a one-dimensional array of the column's length holding its values (a definition) |
| MeshData.Put | src/napari_multi_channel_surface/_reader.py:150 | `d[k] = v`: a new key goes last, an existing key keeps its place and takes the value, other entries unchanged, distinct keys kept |
| MeshData.PutAll | src/napari_multi_channel_surface/_reader.py:158-159 | putting entries one after another keeps keys distinct |
| MeshData.PutAllFresh | src/napari_multi_channel_surface/_reader.py:146-159 | entries with new, distinct keys are appended in order |
| MeshData.PutAllOfLength | src/napari_multi_channel_surface/_reader.py:146-159 | putting values of length N keeps every value of length N |
| Reader.PathsOf | src/napari_multi_channel_surface/_reader.py:84 | a single path stands for the list holding it; a list is itself (a definition) |
| Reader.GetReader | src/napari_multi_channel_surface/_reader.py:51-61 | IndexError exactly on an empty list; the reader is offered exactly when the first path's suffix is accepted |
| Reader.OnlyFirstPathDecides | src/napari_multi_channel_surface/_reader.py:51-54 | a list is judged by its first path alone |
| Reader.FirstTrianglesFound | src/napari_multi_channel_surface/_reader.py:134-138 | the faces are the data of the first "triangle" block, whatever blocks surround it |
| Reader.NoTrianglesNoFaces | src/napari_multi_channel_surface/_reader.py:134 | without a triangle block the faces are empty |
| Reader.FirstTriangles | src/napari_multi_channel_surface/_reader.py:134-138 | with no triangle block the faces are empty; non-empty faces are the data of some triangle block (the first one, by `Reader.FirstTrianglesFound`) |
| Reader.SelectFaces | src/napari_multi_channel_surface/_reader.py:133-139 | the scan that breaks at the first triangle block returns its data |
| Reader.Classify | src/napari_multi_channel_surface/_reader.py:148-153 | flatten exactly when the size is N; `.shape[0]` raises exactly on a zero-dimensional array when N is not 1; split exactly on an `(N, K)` array with N > 0 and K ≠ 1, into K channels; otherwise dropped |
| Reader.SizeOfRows | src/napari_multi_channel_surface/_reader.py:147-153 | an `(N, K)` array has N elements exactly when N is 0 or K is 1, so such arrays are flattened, not split |
| Reader.Column | src/napari_multi_channel_surface/_reader.py:159 | `a[:, c]` has one value per row, the row-major element `r * K + c` of row `r` |
| Reader.ChannelName | src/napari_multi_channel_surface/_reader.py:159 | `f"{k}_C{i}"` starts with `k`, then "_C", then digits that read back as `i` |
| Reader.SplitChannels | src/napari_multi_channel_surface/_reader.py:156-159 | channel `c` of a split array is column `c` under `k_C{c}`, one per column |
| Reader.Channels | src/napari_multi_channel_surface/_reader.py:147-159 | an array gives one channel when flattened, one per column when split, none when dropped |
| Reader.ChannelTable | src/napari_multi_channel_surface/_reader.py:146-159 | the `point_data` dictionary filled array by array; it never holds more channels than the arrays give |
| Reader.ChannelTableWellFormed | src/napari_multi_channel_surface/_reader.py:144-161 | the table has distinct names and every channel has one value per vertex, as a DataFrame needs |
| Reader.TableWithoutClashes | src/napari_multi_channel_surface/_reader.py:146-159 | without name clashes the table is all channels in array order, then column order, and counts one per scalar and one per column |
| Reader.DroppedArrayIgnored | src/napari_multi_channel_surface/_reader.py:147-154 | an array of any other shape leaves the table as if it were absent |
| Reader.SplitArrayChannels | src/napari_multi_channel_surface/_reader.py:151-159 | on a mesh with vertices, an `(N, K)` array with `K != 1` is split into its `K` columns |
| Reader.FlattenKeepsName | src/napari_multi_channel_surface/_reader.py:148-150 | an array with one value per vertex, such as `(N, 1)`, is flattened under its own name |
| Reader.ChannelNamesDistinct | src/napari_multi_channel_surface/_reader.py:159 | the split names of one array are all different |
| Reader.TableStep | src/napari_multi_channel_surface/_reader.py:147 | one pass of the outer loop adds one array's channels |
| Reader.PutColumns | src/napari_multi_channel_surface/_reader.py:156-159 | the inner loop puts the array's split channels in column order |
| Reader.PutAttribute | src/napari_multi_channel_surface/_reader.py:148-159 | one array handled: fails exactly when `.shape[0]` raises, otherwise puts its channels |
| Reader.HasShapeFailure | src/napari_multi_channel_surface/_reader.py:146-153 | some array makes `.shape[0]` raise during the loop (a definition, characterised by `Reader.ShapeFailureMeaning`) |
| Reader.ShapeFailureMeaning | src/napari_multi_channel_surface/_reader.py:146-153 | the loop hits an `IndexError` exactly when some array, in any position, is zero-dimensional with a size other than N |
| Reader.ShapeFailureStep | src/napari_multi_channel_surface/_reader.py:146-153 | one more array fails the loop exactly when the earlier ones did or this one raises |
| Reader.ShapeFailureExtends | src/napari_multi_channel_surface/_reader.py:146-153 | once an array raises, the whole loop raises whatever follows |
| Reader.TablePass | src/napari_multi_channel_surface/_reader.py:146-159 | one pass of the loop raises exactly when its array raises, and otherwise yields the table of one more array |
| Reader.BuildChannelTable | src/napari_multi_channel_surface/_reader.py:143-159 | the loop fails exactly when some array is zero-dimensional with a size other than N, and otherwise builds the channel table |
| Reader.TableFrame | src/napari_multi_channel_surface/_reader.py:161 | `DataFrame(point_data)`: the table's columns, a valid frame when names are distinct and every column has N values |
| Reader.ReadSurfaceSpec | src/napari_multi_channel_surface/_reader.py:126-164 | SystemExit becomes the fixed RuntimeError; other library errors pass unchanged; a parsed mesh fails exactly on a shape failure, and otherwise gives a surface layer over its vertices |
| Reader.ReadSurface | src/napari_multi_channel_surface/_reader.py:126-164 | `read_surface` on each parse outcome: RuntimeError for SystemExit, other errors unchanged, the layer otherwise |
| Reader.ReadLayerShape | src/napari_multi_channel_surface/_reader.py:133-164 | the layer is a surface over the vertices and first triangle block; its meta is empty exactly when there is no point data, else a well-formed frame of the table |
| Reader.ReadAll | src/napari_multi_channel_surface/_reader.py:84-87 | success gives one layer per path in order; failure is the first failing path's error |
| Reader.ReaderFunction | src/napari_multi_channel_surface/_reader.py:84-87 | on success, one surface layer per path given, a single path counting as one |
| Reader.SinglePathIsOneElementList | src/napari_multi_channel_surface/_reader.py:84 | a single path is read as the one-element list |
| Writer.ColumnArrays | src/napari_multi_channel_surface/_writer.py:55-56 | each column becomes a one-dimensional array under its own label, in order |
| Writer.CopiedPointData | src/napari_multi_channel_surface/_writer.py:49-56 | nothing unless there is a DataFrame with one row per vertex; distinct names; at most one array per column |
| Writer.SurfaceMesh | src/napari_multi_channel_surface/_writer.py:47-56 | the mesh has the layer's vertices, one triangle block of its faces, and point data with distinct names |
| Writer.CopyRule | src/napari_multi_channel_surface/_writer.py:49-56 | no point data unless there is a DataFrame with one row per vertex; then its columns, in order, as one-dimensional arrays |
| Writer.WriteSingleSurface | src/napari_multi_channel_surface/_writer.py:47-60 | the mesh has the vertices, one triangle block of the faces, and the copied columns; the returned list is the one path |
| Writer.OutputName | src/napari_multi_channel_surface/_writer.py:102-106 | "mesh0.vtu" without a name; a name with a suffix is kept; otherwise its final stem plus ".vtu"; the result always has a suffix unless it is ".vtu" itself |
| Writer.DefaultNameParts | src/napari_multi_channel_surface/_writer.py:102-106 | "mesh0.vtu" is its own final name, with stem "mesh0" and suffix ".vtu" |
| Writer.WithDefaultExtension | src/napari_multi_channel_surface/_writer.py:104-106 | a final name without a suffix is its own stem, and with ".vtu" added it has a suffix unless it was empty |
| Writer.RequestedName | src/napari_multi_channel_surface/_writer.py:102-106 | the statements compute the requested name |
| Writer.LastMatchUpTo | src/napari_multi_channel_surface/_writer.py:109 | greedy `.*`: the largest position up to a bound where `[\D](\d+)` can start, and none above it |
| Writer.MatchAt | src/napari_multi_channel_surface/_writer.py:109 | `.*[\D](\d+)` can put its `[\D]` at position `p`: a non-digit followed by a digit, with no line break before it (a definition) |
| Writer.DigitRunEnd | src/napari_multi_channel_surface/_writer.py:109 | greedy `\d+`: the run is all digits and is followed by a non-digit or the end |
| Writer.NumberGroup | src/napari_multi_channel_surface/_writer.py:109-117 | group 1 is a non-empty run of digits shorter than the stem |
| Writer.NumberGroupMeaning | src/napari_multi_channel_surface/_writer.py:109-117 | no match exactly when no non-digit is followed by a digit; otherwise group 1 is the full digit run after the last such non-digit |
| Writer.TrailingDigitNumber | src/napari_multi_channel_surface/_writer.py:109-117 | a one-line stem ending in one digit after a non-digit has that digit as group 1 |
| Writer.CandidateInjective | src/napari_multi_channel_surface/_writer.py:120-127 | different counters give different candidate names |
| Writer.Candidate | src/napari_multi_channel_surface/_writer.py:120-126 | the name tried with counter `k`: base, `str(k)`, suffix (a definition) |
| Writer.CandidateShape | src/napari_multi_channel_surface/_writer.py:120-126 | a candidate starts with the base, ends with the suffix, and the digits between read back as the counter |
| Writer.PendingShrinks | src/napari_multi_channel_surface/_writer.py:123-127 | each probe that finds its name taken leaves fewer taken names ahead, so the loop ends |
| Writer.FirstFree | src/napari_multi_channel_surface/_writer.py:119-127 | the probe stops at the least counter from the start whose name is free |
| Writer.NextNumbered | src/napari_multi_channel_surface/_writer.py:115-127 | the numbered rule gives a free name with a counter above the old number, and every counter between is taken |
| Writer.Renamed | src/napari_multi_channel_surface/_writer.py:108-127 | without a number: name, "0", suffix; with one: a free name |
| Writer.ResolveName | src/napari_multi_channel_surface/_writer.py:107-127 | a free request is kept; the result is free whenever the request is free or numbered |
| Writer.NumberedRename | src/napari_multi_channel_surface/_writer.py:115-127 | a taken name with a number counts up from that number plus one, keeping the text before the number and the suffix |
| Writer.UnnumberedRenameRepeats | src/napari_multi_channel_surface/_writer.py:110-114 | a third request for an unnumbered name gets the same file as the second |
| Writer.NoNumberInExtension | src/napari_multi_channel_surface/_writer.py:104-109 | ".vtu" alone has no number, so the numbered rule always sees a suffix |
| Writer.SeparatorFreeParts | src/napari_multi_channel_surface/_writer.py:118-121 | the name base and suffix taken from a final name hold no separator |
| Writer.CandidateParts | src/napari_multi_channel_surface/_writer.py:125-127 | re-reading a candidate's suffix in the loop gives back the suffix it was built with |
| Writer.ProbeFreeName | src/napari_multi_channel_surface/_writer.py:117-127 | the probing loop returns the first free numbered name |
| Writer.RenameTaken | src/napari_multi_channel_surface/_writer.py:108-127 | the renaming statements compute the renaming rule |
| Writer.AvoidClash | src/napari_multi_channel_surface/_writer.py:107-127 | the clash check computes the assigned name |
| Writer.Surfaces | src/napari_multi_channel_surface/_writer.py:98-100 | every surface layer is kept and no other, in input order: the kept layers are the input at the increasing surface positions |
| Writer.SurfacePositions | src/napari_multi_channel_surface/_writer.py:98-100 | the positions of the surface layers, strictly increasing, and every surface layer's position among them |
| Writer.PlanNames | src/napari_multi_channel_surface/_writer.py:95-129 | one name per surface layer |
| Writer.PlanStep | src/napari_multi_channel_surface/_writer.py:98-129 | a surface layer appends its resolved name; other layers change nothing |
| Writer.Zip | src/napari_multi_channel_surface/_writer.py:129 | `output_args` pairs each name with its layer |
| Writer.WriteAll | src/napari_multi_channel_surface/_writer.py:131-138 | every planned file is written in order and its path collected |
| Writer.PlanOutputs | src/napari_multi_channel_surface/_writer.py:95-129 | the naming loop builds the plan and pairs each name with its layer |
| Writer.PlanLayer | src/napari_multi_channel_surface/_writer.py:98-129 | one pass of the naming loop extends the plan and the argument list by exactly what the plan prescribes for that layer |
| Writer.WriteMultiple | src/napari_multi_channel_surface/_writer.py:90-138 | nothing when the target is a file; otherwise the planned names, and one written mesh per surface layer |
| Writer.PlanExtends | src/napari_multi_channel_surface/_writer.py:128 | names already assigned are never changed by later layers |
| Writer.NumberedPlanDistinct | src/napari_multi_channel_surface/_writer.py:107-127 | when every request carries a number, no two layers share a file |
| Writer.DefaultNameNumbered | src/napari_multi_channel_surface/_writer.py:102-109 | "mesh0.vtu" has stem "mesh0" whose number is "0" |
| Writer.UnnamedLayersDistinct | src/napari_multi_channel_surface/_writer.py:102-127 | layers without a name all get their own file |
| Writer.DefaultRenamed | src/napari_multi_channel_surface/_writer.py:115-127 | a clash on "mesh0.vtu" counts from 1 with base "mesh" |
| Writer.CountUpNames | src/napari_multi_channel_surface/_writer.py:120-121 | counters 1 and 2 give "mesh1.vtu" and "mesh2.vtu" |
| Writer.DefaultClashes | src/napari_multi_channel_surface/_writer.py:102-127 | the second and third unnamed layers get "mesh1.vtu" and "mesh2.vtu" |
| RoundTrip.ColumnArraysDistinct | src/napari_multi_channel_surface/_writer.py:55-56 | distinct column labels give distinct array names |
| RoundTrip.CopiedColumns | src/napari_multi_channel_surface/_writer.py:49-56 | a frame with one row per vertex is copied column for column |
| RoundTrip.ColumnArraysPrefix | src/napari_multi_channel_surface/_writer.py:55-56 | copying a prefix of the columns gives a prefix of the arrays |
| RoundTrip.VectorChannels | src/napari_multi_channel_surface/_reader.py:148-150 | written one-dimensional columns read back as the same channels, with no failure |
| RoundTrip.WriteThenRead | src/napari_multi_channel_surface/_writer.py:47-60 | a surface with a well-formed frame of one row per vertex, written and read back, is the same surface with the same frame; with no columns, no metadata comes back |
| RoundTrip.ReadThenWrite | src/napari_multi_channel_surface/_reader.py:126-164 | a file read and written keeps its vertices and first triangle block, and writes the channel table as one-dimensional arrays |
| RoundTrip.ScalarArraysRoundTrip | src/napari_multi_channel_surface/_reader.py:148-150 | one-dimensional per-vertex arrays with distinct names come back exactly |
| RoundTrip.SplitArrayStaysSplit | src/napari_multi_channel_surface/_reader.py:151-159 | a file whose only point-data array is an `(N, K)` array with `N > 0` and `K != 1` comes back with `K` arrays `name_C{i}`: the split is not undone (with `N = 0` the array has size N and is flattened instead) |

## Left out

- Reading and writing files is left out. `meshio.read`'s outcome is an input (`Reader.ParseResult`), and `meshio.write` is replaced by returning the mesh. `Path.is_file` is a boolean input, and `mkdir` is omitted.
- The set of accepted extensions is a parameter. src/napari_multi_channel_surface/_constants.py is not part of this model.
- The dock widget (`_widget.py`) and the plugin registration (`__init__.py`) are not part of this model.
- Paths are plain '/'-separated strings, named relative to the output directory. `pathlib`'s normalisation is not modelled: repeated separators, ".", a trailing separator, an empty name, an absolute name that replaces the directory, and `Path` equality across spellings.
- `\d` and `\D` are taken as ASCII digits and non-digits. Python's regular expressions also count other Unicode decimal digits.
- Empty arrays carry no shape: the default faces `np.array([])`, of shape (0,), and an empty triangle block, of shape (0, 3), are both the empty sequence of rows.
- Array elements are opaque integers: dtypes, floating point values and numpy's element-wise behaviour are not modelled.
- pandas frames are a row count and ordered named columns. Index labels and duplicate column labels are not modelled.
- Reader.ReadAll: `parse` must be a function of the path, so a file that changes between reads is not modelled.
- Writer.ResolveName: the unnumbered rule's result is not claimed to be free, because the code does not check it (see `Writer.UnnumberedRenameRepeats`).
