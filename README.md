# cartoreader-lite core, modelled in Dafny

cartoreader-lite reads CARTO3 electro-anatomical mapping studies. This project
models the sequential logic at its centre and proves properties of it:

- **Mesh reader** (`read_mesh.py`, module `MeshReader`, `mesh.dfy`). A `.mesh`
  file is a list of lines. Lines that begin with `[Name]` open sections, and
  the first section must be `GeneralAttributes`, a block of `key = value`
  lines. Every later section is a whitespace-separated table: column 0 is the
  row index, column 1 is a literal `=`, and missing header names are padded
  with `N/A`. The vertex and triangle column groups are taken from those
  tables. The imperative reader `ReadMeshFile` is proved equal to the layered
  specification `ReadMesh`.
- **Table utilities** (`utils.py`):
  - `CaseNames` (`case_names.dfy`): camel/snake case conversion, with its
    round trip.
  - `Dtypes` (`dtypes.dfy`): the dtype downcast `simplify_dataframe_dtypes`
    (numpy integer wrap-around written out), the table `dtype_simplify_dict`
    of `study.py`, and the `X, Y, Z` → `pos` collapse.
  - `TimeUnify` (`time_unify.dfy`): `unify_time_data` and
    `interpolate_time_data`. This covers the intersection window, the numpy
    grid arithmetic, the per-dtype interpolation policy, and the merge rule:
    time key first, then the sorted union of names, each column taken from the
    first table holding it, and agreement with every later holder.
  - Tables are `Tables.Table` (`tables.dfy`), a sequence of named, typed
    columns of tagged values.
- **Visitag reader** (`visitags.py`, module `Visitags`). This is the
  three-pattern `key= value` fallback parser. Its float pattern is proved
  unreachable, because the unanchored integer pattern always matches first,
  so `1.5` is stored as the integer `1`. The module also models the `.txt` file
  walk and the keying of results by file stem.
- **High-level study** (`study.py`):
  - `PointDetail`: the point record. This covers the ECG gain pattern, the
    int16 range check, the twelve-lead / EGM split, and header-number
    stripping. A class `CartoPointDetailData` is built by a `Create` method.
  - `CartoMaps`: `CartoMap._simplify`, namely point assembly, the WOI filter on
    both point lists, and the mesh metadata checks.
  - `Ablation`: `AblationSites.__init__`, namely the rename, unify, downcast,
    per-session grouping and position vectors.

`Common` (`common.dfy`) holds the shared option/result types, Python's
character classes and string helpers, decimal parsing, and the lexicographic
order numpy uses to sort names.

File contents, directory walks, the tabular CSV parser, the interpolator and
the mesh object are inputs of the model. A file is its list of lines, a walk is
a list of `(root, files)` entries, a parsed CSV is a `CsvOutcome`, and the
quadratic interpolator is an abstract `Interpolator` function.

## Model

| member | source | states |
|---|---|---|
| `MeshReader.SectionNameMatches` | cartoreader_lite/low_level/read_mesh.py:15-16 | A line names a section exactly when `\[(\S+)\]` matches at its start; the name is the greedy group (up to the last `]` reachable without whitespace) |
| `MeshReader.SectionNameExamples` | cartoreader_lite/low_level/read_mesh.py:15-16 | `[ab]`→`ab`, `[a]b]`→`a]b` (greedy), `[]` and a line with leading space are not headers |
| `MeshReader.HeaderIndicesExact` | cartoreader_lite/low_level/read_mesh.py:87 | The header positions are exactly the indices of section-header lines, strictly increasing |
| `MeshReader.FindSectionHeaders` | cartoreader_lite/low_level/read_mesh.py:87 | The loop collecting header lines returns exactly those positions |
| `MeshReader.ClassifyAttribute` | cartoreader_lite/low_level/read_mesh.py:94-99 | A line of the attribute block is skipped iff it starts with `;` or whitespace; otherwise it is a `key = value` pair with a non-empty whitespace-free key at the line start, or malformed |
| `MeshReader.AttributesLastWins` | cartoreader_lite/low_level/read_mesh.py:94-99 | The block fails iff some line is malformed, with the first such line reported; otherwise the keys are exactly those set, each holding the value of its last setter |
| `MeshReader.ReadAttributes` | cartoreader_lite/low_level/read_mesh.py:94-99 | The loop filling the header dictionary computes the fold of the line meanings |
| `MeshReader.FirstNonComment` | cartoreader_lite/low_level/read_mesh.py:39 | The first line whose stripped text does not start with `;`, or none |
| `MeshReader.HeaderNames` | cartoreader_lite/low_level/read_mesh.py:41 | Header names are whitespace-split tokens with empty and `;` tokens removed |
| `MeshReader.PadRow` | cartoreader_lite/low_level/read_mesh.py:38 | A short data row is padded with missing cells up to the width fixed by the table |
| `MeshReader.ReadSection` | cartoreader_lite/low_level/read_mesh.py:36-42 | A parsed section is rectangular and has one row per data line |
| `MeshReader.HeaderNamesFromLineBeforeData` | cartoreader_lite/low_level/read_mesh.py:39-41 | With data, the names come from the line just before the first non-comment line; if that line is the first one, the result is "No header row found" |
| `MeshReader.PadNames` | cartoreader_lite/low_level/read_mesh.py:116-119 | The names are kept and extended with `N/A` up to the data-column count, never shortened |
| `MeshReader.CheckedSectionShape` | cartoreader_lite/low_level/read_mesh.py:112-121 | A checked section has index `i` and `=` in every row `i`; it keeps columns 2 onward and the padded names, which equal the data width except for `VerticesAttributesSection` |
| `MeshReader.CheckSectionFails` | cartoreader_lite/low_level/read_mesh.py:112-121 | A section fails iff an index is out of sequence, there is no `=` column or some row lacks `=`, or (outside `VerticesAttributesSection`) there are more names than data columns |
| `MeshReader.CheckSectionErr` | cartoreader_lite/low_level/read_mesh.py:112-121 | A section fails iff its index column is not `0, 1, …`, it has fewer than two columns, some separator cell is not `=`, or (outside `VerticesAttributesSection`) it has more names than data columns. |
| `MeshReader.ParseSection` | cartoreader_lite/low_level/read_mesh.py:110-121 | An empty section is skipped; otherwise named rows fit the names, one row per data line |
| `MeshReader.ColumnCells` | cartoreader_lite/low_level/read_mesh.py:45-47 | A named column is read iff exactly one header holds the name, and it yields that column's cell of every row. An absent name is a `MissingColumn` error, a repeated one a `DuplicateColumn` error |
| `MeshReader.Stack3` | cartoreader_lite/low_level/read_mesh.py:64-65 | Stacking succeeds iff each of the three names is held exactly once; row `i` gives the triple of its three cells. A missing name is reported first, in argument order, then a repeated one |
| `MeshReader.ReadVertices` | cartoreader_lite/low_level/read_mesh.py:44-49 | Vertices are read iff each of `X,Y,Z`, `NormalX..Z` and `GroupID` is held exactly once; row `i` gives the position triple, the normal triple and the group cell of that row |
| `MeshReader.ReadTris` | cartoreader_lite/low_level/read_mesh.py:51-68 | Triangles are read iff each of `Vertex0..2`, `NormalX..Z` and `GroupID` is held exactly once; row `i` gives the face triple, the normal triple and the group cell of that row |
| `MeshReader.SectionEffectOf` | cartoreader_lite/low_level/read_mesh.py:110-131 | An empty section has no effect; a vertex or triangle section sets its arrays, with the row count of the section |
| `MeshReader.DataEffect` | cartoreader_lite/low_level/read_mesh.py:123-128 | Only `VerticesSection` can set the vertices and only `TrianglesSection` the triangles, each with one entry per data row; other sections are skipped. |
| `MeshReader.EffectsAt` | cartoreader_lite/low_level/read_mesh.py:103-108 | The `k`-th effect is that of the name and lines of section `k + 1`, so sections are taken in file order between consecutive headers. |
| `MeshReader.GatherFirstFailure` | cartoreader_lite/low_level/read_mesh.py:103-131 | Processing sections in file order fails iff some section fails, and reports the first failure |
| `MeshReader.GatherLastWins` | cartoreader_lite/low_level/read_mesh.py:101-128 | The vertices (triangles) are those of the last section that set them, and absent iff none did |
| `MeshReader.RunSection` | cartoreader_lite/low_level/read_mesh.py:104-131 | One loop step applies that section's effect to the current arrays |
| `MeshReader.RunData` | cartoreader_lite/low_level/read_mesh.py:123-128 | Reading a section with data replaces the vertex or triangle arrays, or fails with the reader's error, exactly as its effect says. |
| `MeshReader.GatherSections` | cartoreader_lite/low_level/read_mesh.py:103-131 | The section loop computes the fold of the section effects |
| `MeshReader.ReadMeshSpec` | cartoreader_lite/low_level/read_mesh.py:87-145 | The read succeeds iff there are ≥ 2 headers, the first is `GeneralAttributes`, no attribute line is malformed, no section fails and some section sets vertices; the mesh then has those attributes, the last vertices, and triangles iff some section set them |
| `MeshReader.MeshOf` | cartoreader_lite/low_level/read_mesh.py:94-147 | The result is a mesh iff the attributes parsed, every section succeeded and vertices were found; otherwise the attribute error comes first, then the section error, then `NoVertices`. |
| `MeshReader.NoVerticesIsFatal` | cartoreader_lite/low_level/read_mesh.py:134 | Without a vertex section with data the read fails with "No vertices found" |
| `MeshReader.ReadMeshFile` | cartoreader_lite/low_level/read_mesh.py:71-147 | The imperative reader returns exactly `ReadMesh` of the lines |
| `MeshReader.ReadSections` | cartoreader_lite/low_level/read_mesh.py:94-147 | After the header checks, the attribute loop, the section loop and the vertex check together give what `MeshOf` gives for the block and the gathered sections. |
| `CaseNames.CamelToSnake` | cartoreader_lite/low_level/utils.py:127-131 | The result has no upper-case letter |
| `CaseNames.CamelSnakeRoundTrip` | cartoreader_lite/low_level/utils.py:127-139 | For a non-empty ASCII-letter name starting lower-case, `snake_to_camel_case(camel_to_snake_case(s)) == s` |
| `CaseNames.SnakeCamelRoundTrip` | cartoreader_lite/low_level/utils.py:127-139 | For lower-case words joined by single underscores, `camel_to_snake_case(snake_to_camel_case(t)) == t`: the two conversions are inverses |
| `CaseNames.CamelToSnakeWords` | cartoreader_lite/low_level/utils.py:127-131 | The snake form of a letter name starting lower-case is lower-case words joined by single underscores |
| `CaseNames.JoinSplit` | cartoreader_lite/low_level/utils.py:135 | Joining the `_`-split pieces with `_` gives the input back |
| `CaseNames.SplitJoin` | cartoreader_lite/low_level/utils.py:135 | Splitting the `_`-join of underscore-free pieces gives the pieces back |
| `CaseNames.SnakeToCamel` | cartoreader_lite/low_level/utils.py:134-139 | Only the lowering of an empty title-join can fail; with `capitalize` the result is the title-cased join of the pieces |
| `CaseNames.SnakeToCamelPass` | cartoreader_lite/low_level/utils.py:134-139 | The result is the one-pass camel form, with its first character lowered unless `capitalize`; an empty join fails (IndexError) |
| `CaseNames.SnakeToCamelShape` | cartoreader_lite/low_level/utils.py:134-139 | It fails iff not capitalising and the name is all underscores; a result never contains `_` |
| `CaseNames.SnakeToCamelCamelCase` | tests/test_utils.py:5-9 | `camel_case` → `camelCase`, and `CamelCase` with `capitalize` |
| `CaseNames.SnakeToCamelImportantVar` | tests/test_utils.py:5-9 | `imp_ort_ant_var` → `impOrtAntVar`, and `ImpOrtAntVar` with `capitalize` |
| `Common.SortedUnique` | cartoreader_lite/low_level/utils.py:196 | `np.unique` of names: strictly sorted in code-point order, with the same members as the input |
| `Dtypes.Wrap` | cartoreader_lite/low_level/utils.py:157 | An integer cast lands in the target width's range and leaves in-range values unchanged |
| `Dtypes.WrapCongruent` | cartoreader_lite/low_level/utils.py:157 | The integer cast keeps a value modulo `2^bits` |
| `Dtypes.CastValue` | cartoreader_lite/low_level/utils.py:157-160 | Integer targets give in-range integers by wrap-around, float targets give reals, `object` keeps the value |
| `Dtypes.CastColumn` | cartoreader_lite/low_level/utils.py:157-160 | A column cast succeeds iff every value casts; it keeps the name and length, takes the target dtype, and casts each value |
| `Dtypes.Simplify` | cartoreader_lite/low_level/utils.py:150-162 | It succeeds iff every column converts; a failure names a column that does not |
| `Dtypes.SimplifyColumns` | cartoreader_lite/low_level/utils.py:150-162 | Names and order are kept. Listed columns get the mapped type. Unlisted float64 columns become float32 only with `double_to_float`. All others are unchanged. Well-formedness is preserved |
| `Dtypes.SimplifyTestFrame` | tests/test_utils.py:11-18 | The unit-test frame becomes `a: float16`, `b: float32` and `c` unchanged |
| `Dtypes.DataFrame.constructor` | cartoreader_lite/low_level/utils.py:150-152 | A frame holds the given columns |
| `Dtypes.DataFrame.Copy` | cartoreader_lite/low_level/utils.py:152 | `df.copy()` is a fresh frame with the same columns |
| `Dtypes.DataFrame.SetColumn` | cartoreader_lite/low_level/utils.py:157 | `df[k] = …` replaces column `k` and nothing else |
| `Dtypes.SimplifyDataframeDtypes` | cartoreader_lite/low_level/utils.py:150-162 | The loop yields `Simplify` of the old columns. In place, the caller's frame is the result; with `inplace=False` it is unchanged and the result is fresh |
| `Dtypes.DtypeSimplifyDictContents` | cartoreader_lite/high_level/study.py:17-23 | Exactly the six names are mapped: `ChannelID` to int16 (its second entry wins) and all others to int8 |
| `Dtypes.DropYZ` | cartoreader_lite/low_level/utils.py:233 | Exactly the columns other than `Y` and `Z` remain |
| `Dtypes.XyzToPosVec` | cartoreader_lite/low_level/utils.py:228-235 | It fails iff one of `X`, `Y`, `Z` is missing |
| `Dtypes.XyzToPosVecColumns` | cartoreader_lite/low_level/utils.py:232-235 | `Y`, `Z` are dropped, `X`'s position holds an object column named `pos_label`, and every other column is kept in place |
| `Dtypes.XyzToPosVecRows` | cartoreader_lite/low_level/utils.py:232-234 | Row `j` of the new column is the list `[x_j, y_j, z_j]` of the row's coordinates |
| `Dtypes.XyzToPosVecWellFormed` | cartoreader_lite/low_level/utils.py:228-235 | The result is well formed with the same row count, when no column is already named `pos_label` |
| `TimeUnify.LatestStart` | cartoreader_lite/low_level/utils.py:217 | The window start is the maximum over the tables of each table's minimum time |
| `TimeUnify.EarliestEnd` | cartoreader_lite/low_level/utils.py:217 | The window end is the minimum over the tables of each table's maximum time |
| `TimeUnify.CeilDiv` | cartoreader_lite/low_level/utils.py:220 | `int(np.ceil(a / b))`, stated against real division |
| `TimeUnify.Arange` | cartoreader_lite/low_level/utils.py:221 | `np.arange`: `max(0, ceil(span/step))` samples `start + k·step` |
| `TimeUnify.Grid` | cartoreader_lite/low_level/utils.py:219-224 | A grid that passes the size assertion has `ceil(span/interval)+1` samples |
| `TimeUnify.GridShape` | cartoreader_lite/low_level/utils.py:219-224 | For a non-empty window the grid has `ceil(span/interval)+1` samples. It starts at the window start and ends exactly at the window end. It is `start + k·interval` before the end and strictly increasing, and its last gap lies in `(0, interval]` |
| `TimeUnify.GridReversedWindow` | cartoreader_lite/low_level/utils.py:219-224 | For a reversed window, the assertion fails iff `span ≤ -2·interval`. Otherwise the grid is empty, or just `[end]` when `-interval < span < 0` |
| `TimeUnify.GridInWindow` | cartoreader_lite/low_level/utils.py:217-224 | Every grid sample lies inside the window |
| `TimeUnify.Nearest` | cartoreader_lite/low_level/utils.py:167-169 | The nearest sample to a query time, the first among equally near ones |
| `TimeUnify.RoundHalfEven` | cartoreader_lite/low_level/utils.py:175 | `np.round`: within 0.5 of the input, and even on ties |
| `TimeUnify.RoundHalfEvenUnique` | cartoreader_lite/low_level/utils.py:175 | These two properties determine the rounded value |
| `TimeUnify.Resample` | cartoreader_lite/low_level/utils.py:164-177 | A resampled column keeps name and dtype and has one value per grid point |
| `TimeUnify.ResamplePolicy` | cartoreader_lite/low_level/utils.py:164-177 | Object columns take the value of a nearest sample. Integer columns take the interpolant rounded half to even and cast back to the column width: the value fits the width, is congruent to the rounded value modulo `2^bits`, and lies within 0.5 of the interpolant whenever the rounded value fits. Float columns take the interpolant |
| `TimeUnify.ResampleTyped` | cartoreader_lite/low_level/utils.py:173-175 | Resampling keeps values of the column's dtype (integers stay whole) |
| `TimeUnify.SplineError` | cartoreader_lite/low_level/utils.py:171 | Building a quadratic `interp1d` fails iff the times repeat or there are fewer than 3; repeated times are reported first |
| `TimeUnify.TableFitError` | cartoreader_lite/low_level/utils.py:180-186 | A table's interpolants fail to build iff it has a numeric column and its times fail the spline checks; object columns use a tree, which never fails |
| `TimeUnify.FitError` | cartoreader_lite/low_level/utils.py:180-186 | The interpolant loop fails iff some table fails, reporting the first such table |
| `TimeUnify.Evaluate` | cartoreader_lite/low_level/utils.py:199-201 | Calling an interpolant succeeds iff the column is object-typed or every grid time lies within the sample times; it then gives `Resample`. Below the range is reported before above it |
| `TimeUnify.ItemOf` | cartoreader_lite/low_level/utils.py:199-201 | A table contributes nothing iff it lacks the name; otherwise its column evaluated at the grid, or the evaluation error |
| `TimeUnify.BuildInterpolants` | cartoreader_lite/low_level/utils.py:180-186 | The interpolant loop fails exactly with `FitError`; otherwise it gives each table a dictionary keyed by exactly its column names, each holding that column |
| `TimeUnify.BuildTable` | cartoreader_lite/low_level/utils.py:182-186 | The inner loop fails exactly with the table's `TableFitError`, or gives its dictionary of interpolants |
| `TimeUnify.InterpolantsByPosition` | cartoreader_lite/low_level/utils.py:182-186 | A dictionary filled column by column with distinct names holds, for every name, exactly the column of that name |
| `TimeUnify.Compare` | cartoreader_lite/low_level/utils.py:202-203 | Two holders agree iff neither is an object column and they are `allclose` with rtol 0.1 |
| `TimeUnify.MergeColumnNone` | cartoreader_lite/low_level/utils.py:199-200 | A name gets no column iff no table holds it |
| `TimeUnify.MergeColumn` | cartoreader_lite/low_level/utils.py:198-205 | A merged column is always the sampled column of one of the tables (`MergeColumnSpec` says which) |
| `TimeUnify.MergeColumnFailedFirst` | cartoreader_lite/low_level/utils.py:199-201 | If the first holder's column cannot be evaluated, the merge fails with that error |
| `TimeUnify.MergeColumnSpec` | cartoreader_lite/low_level/utils.py:198-205 | The merged column is the first holder's. It fails iff some later holder disagrees, and then reports the first disagreeing one |
| `TimeUnify.MergeColumnKept` | cartoreader_lite/low_level/utils.py:198-205 | The first holder's column is kept exactly when every later holder's column is numeric and close to it. |
| `TimeUnify.MergeColumnFails` | cartoreader_lite/low_level/utils.py:198-205 | A failed merge reports the error of the first later holder that disagrees; all holders before it agree. |
| `TimeUnify.CollectSpec` | cartoreader_lite/low_level/utils.py:198-205 | The merge succeeds iff every name merges; otherwise the first failing name's error is reported |
| `TimeUnify.AllNames` | cartoreader_lite/low_level/utils.py:194 | The names of all columns of all tables |
| `TimeUnify.OtherNames` | cartoreader_lite/low_level/utils.py:196 | The sorted, duplicate-free names other than the time key |
| `TimeUnify.Interpolate` | cartoreader_lite/low_level/utils.py:179-208 | A merged table has the time column and one column per other name (`InterpolateShape` and the lemmas after it say more) |
| `TimeUnify.InterpolateMerged` | cartoreader_lite/low_level/utils.py:196-205 | A successful merge had no interpolant failure, and column `k+1` is the merge outcome of the `k`-th other name |
| `TimeUnify.InterpolateShape` | cartoreader_lite/low_level/utils.py:196-207 | The result exists iff every name merges; it then has the time key first holding the grid, then one column per other name |
| `TimeUnify.InterpolateNames` | cartoreader_lite/low_level/utils.py:196-198 | Column `k+1` is named by the `k`-th sorted other name |
| `TimeUnify.InterpolateColumn` | cartoreader_lite/low_level/utils.py:198-205 | Column `k+1` is the first holder's resampled column |
| `TimeUnify.InterpolateWellFormed` | cartoreader_lite/low_level/utils.py:194-207 | The merged table is well formed, with one row per grid point and the time key |
| `TimeUnify.MergeName` | cartoreader_lite/low_level/utils.py:199-205 | The inner merge loop over tables gives `MergeColumn` of that name |
| `TimeUnify.MergeNames` | cartoreader_lite/low_level/utils.py:198-205 | The outer merge loop over the names gives the outer loop's closed form, `Collect`, of every name's inner-loop outcome. |
| `TimeUnify.InterpolateTimeData` | cartoreader_lite/low_level/utils.py:179-208 | The imperative `interpolate_time_data` returns exactly `Interpolate` |
| `TimeUnify.Unify` | cartoreader_lite/low_level/utils.py:212-226 | A result requires `domain == "intersection"`, at least one table, the time key in every table (integer, non-empty) and a non-zero interval; `UnifyWindow` then gives the result |
| `TimeUnify.UnifyWindow` | cartoreader_lite/low_level/utils.py:216-226 | For a non-empty intersection the grid exists and the result is `Interpolate` on it; every sample lies within every table's time range, so no column of any table fails to evaluate. This specifies `UnifySources` |
| `TimeUnify.InBoundsNeverFails` | cartoreader_lite/low_level/utils.py:201 | A grid within every table's time range never makes an interpolant call fail |
| `TimeUnify.UnifyWellFormed` | cartoreader_lite/low_level/utils.py:212-226 | The unified table is well formed and has the time key |
| `TimeUnify.UnifySourcesWellFormed` | cartoreader_lite/low_level/utils.py:216-226 | The same, stated on the tables' time series |
| `TimeUnify.UnifyTimeData` | cartoreader_lite/low_level/utils.py:212-226 | The imperative `unify_time_data` returns exactly `Unify` |
| `TimeUnify.UnifySourcesData` | cartoreader_lite/low_level/utils.py:216-226 | The grid computation and merge steps return `UnifySources` |
| `Visitags.HeadShape` | cartoreader_lite/low_level/visitags.py:9-11 | `Head` (the common prefix `^\s+(\w+)=\s+`) implies leading whitespace, a word key, `=` right after it, then whitespace |
| `Visitags.HeadOfShape` | cartoreader_lite/low_level/visitags.py:9-11 | Conversely, a line of whitespace, a word key, `=`, whitespace and a value has that key as its head, the value starting after the whitespace |
| `Visitags.HeadKey` | cartoreader_lite/low_level/visitags.py:9-11 | The key sits after at least one leading whitespace character and consists of word characters only |
| `Visitags.HeadSeparator` | cartoreader_lite/low_level/visitags.py:9-11 | The key is followed by `=` and then by a whitespace character |
| `Visitags.ClassifyOrder` | cartoreader_lite/low_level/visitags.py:18-22 | The patterns are tried in the order integer, float, word; the first match wins (`ClassifyLine`) |
| `Visitags.WordToken` | cartoreader_lite/low_level/visitags.py:11 | The `\w+` value is a non-empty run of word characters |
| `Visitags.FloatImpliesInt` | cartoreader_lite/low_level/visitags.py:9-10 | Whenever the float pattern matches, the unanchored integer pattern matches with the same key (`FloatToken` implies `IntToken`) |
| `Visitags.NeverFloat` | cartoreader_lite/low_level/visitags.py:18-22 | No line is ever stored as a float |
| `Visitags.FractionStoredAsInt` | cartoreader_lite/low_level/visitags.py:9-22 | ` a= 1.5` is stored as the integer 1 |
| `Visitags.ParseMiscKeys` | cartoreader_lite/low_level/visitags.py:17-22 | The keys are exactly those of lines that match some pattern; other lines are ignored (`ParseMisc`) |
| `Visitags.ParseMiscLastWins` | cartoreader_lite/low_level/visitags.py:21 | A key holds the value of its last matching line |
| `Visitags.ParseMiscVisitagData` | cartoreader_lite/low_level/visitags.py:13-24 | The loop with its first-match `break` computes `ParseMisc` |
| `Visitags.ParseVisitagFile` | cartoreader_lite/low_level/visitags.py:26-30 | A table is returned as is, and a parser error falls back to the key=value dictionary. Only another CSV error fails |
| `Visitags.ParseAllSpec` | cartoreader_lite/low_level/visitags.py:32-38 | The results are in input order, one per file; the first failing file is reported |
| `Visitags.ParseAll` | cartoreader_lite/low_level/visitags.py:32-38 | One result per path |
| `Visitags.ParseVisitagFiles` | cartoreader_lite/low_level/visitags.py:32-38 | The (sequential) collection loop computes `ParseAll` |
| `Visitags.BasenameJoin` | cartoreader_lite/low_level/visitags.py:46-49 | The basename of `os.path.join(root, file)` is `file` |
| `Visitags.StemOfTxt` | cartoreader_lite/low_level/visitags.py:45-49 | The stem of a joined `.txt` file is the file name without `.txt` |
| `Visitags.TxtNameStem` | cartoreader_lite/low_level/visitags.py:45-49 | A file name ending in `.txt` (not all dots before it) has the name minus `.txt` as its stem (`NameStem`) |
| `Visitags.TxtFilesMembers` | cartoreader_lite/low_level/visitags.py:43-46 | The collected paths are exactly the joins of the walked files ending in `.txt` (`TxtFiles`) |
| `Visitags.TxtFilesSound` | cartoreader_lite/low_level/visitags.py:43-46 | Every collected path is the join of a walked directory with one of its `.txt` files |
| `Visitags.TxtFilesComplete` | cartoreader_lite/low_level/visitags.py:43-46 | Every walked file ending in `.txt` is collected, joined with its directory |
| `Visitags.TxtFilesAreTxt` | cartoreader_lite/low_level/visitags.py:45 | Every collected path ends in `.txt` |
| `Visitags.StemMap` | cartoreader_lite/low_level/visitags.py:49 | The keys are exactly the stems of the paths |
| `Visitags.StemMapLastWins` | cartoreader_lite/low_level/visitags.py:49 | A stem maps to the data of its last path |
| `Visitags.CollectTxtFiles` | cartoreader_lite/low_level/visitags.py:42-46 | The walk loop appends exactly `TxtFiles` |
| `Visitags.ReadVisitagDir` | cartoreader_lite/low_level/visitags.py:40-50 | The directory reader returns exactly `VisitagDir` |
| `PointDetail.NumberTokenParses` | cartoreader_lite/high_level/study.py:137 | A matched token always converts with `float` |
| `PointDetail.NumberTokenMaximal` | cartoreader_lite/high_level/study.py:70 | The `-?\d+\.?\d*` token is the longest prefix of the text the pattern matches as a whole, and none exists iff no prefix matches |
| `PointDetail.GainOfIff` | cartoreader_lite/high_level/study.py:70 | `GainOf` finds gain `g` iff the line is blanks, the label, blanks, `=`, blanks and a number of value `g` |
| `PointDetail.GainOfShape` | cartoreader_lite/high_level/study.py:136-137 | A line of that shape yields the value of the number its text starts with |
| `PointDetail.GainAnchored` | cartoreader_lite/high_level/study.py:70 | The pattern is anchored: a line starting with another non-space character has no gain |
| `PointDetail.GainExample` | cartoreader_lite/high_level/study.py:136-137 | `Raw ECG to MV (gain) = 0.5` gives gain 0.5 |
| `PointDetail.Matching` | cartoreader_lite/high_level/study.py:145 | The indices of exactly the columns that begin with `label(digits)`, in increasing order |
| `PointDetail.LeadIndices` | cartoreader_lite/high_level/study.py:145-147 | The twelve leads are found iff each label matches exactly one column, giving that column |
| `PointDetail.LeadIndicesExact` | cartoreader_lite/high_level/study.py:145-147 | The chosen column matches its lead and is the only one that does |
| `PointDetail.LabelsExclusive` | cartoreader_lite/high_level/study.py:71-72 | No column matches two different lead labels |
| `PointDetail.LeadsDistinct` | cartoreader_lite/high_level/study.py:145-147 | Different leads take different columns |
| `PointDetail.Remaining` | cartoreader_lite/high_level/study.py:149 | The EGM columns are exactly the unchosen indices, in original order |
| `PointDetail.SplitPartition` | cartoreader_lite/high_level/study.py:147-149 | Every column is in exactly one of surface ECG and EGM |
| `PointDetail.EgmLabel` | cartoreader_lite/high_level/study.py:73 | The label is the longest newline-free prefix followed by `(digits)`, with anything allowed after it (`.match` is not end-anchored), or none |
| `PointDetail.EgmLabelSingleParen` | cartoreader_lite/high_level/study.py:154 | With one `(` in the column, the stripped label has none |
| `PointDetail.StripEgm` | cartoreader_lite/high_level/study.py:154 | It succeeds iff every EGM column has a suffix, renaming each; otherwise the first column without one is reported |
| `PointDetail.Relabel` | cartoreader_lite/high_level/study.py:153 | The surface columns take the twelve canonical labels, samples unchanged |
| `PointDetail.SplitEcgOutcome` | cartoreader_lite/high_level/study.py:141-154 | Out-of-int16 data fails first, then missing or ambiguous leads; it succeeds iff neither occurs and (when stripping) every EGM column has a suffix. This specifies `SplitEcg`, with `FitsInt16` as the int16 assertion |
| `PointDetail.StripPicked` | cartoreader_lite/high_level/study.py:152-154 | Stripping channel numbers from the remaining ECG channels succeeds iff every one of them carries an electrogram number |
| `PointDetail.SplitEcgSamples` | cartoreader_lite/high_level/study.py:142-149 | The surface ECG is the twelve matched columns in lead order, and the EGM is the rest in order, samples unchanged and within int16 |
| `PointDetail.SplitEcgNames` | cartoreader_lite/high_level/study.py:147-154 | Stripping gives exactly the canonical labels and the stripped EGM labels; otherwise the names are the original ones |
| `PointDetail.ContactForce` | cartoreader_lite/high_level/study.py:128-131 | The contact force is present iff the reader gave one. Its metadata is kept unchanged. Its table keeps its column names, and only a column that does not cast makes it fail |
| `PointDetail.AssembleOutcome` | cartoreader_lite/high_level/study.py:105-154 | The record fails on contact-force, gain or split failure, in that order. On success it carries the metadata, the force data (its metadata unchanged, its table downcast), the gain, the ECG metadata unchanged and the split. This specifies `Assemble` in terms of `ContactForce`, `GainOf` and `SplitEcg` |
| `PointDetail.CartoPointDetailData.constructor` | cartoreader_lite/high_level/study.py:105-154 | The fields hold the assembled values |
| `PointDetail.CartoPointDetailData.Create` | cartoreader_lite/high_level/study.py:105-154 | A valid fresh point whose record is `Assemble`, or `Assemble`'s error |
| `PointDetail.CartoPointDetailData.MainPointRow` | cartoreader_lite/high_level/study.py:156-163 | The row holds all eleven attributes of `pd_attrs` (id, position, catheter orientation and id, WOI, start time, reference and map annotation, unipolar and bipolar voltage, connectors) and the point itself as `detail` |
| `PointDetail.AssembledRow` | cartoreader_lite/high_level/study.py:156-163 | The row of a point built by `Assemble` from a main row and raw data holds that main row's fields, the metadata's WOI, times, annotations and voltages, the connectors, and the point |
| `CartoMaps.OutcomesAt` | cartoreader_lite/high_level/study.py:194 | Point `k` is built from the `k`-th main row and the `k`-th raw data (zip) |
| `CartoMaps.AssemblePoints` | cartoreader_lite/high_level/study.py:194 | As many records as the shorter of the two zipped inputs |
| `CartoMaps.AssemblePointsOk` | cartoreader_lite/high_level/study.py:194 | With all points built, point `k` is `Assemble` of pair `k` |
| `CartoMaps.AssemblePointsErr` | cartoreader_lite/high_level/study.py:194 | A failure is the first failing pair's error |
| `CartoMaps.BuildPoints` | cartoreader_lite/high_level/study.py:194-195 | The loop builds fresh, valid points whose records are `AssemblePoints`, or returns its error |
| `CartoMaps.BuildPoint` | cartoreader_lite/high_level/study.py:194 | One loop step builds point `i` or returns its error |
| `CartoMaps.WoiMask` | cartoreader_lite/high_level/study.py:198-200 | Row `i` is kept iff `woi[0]+ref ≤ lat ≤ woi[1]+ref` |
| `CartoMaps.Kept` | cartoreader_lite/high_level/study.py:202-203 | The kept indices are exactly the masked ones, increasing |
| `CartoMaps.FilterKept` | cartoreader_lite/high_level/study.py:202-203 | Filtering keeps exactly the masked elements, in order, re-indexed from 0 |
| `CartoMaps.FilterAligned` | cartoreader_lite/high_level/study.py:202-203 | The same mask keeps the table row and the point object of each kept point together |
| `CartoMaps.FilterKeepsValid` | cartoreader_lite/high_level/study.py:197-203 | A point survives the filter iff its LAT lies in its shifted WOI |
| `CartoMaps.WoiExample` | cartoreader_lite/high_level/study.py:198-200 | WOI [-50, 50] with reference 1000 keeps exactly LAT in [950, 1050] |
| `CartoMaps.ParseMatrixShape` | cartoreader_lite/high_level/study.py:210 | `ParseMatrix` gives an affine iff the text has at least 16 words, the first 16 are plain decimals, and a 17th word, if any, is not one (numpy stops reading there). Other float forms are listed under "## Left out" |
| `CartoMaps.NumberPrefix` | cartoreader_lite/high_level/study.py:210 | The leading words that are plain decimals, up to the first word that is not one; `np.fromstring(sep=" ")` stops at the first text it cannot read as a number |
| `CartoMaps.ParseMatrixRowMajor` | cartoreader_lite/high_level/study.py:210 | Entry `(i, j)` of the 4×4 affine is the number at position `4i+j` |
| `CartoMaps.IntField` | cartoreader_lite/high_level/study.py:211-212 | A metadata integer is read iff the key exists and parses, otherwise missing or not-an-integer |
| `CartoMaps.MeshChecksOk` | cartoreader_lite/high_level/study.py:210-212 | The mesh checks pass iff `Matrix` parses and `NumVertex` and `NumTriangle` equal the mesh's point and cell counts (`MeshChecks`), and give the parsed affine |
| `CartoMaps.MapOutcomeSpec` | cartoreader_lite/high_level/study.py:190-212 | For `MapOutcome`: a map with no main rows gets an empty list. Point failures are fatal, and filtering with no raw points is `NoPointColumns`. With the filter only points inside the WOI remain; without it, all built points remain. `MeshChecks` decides the rest, and the affine is `ParseMatrix` of `Matrix` |
| `CartoMaps.CartoMap.constructor` | cartoreader_lite/high_level/study.py:190-205 | A new map holds its name and both point lists |
| `CartoMaps.CartoMap.NrPoints` | cartoreader_lite/high_level/study.py:225-227 | `nr_points` is the number of points |
| `CartoMaps.CartoMap.DiscardInvalidPoints` | cartoreader_lite/high_level/study.py:197-203 | Both point lists are filtered in place by the same WOI mask of the table rows; nothing else changes and the map stays valid |
| `CartoMaps.CartoMap.SetMesh` | cartoreader_lite/high_level/study.py:209-212 | Only the mesh fields change |
| `CartoMaps.CartoMap.WithPoints` | cartoreader_lite/high_level/study.py:190-205 | The point stage builds a valid map whose point objects carry the records of `PointsOutcome`, each showing its own row, or returns `PointsOutcome`'s error |
| `CartoMaps.CartoMap.Create` | cartoreader_lite/high_level/study.py:178-212 | `_simplify` yields a valid map matching `MapOutcome` (affine, counts, records, rows), or `MapOutcome`'s error |
| `CartoMaps.PointTable` | cartoreader_lite/high_level/study.py:193-195 | With a non-empty main table the unfiltered points carry the records of `PointsOutcome` without filtering, each with its own row, or the first point error; without one there are no points |
| `CartoMaps.FilterBoth` | cartoreader_lite/high_level/study.py:202-203 | Both lists are filtered by the same boolean mask and stay equally long |
| `CartoMaps.PointsOutcomeFiltered` | cartoreader_lite/high_level/study.py:193-203 | `PointsOutcome` with filtering: a point error is kept; no built point from a non-empty main table is an error (`np.stack` of nothing); otherwise the result is the built records at exactly the indices whose LAT lies in the shifted WOI, in order |
| `CartoMaps.MasksAgree` | cartoreader_lite/high_level/study.py:198-200 | The WOI mask computed on the table rows equals the one computed on the point records they show |
| `CartoMaps.FilteredRecordsAligned` | cartoreader_lite/high_level/study.py:202-203 | After a common filter the kept objects still carry the kept records and show the kept rows |
| `CartoMaps.RowsOf` | cartoreader_lite/high_level/study.py:195 | One table row per point object |
| `Ablation.RowsWith` | cartoreader_lite/high_level/study.py:57 | The rows of a session are exactly those with its key, in increasing order |
| `Ablation.SessionKeys` | cartoreader_lite/high_level/study.py:57 | Session keys exist iff the `Session` column does and holds integers |
| `Ablation.GroupBy` | cartoreader_lite/high_level/study.py:57 | Grouping fails iff there are no integer session keys |
| `Ablation.GroupByErrors` | cartoreader_lite/high_level/study.py:57 | A missing column is a `KeyError`; non-integer keys are rejected |
| `Ablation.GroupByKeys` | cartoreader_lite/high_level/study.py:57 | The group keys are strictly increasing and are exactly the distinct session values |
| `Ablation.GroupByGroup` | cartoreader_lite/high_level/study.py:57 | Each group is the non-empty selection of exactly the rows with its key, in order |
| `Ablation.GroupOfRow` | cartoreader_lite/high_level/study.py:57 | Every row lies in exactly one group, the one of its key |
| `Ablation.GroupKeyConstant` | cartoreader_lite/high_level/study.py:57 | Within a group the `Session` column holds its key |
| `Ablation.GroupWellFormed` | cartoreader_lite/high_level/study.py:59-62 | Each group is well formed with the table's column names |
| `Ablation.Lookup` | cartoreader_lite/high_level/study.py:54-64 | `visitag_data[key]` exists iff the key does |
| `Ablation.SimplifyFrame` | cartoreader_lite/high_level/study.py:64 | The downcast with the dtype table and no float narrowing; names are kept and well-formedness is preserved |
| `Ablation.SimplifiedSessions` | cartoreader_lite/high_level/study.py:60-62 | The downcast and grouped sessions are well formed with the table's names |
| `Ablation.FrameSessions` | cartoreader_lite/high_level/study.py:60-62 | The sessions of one named visitag table |
| `Ablation.RenameWellFormed` | cartoreader_lite/high_level/study.py:54 | Renaming `Time` keeps the table well formed when it cannot duplicate a name |
| `Ablation.UnifiedTimes` | cartoreader_lite/high_level/study.py:52-56 | The unified table of raw positions, ablation and renamed contact-force data is well formed and has `TimeStamp` |
| `Ablation.UnifiedSessionData` | cartoreader_lite/high_level/study.py:52-57 | The resampled branch gives well-formed sessions and no separate lists |
| `Ablation.SeparateSessionData` | cartoreader_lite/high_level/study.py:59-62 | The separate branch gives all three session lists |
| `Ablation.SessionData` | cartoreader_lite/high_level/study.py:52-62 | The ablation and force lists are absent iff resampling |
| `Ablation.SessionPositions` | cartoreader_lite/high_level/study.py:68 | It fails iff some session table lacks coordinates; otherwise each session keeps its key and gets its position vectors |
| `Ablation.SitesBranches` | cartoreader_lite/high_level/study.py:46-62 | `session_rf_data`/`session_force_data` stay `None` iff resampling |
| `Ablation.SitesNeedTables` | cartoreader_lite/high_level/study.py:54-64 | A success needs all four visitag tables (`Sites`) |
| `Ablation.SitesLookupOrder` | cartoreader_lite/high_level/study.py:54-60 | The first table read in each branch is the one reported missing |
| `Ablation.SitesPlain` | cartoreader_lite/high_level/study.py:57-64 | Without position vectors the average data is the downcast `Sites`, and session keys increase. Separate sessions have the raw-position names; unified ones have `TimeStamp` |
| `Ablation.SitesPositions` | cartoreader_lite/high_level/study.py:66-68 | With position vectors every table has `pos` and no `Y`/`Z`, and the session keys are unchanged |
| `Ablation.SitesWithPositions` | cartoreader_lite/high_level/study.py:64-68 | The record is the position-vector form of the average data and of every session table |
| `Ablation.PositionsReplaceXyz` | cartoreader_lite/low_level/utils.py:233-235 | After the collapse the table has `pos` and neither `Y` nor `Z` |
| `Ablation.AblationSites.constructor` | cartoreader_lite/high_level/study.py:49-68 | The four fields hold the given record |
| `Ablation.AblationSites.Create` | cartoreader_lite/high_level/study.py:49-68 | A fresh object whose fields are `Sites` of the input, or `Sites`'s error |

## Left out

- File I/O: `open`, `readlines`, `os.walk`, ElementTree XML reading (`read_point_data`, `read_connectors`, `xml_to_dataframe`), and saving or loading pickled studies. File contents, walks and parsed tables are inputs instead.
- `read_csv`: the model does its own tokenisation for `.mesh` sections (cut at `;`, split on whitespace, blank rows skipped; a longer row is a parser error, a shorter one is padded). Numeric type inference is left out: cells stay tokens, and the index column is compared as a decimal integer. For visitag files, the CSV outcome is an input.
- `MeshReader.ColumnCells`: a header name held by more than one column is reported as `DuplicateColumn`. pandas would return all of those columns; `np.stack` then fails unless all three names repeat equally, and `GroupID` would become a 2-D array.
- The `ThreadPoolExecutor` in `parse_visitag_files` is modelled as a sequential loop that keeps the input order.
- `scipy.interpolate.interp1d` (quadratic): its values come from an abstract `Interpolator` function, and its numerics are not modelled. Its errors are modelled as scipy raises them for `kind="quadratic"`: repeated times or fewer than 3 samples when the interpolant is built, and query times outside the samples when it is called. Object columns use the nearest-neighbour tree, which never fails.
- `TimeUnify.Resample`: casting a rounded value that does not fit the column's integer width is modelled as two's-complement wrap-around; numpy's cast of such values is platform-dependent, so `ResamplePolicy` promises the 0.5 bound only when the rounded value fits.
- `cKDTree` tie-breaking is unspecified; `TimeUnify.Nearest` takes the first nearest sample.
- Floating point: reals are exact. `np.allclose` is stated over reals with rtol 0.1 and numpy's default `atol`. Float16/32 rounding is not modelled.
- The pyvista/vtk mesh object is not built. `Mesh` keeps the arrays and the attribute header. `CartoMap` keeps only the mesh's point and cell counts, and a point-only mesh counts one cell per vertex.
- The `proj_pos`/`proj_dist` projection step (study.py lines 214-223) is foreign geometry code, and so is `postprocessing/geometry.py`.
- `CartoStudy` (constructor dispatch, zip and directory handling) and `low_level/study.py` are not part of this model.
- `CartoMaps.NumberPrefix`: the `Matrix` text is read word by word, and a word counts only as a plain decimal `-?\d+(\.\d*)?`. numpy's float scanner also reads exponents (`1e-05`), a leading `+`, `.5`, `nan` and `inf`, and reads the number at the start of a word glued to other text (`1.5x`). A `Matrix` written with those forms fails here with `BadMatrix`, where the source builds the map.
- `CartoMaps.ParseMatrixShape`: follows `NumberPrefix`, so its "plain decimals" excludes the float forms above.
- `Common.ParseInt` (used by `CartoMaps.IntField` for `int(...)`): digit-group underscores (`1_000`) and non-ASCII digits, which Python's `int` accepts, are rejected as not-an-integer.
- `convert_df_dtypes`/`to_numeric` are left out. The text casts of `simplify_dataframe_dtypes` parse plain decimal integers and reals only; exponent forms, `nan` and `inf` are not accepted.
- Character classes: Python's `str.isspace`, `\w`, `\d`, `.lower()` and `.title()` are modelled for ASCII. Other letters count as non-letters.
- `TimeUnify.Unify`: times must be integers and every table non-empty. An empty table is reported as `EmptyTable`. The source fails on it too, but at different points. If the empty table comes first, the `max`/`min` of the window start is NaN and the integer conversion of the span fails. Otherwise Python's `max`/`min` skip the NaN, and the source fails later, while building or calling that table's interpolants. A non-integer time column is reported as `NonIntegerTime`, where numpy would compute with it.
- `TimeUnify.Compare`: when several tables share an object-typed column, the merge is an error. This is the case where `np.allclose` raises on object arrays.
- `TimeUnify.Interpolate`: the tables of one call must have unique column names. pandas allows duplicates; the interpolant dictionary would keep the last.
- `Ablation.GroupBy`: only integer session keys are grouped, and other key types are reported as `NonIntegerSession`. The way `groupby` drops NaN keys is not modelled.
- `Ablation.UnifiedTimes`: a contact-force table holding both `Time` and `TimeStamp` is reported as `TimeColumnClash`, where pandas would duplicate the name. The check happens after the lookups of `RawPositions` and `AblationData`, so a missing table is still reported first, as in the source.
- `Ablation.AblationSites.Create`: the input tables must be well formed (unique names, equal lengths, typed values). The in-place downcast of the caller's tables by `simplify_dataframe_dtypes(..., inplace=True)` is not modelled; the model returns new tables.
- `PointDetail.CartoPointDetailData.Create`: the contact-force metadata and the ECG metadata are carried as opaque lists of strings (`Metadata`), uninterpreted. `float`/`int` conversions of the XML fields are taken as already done.
- pandas index handling beyond the `reset_index(drop=True)` renumbering is not modelled; positional order stands for the index.
