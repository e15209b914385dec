# NoFireWithAI grid and feature layer, in Dafny

This project models the deterministic core of the NoFireWithAI wildfire competition
code. That core is:

- the 0.2° grid that every table is keyed by, and the NaN-aware pooling over it;
- the class registry and the name rule it uses;
- the populated-place preparation;
- the two feature orchestrators, which fold calcer outputs with relational merges on
  `(dt, grid_index)`;
- the named-table store;
- the competition score;
- the target transform and prediction fix of the baseline pipeline;
- the "more than one distinct value" feature selector.

Each source file is one module:

| module | file | what it holds |
|---|---|---|
| `Grid` | `grid.dfy` | grid constants, `set_grid_index` as a method on an in-place `DataFrame` |
| `Pooling` | `pooling.dfy` | `make_pooling` over an array, with a generic reducer |
| `Naming` | `naming.dfy` | `camel2snake` |
| `FeaturiseBase` | `featurise_base.dfy` | calcer keys and `GeoBaseCalcer.prepare_data` |
| `Registry` | `repository.dfy` | `Repository` as a class over a `map` field |
| `Featurising` | `featuriser.dfy` | the current `Featuriser` |
| `LegacyFeaturising` | `legacy_featuriser.dfy` | the earlier `Featuriser` of `featurise/__init__.py` |
| `Warehouse` | `engine.dfy` | `Engine` |
| `Metrics` | `metrics.dfy` | `competition_metric` |
| `Pipelines` | `pipelines.dfy` | `BaselinePipeline` |
| `Selectors` | `selectors.dfy` | `DummySelector` |

`Wrappers` (Option and Result) and `Tables` (cell values, rows, the exceptions the code
raises, frames keyed by `(dt, grid_index)` and the outer, left and inner merges) are
shared by all of them.

Objects whose fields the source updates are classes with `modifies` clauses:

- `Engine`, `Repository`, `DataFrame`, `Args` (a mutable argument dictionary that may be
  shared between calls);
- both featurisers, `BaselinePipeline` and `DummySelector`.

Pure expression chains are functions. Each method is proved against a specification
function, and lemmas state the source's promises about that function.

Code this layer cannot see becomes a parameter:

- a calcer's `compute`, which in the current featuriser returns a frame or raises;
- an estimator's `predict_proba` and `predict`;
- floating-point `**` and `round`;
- reflection (the modules, their classes, and the modules whose import raises).

Coordinates are exact rationals (`real`), so division by the 0.2 step is exact.

The model follows the code where the code and its design disagree:

- `camel2snake` keeps a `Calcer` suffix (`DateFeaturesCalcer` becomes
  `date_features_calcer`).
- `register` silently overwrites an existing entry.
- `set_grid_index` truncates toward zero and has no bounds check. A point east of the box
  aliases into the next row, and a point just west of it lands in column 0.
- The population sort may be unstable. The per-cell maximum is proved for every
  descending permutation, so it holds for whatever order the sort produces.
- `featurise/__init__.py` names three classes that `calcers.py` does not define (see
  Findings). Importing that package therefore raises, and so does `Repository()`, whose
  scan imports it first, and so does registering by path any class of a module inside
  that package, since `import_module` imports the parent packages first.

## Model

| member | source | states |
|---|---|---|
| Grid.Ceil | competition/utils.py:23-24 | the result is the least integer not below its argument |
| Grid.Trunc | competition/utils.py:33-34 | `astype(int)` truncates toward zero: for a non-negative value the result is its floor, for a negative value its ceiling |
| Grid.Arange | competition/utils.py:30 | each element is `start + i*step` and lies below `stop`, and the next step would reach `stop` |
| Grid.ArangeStep | competition/utils.py:30-32 | the arange length is the ceiling of `(stop-start)/step`: index `i` is below `stop` exactly when `i` is below that ceiling |
| Grid.GridShape | competition/utils.py:16-24 | the grid is 203 rows by 750 columns, and `len(arange(lon_min, lon_max, step))` is also 750 |
| Grid.ColumnOf | competition/utils.py:33 | `col_i`: the number of 0.2° steps from 19°E to the longitude, truncated toward zero |
| Grid.RowOf | competition/utils.py:34 | `row_i`: the number of 0.2° steps from 41°N to the latitude, truncated toward zero |
| Grid.CellId | competition/utils.py:30-36 | `row_i * col_n + col_i` with `col_n` the 750 grid columns, with no bounds check |
| Grid.RowMajorDecomposes | competition/utils.py:36 | for `0 <= col < width` and `row >= 0`, `row*width + col` divided by `width` gives back `row`, and the remainder gives back `col` |
| Grid.InBoxCoordinates | competition/utils.py:33-34 | a point inside the box has its column in `[0, 750)` and its row in `[0, 203)` |
| Grid.CellIdInRange | competition/utils.py:36 | a point inside the box gets an id in `[0, 203*750)`; the id divided by 750 gives its row and the remainder its column |
| Grid.CellIdInjective | competition/utils.py:33-36 | inside the box, two points share an id exactly when they share a row and a column |
| Grid.CellRectangle | competition/utils.py:33-36 | inside the box, a point has id `id` exactly when it lies in that id's 0.2° by 0.2° rectangle |
| Grid.SameCell | competition/utils.py:33-36 | inside the box, a point has id `id` exactly when its row is `id / 750` and its column `id % 750` |
| Grid.StepInterval | competition/utils.py:33-34 | from a non-negative offset, truncating `(v - origin)/0.2` gives `k` exactly when `v` lies in the `k`-th 0.2° step from `origin` |
| Grid.NearMissTruncatesToZero | competition/utils.py:33 | a longitude less than one step west of the box truncates to column 0 |
| Grid.EastOverflowAliases | competition/utils.py:33-36 | a longitude less than one step east of the box gets the id of the point 150° west in the next row up |
| Grid.SouthOfBoxNegative | competition/utils.py:34-36 | a point at least one step south of the box gets a negative id |
| Grid.NoLongitudeNormalisation | competition/utils.py:33 | -10° and 350° get different ids |
| Grid.CastColumn | competition/utils.py:33 | one column's subtraction and cast: TypeError exactly when some cell is present but not a number, otherwise ValueError for a NaN; nothing exactly when every cell is a number |
| Grid.GridIndexError | competition/utils.py:33-34 | KeyError for a missing longitude column; TypeError for any text longitude, else ValueError for a NaN one; then the same for the latitude column; nothing exactly when both columns exist and every cell is a number |
| Grid.LongitudeFirst | competition/utils.py:33-34 | a NaN longitude is reported even when some latitude is text: the longitude column is cast in full first |
| Grid.SetGridIndex | competition/utils.py:27-36 | raises exactly what `GridIndexError` names and then leaves the frame unchanged; otherwise each row gains `grid_index` from its own coordinates, the column is added once, and nothing else changes |
| Pooling.Window | competition/utils.py:49-59 | the window of output cell `(r, c)` is `k` by `k`, and its entry `(a, b)` is the input at `(r - k/2 + a, c - k/2 + b)`, NaN outside the grid |
| Pooling.FitToLength | competition/utils.py:42-47 | the buffer has exactly the grid's length: it starts with the input and is NaN-padded at the end or truncated |
| Pooling.PoolCell | competition/utils.py:61-63 | output cell `(r, c)`: NaN when its window holds no value, otherwise `func` over the window's values |
| Pooling.Pooled | competition/utils.py:49-63 | the pooled grid has one cell per grid cell, row-major, each the pooled value of its window |
| Pooling.MakePooling | competition/utils.py:39-65 | returns a fresh array of length 203*750 whose contents are the pooled grid of the fitted input buffer |
| Pooling.WindowCentred | competition/utils.py:49-59 | for odd `k` the window's middle entry is the cell itself, and its corners are `k/2` rows and columns away |
| Pooling.RowValuesExact | competition/utils.py:63 | the values the reducer sees in one window row are exactly that row's non-NaN entries |
| Pooling.ValuesExact | competition/utils.py:61-63 | the values the reducer sees are exactly the window's non-NaN entries; there are some exactly when the window has a non-NaN entry |
| Pooling.PoolCellMissingIff | competition/utils.py:61-63 | an output cell is NaN exactly when every entry of its window is NaN |
| Pooling.MissingNeighbour | competition/utils.py:49-52 | in an all-NaN grid every window entry is NaN, padding included |
| Pooling.AllMissingStaysMissing | competition/utils.py:61-63 | an all-NaN grid pools to an all-NaN grid |
| Pooling.KernelOneIdentity | competition/utils.py:49-63 | with `k = 1` and a reducer that returns the only element of a singleton, pooling is the identity |
| Pooling.MaxOf | competition/utils.py:63 | a `nanmax` reducer: the result is an element of a non-empty input and bounds every element from above |
| Pooling.MinOf | competition/utils.py:63 | a `nanmin` reducer: the result is an element of a non-empty input and bounds every element from below |
| Pooling.KernelOneMaxMinIdentity | competition/utils.py:61-63 | with `k = 1`, max- and min-pooling return the input unchanged |
| Pooling.MaxPoolDominates | competition/utils.py:61-63 | max-pooling is defined wherever the window holds a value, and is at least every value in the window |
| Pooling.MaxPoolAtLeastSelf | competition/utils.py:49-63 | for odd `k`, a cell that holds a value pools to at least that value |
| Naming.LowerChar | competition/utils.py:69 | ASCII `lower()` on one character: an uppercase letter moves down by 32, and every other character is unchanged |
| Naming.Lower | competition/utils.py:69 | `lower()` applies the character rule position by position |
| Naming.SnakeTail | competition/utils.py:69 | the tail rule leaves no uppercase letter |
| Naming.Camel2Snake | competition/utils.py:68-69 | the result has no uppercase letter and starts with the lowered first character (no underscore at position 0) |
| Naming.DropUnderscoresAppend | competition/utils.py:69 | deleting underscores distributes over concatenation |
| Naming.SnakeTailAppend | competition/utils.py:69 | the substitution works character by character, so it distributes over concatenation |
| Naming.SnakeTailWord | competition/utils.py:69 | a capitalised word after the first position becomes `_` plus the word lowered |
| Naming.SnakeTailFacts | competition/utils.py:69 | exactly one underscore is inserted per uppercase letter, and deleting underscores gives `lower()` |
| Naming.Camel2SnakeInsertsOnly | competition/utils.py:68-69 | deleting underscores from the result gives the lowered name with its own underscores deleted, and the length grows by the number of uppercase letters after position 0 |
| Naming.SnakeTailOfLower | competition/utils.py:69 | text without uppercase letters is unchanged |
| Naming.Camel2SnakeIdempotent | competition/utils.py:68-69 | applying the rule twice is applying it once |
| Naming.Camel2SnakeAppend | competition/utils.py:68-69 | the name of `w + suffix` is the name of `w` followed by the suffix's tail |
| Naming.CalcerSuffixKept | competition/utils.py:68-69 | `XCalcer` becomes `x_calcer`: the suffix is kept, not stripped |
| FeaturiseBase.KeyRow | competition/featurise/base.py:12 | a key's row has exactly the columns `dt` and `grid_index` |
| FeaturiseBase.KeyRoundTrip | competition/featurise/base.py:12 | a key read back from its key columns is the same key, whatever other columns the row has; a row without key columns has no key |
| FeaturiseBase.ShiftLongitudeFacts | competition/featurise/base.py:33 | a negative longitude gains 360 and others are unchanged; on [-180, 180) the result is in [0, 360) and the map is one-to-one |
| FeaturiseBase.ShiftedWestStaysOutsideBox | competition/featurise/base.py:33 | a western longitude shifted by 360 is still outside the grid box |
| FeaturiseBase.BeforeParen | competition/featurise/base.py:39 | the result is the prefix before the first `(` |
| FeaturiseBase.RemoveSpaces | competition/featurise/base.py:40 | the result has no space and only characters of the input |
| FeaturiseBase.ParseInt | competition/featurise/base.py:41 | Python's `int()` on text: Python's whitespace around, an optional sign, ASCII digits with single underscores; every failure is a ValueError naming the text |
| FeaturiseBase.UnicodeBlanks | competition/featurise/base.py:41 | a no-break space and an ideographic space around a numeral are stripped; the ASCII separator U+001C is not |
| FeaturiseBase.ToInt64 | competition/featurise/base.py:41 | storing into `int64`: the value itself inside [-2^63, 2^63), OverflowError outside |
| FeaturiseBase.CastInt64 | competition/featurise/base.py:41 | `astype(int)` of one text: `int()` of it, ValueError when that fails, OverflowError when the integer is outside `int64` |
| FeaturiseBase.ParsePopulation | competition/featurise/base.py:39-41 | one cell: the text before `(`, spaces deleted, read by `int()` and kept within `int64`; a failure is the ValueError naming that text or OverflowError |
| FeaturiseBase.DecimalFacts | competition/featurise/base.py:41 | a decimal numeral is non-empty, made of digits, and has the number as its value |
| FeaturiseBase.ParseIntDecimal | competition/featurise/base.py:41 | `int()` reads back a number's numeral and its negative |
| FeaturiseBase.NoSpaceUnstripped | competition/featurise/base.py:41 | text without surrounding whitespace is not stripped |
| FeaturiseBase.AnnotatedPopulation | competition/featurise/base.py:35-41 | `"<n> (<note>"` parses to `n` when `n` fits `int64`, and raises OverflowError otherwise |
| FeaturiseBase.BeforeParenAppend | competition/featurise/base.py:39 | the text before a `(` that starts the second part is the first part |
| FeaturiseBase.RemoveSpacesAppend | competition/featurise/base.py:40 | deleting spaces distributes over concatenation |
| FeaturiseBase.RemoveSpacesOfNoSpace | competition/featurise/base.py:40 | text without spaces is unchanged |
| FeaturiseBase.PopulationBeforeParen | competition/featurise/base.py:35-41 | a population string is cast as the de-spaced text before its first `(` |
| FeaturiseBase.SpacedGroups | competition/featurise/base.py:35-41 | digit groups split by a space are cast as the joined digits |
| FeaturiseBase.DigitsValueAppend | competition/featurise/base.py:41 | appending a digit multiplies the value by ten and adds the digit |
| FeaturiseBase.ParseIntDigits | competition/featurise/base.py:41 | a non-empty digit string parses to its value |
| FeaturiseBase.ThousandsValue | competition/featurise/base.py:41 | a number followed by three digits parses to `a*1000 + b` |
| FeaturiseBase.ThreeDigitsValue | competition/featurise/base.py:41 | the value of `d` followed by three digits is `d*1000` plus their value |
| FeaturiseBase.SpacedThousands | competition/featurise/base.py:35-41 | `'1 234 (2010)'`-shaped strings parse to the thousands value (1234), within `int64` |
| FeaturiseBase.NoDigitsFails | competition/featurise/base.py:35-41 | a population with nothing before `(` raises ValueError, and so does the empty string |
| FeaturiseBase.PopulationOverflow | competition/featurise/base.py:41 | a numeral is accepted exactly when it is at most 2^63 - 1; past that the cast raises OverflowError |
| FeaturiseBase.Insert | competition/featurise/base.py:47 | inserting into a descending list keeps it descending and adds exactly that element |
| FeaturiseBase.SortByPopulation | competition/featurise/base.py:47 | the result is a descending (null-last) permutation of the input |
| FeaturiseBase.DedupFrom | competition/featurise/base.py:48 | `keep='first'` past the cells already seen: never longer than its input, and every kept row is an input row of an unseen cell |
| FeaturiseBase.DedupFromKeeps | competition/featurise/base.py:48 | `keep='first'` keeps only unseen cells, each at most once, each as the first row of its cell |
| FeaturiseBase.DedupFromCovers | competition/featurise/base.py:48 | every unseen cell of the input keeps a row |
| FeaturiseBase.MostPopulousPerCell | competition/featurise/base.py:47-48 | after any descending sort and dedup: one row per cell, every input cell kept, and the kept row's population at least every population of its cell |
| FeaturiseBase.KeptDominates | competition/featurise/base.py:47-48 | the first row of a cell in a descending list has the largest population of that cell |
| FeaturiseBase.DropCityBlocks | competition/featurise/base.py:46 | exactly the rows whose place is not `city_block` remain |
| FeaturiseBase.OnePerCell | competition/featurise/base.py:45-50 | city blocks dropped, then the descending population sort, then the first row per cell |
| FeaturiseBase.OnePerCellFacts | competition/featurise/base.py:45-50 | the result has no city block and one row per cell; every non-block cell is covered, by its most populous place |
| FeaturiseBase.Project | competition/featurise/base.py:30 | `loc` on the three columns: KeyError for a missing column, else each row cut to exactly those columns |
| FeaturiseBase.Locate | competition/featurise/base.py:31-32 | `city_lon`/`city_lat` come from a point geometry; any other geometry raises the geopandas ValueError |
| FeaturiseBase.ParsedRow | competition/featurise/base.py:35-41 | a row with a population text gets its parsed integer, a row without one is kept; a text that is no `int64` raises ValueError or OverflowError |
| FeaturiseBase.ParseEach | competition/featurise/base.py:35-41 | the rows with a population are parsed, the others kept; the first text that is no `int64` raises ValueError or OverflowError |
| FeaturiseBase.Places | competition/featurise/base.py:45-50 | one place record per row, in order |
| FeaturiseBase.PrepareData | competition/featurise/base.py:27-52 | KeyError without a `geo` table; otherwise the result of the whole column-write, grid-index and filter/sort/dedup chain on that table |
| FeaturiseBase.InputPlaces | competition/featurise/base.py:27-52 | the place each accepted input row turns into |
| FeaturiseBase.RowThrough | competition/featurise/base.py:31-43 | one accepted row passes every column write and gets the grid cell of its shifted coordinates |
| FeaturiseBase.Prepared | competition/featurise/base.py:27-52 | the column writes, `set_grid_index` and the selection chain over the `geo` table; every failure is a KeyError, ValueError, AttributeError, TypeError or OverflowError |
| FeaturiseBase.PreparedAccepted | competition/featurise/base.py:27-52 | an accepted table is prepared into the one-per-cell selection of its rows |
| FeaturiseBase.PreparedRejected | competition/featurise/base.py:27-52 | a table with a missing column, a non-point geometry or an unparsable population fails |
| FeaturiseBase.MissingGeometryRow | competition/featurise/base.py:31-43 | a row with a missing geometry reaches `set_grid_index` without numeric coordinates |
| FeaturiseBase.PreparedRowWise | competition/featurise/base.py:27-52 | preparation succeeds exactly on accepted tables, row by row |
| FeaturiseBase.PreparedFacts | competition/featurise/base.py:27-52 | one row per cell, no city block, each row's cell computed from its shifted coordinates, every cell covered by its most populous place |
| Registry.RegisteredName | competition/repository.py:53-54 | an explicit name is used as given; `None` means `camel2snake(__name__)` |
| Registry.DiscoverMembers | competition/repository.py:27-41 | one module's members, in `getmembers` order, each filtered and registered |
| Registry.DiscoverModules | competition/repository.py:26-41 | the scanned modules, in order, each discovered in turn |
| Registry.DiscoverMembersLookup | competition/repository.py:25-41 | after a module's scan, a name maps to the last discoverable class registered under it, and to the earlier entry otherwise |
| Registry.DiscoverModulesKeys | competition/repository.py:20-41 | the names after discovery are the earlier ones plus every discoverable class's name in any scanned module |
| Registry.LastForIsDiscoverable | competition/repository.py:28-36 | a class that discovery stores passed the module filter and the suffix filter |
| Registry.SkippedMembers | competition/repository.py:28-36 | a class from a `...base` module, from the registry module, or without an object-type suffix changes nothing |
| Registry.ObjectSuffixFlag | competition/repository.py:32-36 | the `flag \|=` loop is true exactly when the lowered name ends with one of the seven object types |
| Registry.Split | competition/repository.py:46 | `split('.')` gives at least one piece, and no piece holds a dot |
| Registry.JoinSplit | competition/repository.py:46-47 | joining the pieces of a split gives the text back |
| Registry.SplitJoin | competition/repository.py:46-47 | splitting dot-free pieces joined by dots gives the pieces back |
| Registry.SplitOfNoDot | competition/repository.py:46 | a dot-free text splits into itself |
| Registry.SplitAfterWord | competition/repository.py:46 | a dot-free word then `.` then the rest splits into the word followed by the rest's pieces |
| Registry.JoinLast | competition/repository.py:47-48 | the path is its module part, a dot, and its last piece |
| Registry.DottedPath | competition/repository.py:45-48 | `a.b.C` splits into module `a.b` and class `C` |
| Registry.FindMember | competition/repository.py:51 | `getattr` finds a member of that name, or there is none |
| Registry.LoadFailure | competition/repository.py:50 | running one module: the exception its code raises, ImportError when it does not exist, nothing exactly when it exists and does not raise |
| Registry.ParentFailureFacts | competition/repository.py:50 | the parent packages all load exactly when no parent failure is reported; otherwise the report is the failure of the outermost failing parent, every parent outside it loading |
| Registry.ParentFailureAt | competition/repository.py:50 | a failing parent with every parent outside it loading is the reported failure |
| Registry.Import | competition/repository.py:50 | `import_module(name)` without `package`: TypeError for a name starting with `.`, ValueError for an empty one, then the outermost parent package that fails to load decides the error, then the module's own error or ImportError; success exactly when the name is absolute, every parent loads and the module exists and does not raise |
| Registry.ParentRaises | competition/repository.py:50 | a module inside a failing package raises that package's error, whatever the module holds |
| Registry.FirstError | competition/repository.py:26 | the first error of a sequence of results, before which all succeed; nothing exactly when all succeed |
| Registry.FirstErrorAt | competition/repository.py:26 | a failure after only successes is the first error, whatever follows |
| Registry.FirstImportFailure | competition/repository.py:26 | the scan's import error: that of the first package that fails to import, before which every import succeeds; nothing exactly when all import |
| Registry.FirstImportFailureAt | competition/repository.py:26 | a package that fails to import after packages that all import decides the error, whatever follows it |
| Registry.Resolve | competition/repository.py:45-51 | a dotted path resolves to the named class of the named module; whatever `Import` of the module part raises is raised (ValueError for an empty module name, TypeError for one starting with `.`, a parent's or the module's own error), and AttributeError for an unknown class |
| Registry.RelativePathFails | competition/repository.py:45-51 | a path starting with `.` and holding another `.` raises TypeError |
| Registry.UndottedPathFails | competition/repository.py:45-50 | a path without a dot has an empty module name and fails |
| Registry.Repository.constructor | competition/repository.py:20-23 | when every scanned package imports, a new registry holds exactly what discovery over the three packages registers |
| Registry.Repository.Create | competition/repository.py:20-26 | `Repository()` fails exactly when a scanned package fails to import, with the first such error; otherwise it is the constructor's registry |
| Registry.Repository.RegisterInternal | competition/repository.py:25-41 | the nested loops register, in order, every discoverable class under its `name` attribute or derived name |
| Registry.Repository.Register | competition/repository.py:43-56 | a class, or a resolvable path, is stored under its registered name, overwriting that entry and keeping all others; an unresolvable path raises and changes nothing |
| Registry.Repository.GetObject | competition/repository.py:58-59 | returns the last class stored under the name, or KeyError |
| Featurising.OuterFold | competition/featurise/featuriser.py:29-31 | the first output, outer-merged on the key with each later output in turn |
| Featurising.OuterFoldKeys | competition/featurise/featuriser.py:29-31 | the keys of the outer-merge fold are the union of all outputs' keys |
| Featurising.OuterFoldValues | competition/featurise/featuriser.py:29-31 | in the model's merge, a column value survives the fold unless a later output carries that key and column (pandas would keep both as `c_x` and `c_y`) |
| Featurising.EngineWriterIdempotent | competition/featurise/featuriser.py:15-16 | the engine write sets `engine`, keeps the other entries, and is idempotent |
| Featurising.FirstUnknown | competition/featurise/featuriser.py:25-26 | the first config name the registry lacks, or the config length |
| Featurising.FirstFailed | competition/featurise/featuriser.py:25-27 | the index of the first round that raises, every earlier round returning; the length when none raises |
| Featurising.Round | competition/featurise/featuriser.py:25-27 | one round of the first loop: KeyError for an unknown name, otherwise whatever the built calcer's `compute` returns or raises |
| Featurising.Rounds | competition/featurise/featuriser.py:25-27 | every round of the first loop, in configuration order |
| Featurising.Outputs | competition/featurise/featuriser.py:25-27 | the outputs of rounds that all return, entry by entry |
| Featurising.Frames | competition/featurise/__init__.py:38-42 | output `i` is the compute of calcer `i`, built from its registered class and its stamped arguments |
| Featurising.Featuriser.constructor | competition/featurise/featuriser.py:9-13 | stores the engine and the repository |
| Featurising.Featuriser.CreateCalcer | competition/featurise/featuriser.py:15-18 | writes `engine` into the caller's dictionary in place, then builds the registered class; an unknown name is KeyError |
| Featurising.Featuriser.GetFeatures | competition/featurise/featuriser.py:21-33 | the result is `Features` of the names and the original arguments, and each dictionary up to and including the first round that raises has been stamped |
| Featurising.Featuriser.ComputeAll | competition/featurise/featuriser.py:24-27 | the error of the first round that raises (an unknown name's KeyError or what `compute` raises), otherwise the outputs in config order; each dictionary up to that round is stamped even when several entries share it |
| Featurising.Featuriser.CreateStamped | competition/featurise/featuriser.py:25-26 | creating calcer `i` writes the engine into its dictionary (and every alias), extending the stamped prefix by one; KeyError for an unknown name, otherwise the registered class with the stamped arguments |
| Featurising.StampedNext | competition/featurise/featuriser.py:25-26 | stamping entry `i`'s dictionary extends the stamped prefix by one, even when the dictionary is shared |
| Featurising.MergeFrames | competition/featurise/featuriser.py:29-31 | the merge loop computes the left-to-right outer fold |
| Featurising.SingleCalcerUnchanged | competition/featurise/featuriser.py:29-33 | with exactly one known calcer, its output, or what its `compute` raises, is returned unchanged |
| Featurising.Features | competition/featurise/featuriser.py:21-33 | the error of the first round that raises, then IndexError for an empty config, otherwise the outer fold of the outputs in config order |
| Featurising.FeaturesFacts | competition/featurise/featuriser.py:21-33 | success exactly when the config is non-empty and no round raises; IndexError for an empty config; on success the keys are the union of all outputs' keys |
| Featurising.FeaturesFailAt | competition/featurise/featuriser.py:21-33 | the first round that raises decides the error: KeyError for its unknown name, otherwise what its calcer's `compute` raises |
| Featurising.ReturningComputeFacts | competition/featurise/featuriser.py:21-33 | when `compute` always returns, KeyError exactly when some name is unknown, naming the first unknown one |
| LegacyFeaturising.LookupClasses | competition/featurise/__init__.py:10-12 | each listed class name is looked up in the namespace; the first undefined one is NameError |
| LegacyFeaturising.CalcerTable | competition/featurise/__init__.py:10-12 | the class lookups, then the table keyed by each class's `name` |
| LegacyFeaturising.KeyByNameLookup | competition/featurise/__init__.py:10-12 | the dict comprehension succeeds when every class has a `name` attribute, and maps each name to the last class carrying it |
| LegacyFeaturising.AsWrittenTableFails | competition/featurise/__init__.py:10-12 | the table as written raises NameError for `SampleCalcer` |
| LegacyFeaturising.PackageRaising | competition/featurise/__init__.py:10-12 | importing the package raises what building the calcer table raises |
| LegacyFeaturising.AsWrittenRepositoryFails | competition/repository.py:20-26 | with the package as written, `Repository()` raises NameError for `SampleCalcer` once the `competition` package loads (ImportError when it does not exist), whatever the other packages hold |
| LegacyFeaturising.SubmoduleOfRaisingPackage | competition/repository.py:45-51 | registering `competition.featurise.featuriser.Featuriser` by path raises the package's NameError, whatever the submodule holds |
| LegacyFeaturising.CalcerTableLookup | competition/featurise/__init__.py:10-12 | over defined classes with a `name` attribute, the table maps each name to the last class carrying it |
| LegacyFeaturising.DefinedCalcerTable | competition/featurise/__init__.py:10-12 | the table of the one defined calcer is `{'date_features': DateFeaturesCalcer}` |
| LegacyFeaturising.NamedCalcers | competition/featurise/__init__.py:31 | the string-keyed view of the table: a string is a key exactly when it is a class's name |
| LegacyFeaturising.Injector | competition/featurise/__init__.py:28-29 | the two writes `create_calcer` makes into a dictionary |
| LegacyFeaturising.InjectorFacts | competition/featurise/__init__.py:27-29 | injection adds `engine` and `sample_table`, keeps every other entry, and a second injection changes nothing |
| LegacyFeaturising.InjectorIdempotent | competition/featurise/__init__.py:27-29 | injecting twice is injecting once |
| LegacyFeaturising.LeftFold | competition/featurise/__init__.py:37-42 | the sample output, left-merged on the key with each configured output in turn |
| LegacyFeaturising.LeftFoldKeeps | competition/featurise/__init__.py:36-42 | the left-merge fold keeps exactly the sample keys, and a sample column no output carries keeps its value |
| LegacyFeaturising.LeftFoldSnoc | competition/featurise/__init__.py:38-42 | one more loop round left-merges one more output |
| LegacyFeaturising.LegacyFeatures | competition/featurise/__init__.py:34-49 | KeyError for the first unknown name; otherwise the left fold, inner-merged with the target output when there is one |
| LegacyFeaturising.LegacyFeaturesKeys | competition/featurise/__init__.py:34-49 | KeyError exactly when a name is unknown; otherwise the keys are the sample keys, intersected with the target keys when there is a target |
| LegacyFeaturising.SampleColumnSurvives | competition/featurise/__init__.py:36-42 | without a target, a sample value that no calcer overwrites is in the result |
| LegacyFeaturising.LegacyFeaturiser.constructor | competition/featurise/__init__.py:14-20 | stores the engine, the sample table name and the calcer table; no calcers yet |
| LegacyFeaturising.LegacyFeaturiser.CreateCalcer | competition/featurise/__init__.py:27-31 | writes `engine` and `sample_table` into the caller's dictionary in place, then builds the class named; an unknown name is KeyError |
| LegacyFeaturising.LegacyFeaturiser.Create | competition/featurise/__init__.py:14-25 | the sample calcer is always created and the target calcer only when a target is named; the shared default dictionary is mutated, and a failed lookup raises KeyError |
| LegacyFeaturising.LegacyFeaturiser.GetFeatures | competition/featurise/__init__.py:34-49 | the result is the sample output, left-merged with each configured output, then inner-merged with the target output when there is a target |
| LegacyFeaturising.LegacyFeaturiser.MergeConfigured | competition/featurise/__init__.py:36-42 | KeyError for the first unknown name, otherwise the left fold of the outputs onto the sample; the dictionaries are stamped in order |
| LegacyFeaturising.LegacyFeaturiser.CreateStamped | competition/featurise/__init__.py:39-40 | creating calcer `i` stamps its dictionary and extends the stamped prefix by one |
| Warehouse.Engine.constructor | competition/warehouse/engine.py:5-8 | a new engine has no tables |
| Warehouse.Engine.Register | competition/warehouse/engine.py:10-11 | stores the table under its name, overwriting that entry; the other names are unchanged |
| Warehouse.Engine.GetTable | competition/warehouse/engine.py:13-14 | returns the table last registered under the name, or KeyError |
| Metrics.FillForward | competition/metrics.py:12-16 | each cell becomes the last non-zero, non-NaN value at or before it in its row, or 0 |
| Metrics.FirstOne | competition/metrics.py:12-22 | the first position of a 1 in a row, or the row length |
| Metrics.LastNonZeroBinary | competition/metrics.py:12-16 | in a 0/1 row the last non-zero value is 1 exactly when the row holds a 1 |
| Metrics.BinaryFill | competition/metrics.py:12-16 | on a 0/1 row the fill keeps zeros before the first 1 and makes 1 everything from it on |
| Metrics.SumOfStep | competition/metrics.py:16 | a row of zeros then ones sums to the count of ones |
| Metrics.BinaryDayCount | competition/metrics.py:12-22 | a 0/1 row of width `w` whose first 1 is at 1-based position `p` counts `w - p + 1` days; a row with no 1 counts 0 |
| Metrics.RowError | competition/metrics.py:26-27 | over-prediction costs the difference; under-prediction costs `fail_coef` times the shortfall |
| Metrics.CompetitionMetric | competition/metrics.py:5-32 | the metric fails only with AssertionError or ZeroDivisionError, and gives NaN only for an empty frame; otherwise `round(1 - mean penalty, 5)` |
| Metrics.MetricAssertions | competition/metrics.py:9-31 | AssertionError exactly when the shapes differ or a prediction is not 0/1; otherwise NaN exactly for an empty frame, and ZeroDivisionError exactly when rows meet a zero `max_penalty` or `C == 1` |
| Metrics.ErrorsNonNegative | competition/metrics.py:24-27 | with `fail_coef > 0` every error is non-negative, and under-predicting by `d` costs `fail_coef` times over-predicting by `d` |
| Metrics.NoErrorNoPenalty | competition/metrics.py:29-31 | zero errors give a mean penalty of 0 |
| Metrics.PerfectPrediction | competition/metrics.py:5-32 | a 0/1 prediction equal to the truth scores exactly 1 |
| Pipelines.DayNameDigit | competition/pipeline/pipelines.py:19-20 | `infire_day_i` for a one-digit `i` ends in that digit |
| Pipelines.DayNames | competition/pipeline/pipelines.py:20 | `infire_day_1` .. `infire_day_8`, in order |
| Pipelines.TargetNames | competition/pipeline/pipelines.py:19-20 | the model keys in order: `infire_day_num`, then the eight days |
| Pipelines.TargetNamesDistinct | competition/pipeline/pipelines.py:19-20 | the nine model keys are pairwise different |
| Pipelines.DayNamesDistinct | competition/pipeline/pipelines.py:20 | the eight day names are pairwise different, and none is `infire_day_num` |
| Pipelines.FeatureColumns | competition/pipeline/pipelines.py:29-31 | a column is a feature exactly when it is not a target, not `dt` and not `grid_index` |
| Pipelines.FirstAbsent | competition/pipeline/pipelines.py:33 | the first requested column the frame lacks, or the list length |
| Pipelines.DayCells | competition/pipeline/pipelines.py:33-38 | the numeric reading of the eight day cells |
| Pipelines.DayColumns | competition/pipeline/pipelines.py:37-38 | exactly the eight day columns, each the truncated filled value |
| Pipelines.TransformRow | competition/pipeline/pipelines.py:33-39 | one row: the eight day cells forward-filled and cast, the day-number cell copied |
| Pipelines.TransformRows | competition/pipeline/pipelines.py:33-39 | all rows are transformed exactly when each one is; the result holds one transformed row per input row |
| Pipelines.TransformTargets | competition/pipeline/pipelines.py:28-39 | on success the table has the eight day columns then the day-number column, all present in the input, and one row per input row |
| Pipelines.BinaryTargetRow | competition/pipeline/pipelines.py:33-39 | a row of 0/1 targets becomes 0 before its first fire day and 1 from it on, and its day number is copied unchanged |
| Pipelines.FeatureList | competition/pipeline/pipelines.py:29-31 | the feature list holds each feature column once, and nothing else |
| Pipelines.Inputs | competition/pipeline/pipelines.py:45 | succeeds exactly when a feature list is set and the frame has all its columns; then one restricted row per input row |
| Pipelines.TrainedFacts | competition/pipeline/pipelines.py:42-71 | after `n` rounds exactly the first `n` targets have a model, each the one trained for it |
| Pipelines.TransformedRows | competition/pipeline/pipelines.py:33-39 | the transformed frame has the eight day columns then `infire_day_num`, and one transformed row per input row |
| Pipelines.FitTrains | competition/pipeline/pipelines.py:42-71 | fit trains exactly the nine targets; model `i` has seed `seed + i`, only the day-number model is MultiClass, and all share the inputs and have one label per row |
| Pipelines.TrainedByName | competition/pipeline/pipelines.py:42-71 | `infire_day_num` holds the first model trained, and day `j+1` holds model `j+1` |
| Pipelines.NumLabels | competition/pipeline/pipelines.py:39 | the day-number model learns the day numbers unchanged |
| Pipelines.DayLabel | competition/pipeline/pipelines.py:33-46 | on a row of 0/1 targets, the day-`i` model learns 1 exactly from the first fire day on |
| Pipelines.Threshold | competition/pipeline/pipelines.py:83 | a day is predicted (1) exactly when its probability is strictly above 0.51, else 0 |
| Pipelines.SumZeroIffAllZero | competition/pipeline/pipelines.py:88 | a row of 0/1 predictions sums to 0 exactly when every prediction is 0 |
| Pipelines.Fix | competition/pipeline/pipelines.py:88-91 | one row's fix: as many bits as given; an all-zero row gets a 1 at day `num` |
| Pipelines.FixOnlyZeroRows | competition/pipeline/pipelines.py:88-91 | the fix changes only all-zero rows; such a row gets exactly day `num` when `num` is 1..8 and stays zero otherwise; the output stays 0/1 |
| Pipelines.ModelFor | competition/pipeline/pipelines.py:83-86 | a model is found exactly when the key exists and was trained; otherwise KeyError or AttributeError |
| Pipelines.FirstUnfitted | competition/pipeline/pipelines.py:81-83 | the first day whose model cannot predict, or 8 |
| Pipelines.RawBits | competition/pipeline/pipelines.py:81-83 | the eight thresholded day predictions of one row |
| Pipelines.BaselinePipeline.constructor | competition/pipeline/pipelines.py:17-21 | the models map has exactly the nine target keys, all untrained, and there is no feature list |
| Pipelines.BaselinePipeline.Fit | competition/pipeline/pipelines.py:23-73 | the feature list is set first; a failing target transform raises with the models unchanged; otherwise each of the nine targets gets its trained model and the pipeline itself is returned |
| Pipelines.BaselinePipeline.Predict | competition/pipeline/pipelines.py:75-94 | errors come in the source's order (inputs, day models, then the day-number model); success exactly when the inputs are present and all nine models are trained, and then the columns are exactly the eight days, each row thresholded then fixed |
| Pipelines.BaselinePipeline.TrainModels | competition/pipeline/pipelines.py:42-71 | each of the nine targets, in order, gets the model fitted from the feature inputs and its transformed column, stored under its name; the feature list is left as it was |
| Pipelines.ThresholdColumns | competition/pipeline/pipelines.py:81-83 | the first day whose model is missing or untrained stops with its error; otherwise eight columns, one per day, each cell the thresholded probability of that day's model for that row |
| Pipelines.FixColumns | competition/pipeline/pipelines.py:88-91 | every cell equals the fix of its row: a row whose eight bits are all 0 gets a 1 in the day named by the day-number prediction, every other cell keeps its bit |
| Pipelines.PredictedRow | competition/pipeline/pipelines.py:78-93 | one input row: the eight thresholded day predictions, fixed by the day-number prediction |
| Selectors.Canon | competition/estimators/selectors.py:8 | `nunique` treats an integer and the equal float as one value |
| Selectors.KeepMask | competition/estimators/selectors.py:8 | one flag per column: true exactly when `nunique > 1` |
| Selectors.KeepIffVaries | competition/estimators/selectors.py:8 | a column is kept exactly when two rows hold different non-NaN values |
| Selectors.ConstantColumnDropped | competition/estimators/selectors.py:8 | a column of one number (as int and as float) and NaN is dropped |
| Selectors.MoreTags | competition/estimators/selectors.py:11-12 | the selector declares `allow_nan` |
| Selectors.DummySelector.constructor | competition/estimators/base.py:6-8 | no mask before `fit` |
| Selectors.DummySelector.Fit | competition/estimators/selectors.py:7-9 | stores the keep mask, one flag per column, true exactly for columns with two different non-NaN values, and returns the selector |
| Selectors.DummySelector.SupportMask | competition/estimators/base.py:13-14 | the support mask is the stored mask |

## Left out

- Floating point. Coordinates, the 0.2 step and the metric are exact rationals. Rounding
  at cell borders, NaN and infinity are not modelled. The metric's `**` and `round` are
  parameters.
- Metrics.CompetitionMetric: the NaN of an empty frame is `Success(None)`; its value is
  not computed.
- `pd.DataFrame` internals. Row order, index labels, dtype coercion, the `_x`/`_y` suffix
  renaming and the row duplication of merges on duplicate keys are not modelled. Keyed
  frames are maps from `(dt, grid_index)` to rows.
- dask laziness and `.compute()`.
- pandas' KeyError for a missing list of columns names all missing columns. The model
  reports the first one.
- Memory layout in `make_pooling`. The `as_strided` stride arithmetic is modelled as
  index ranges, and the reducer `func` is a parameter over the window's non-NaN values.
- Unicode. `lower()` and the uppercase test cover ASCII letters only.
- FeaturiseBase.ParseInt: digits are ASCII only. Python's `int()` also reads the other
  Unicode decimal digits (Arabic-Indic, Devanagari, fullwidth and the rest), which the
  model rejects with ValueError.
- Reflection. `import_module` and `getmembers` become a map from module names to their
  classes, and a module whose own code raises on import becomes an entry of a second map. `hasattr`/`getattr` of `name` becomes an optional field of the class record.
  `sys.modules` caching is not modelled: every import runs the module's code again,
  which gives the same result here.
- Registry.Resolve: a module holds only classes in the model. `getattr` also returns a
  module's functions and other attributes, which `register` would then store (or fail
  on with AttributeError for `__name__` when no name is given); the model raises
  AttributeError for such a name instead.
- Grid.SetGridIndex: the `astype(int)` casts at competition/utils.py:33-36 are `int64`
  casts of floats. The model's indices are unbounded integers; a coordinate far enough
  from the box to leave the `int64` range, for which numpy gives an unspecified value,
  is not modelled.
- Registry.Repository.constructor: requires every scanned package to import. The call
  that may raise is `Registry.Repository.Create`; the entries discovered before the
  failing import are lost with the object, so they are not modelled.
- Calcer construction. Keyword arguments are stored, not checked, so a `TypeError` from
  unexpected keyword arguments is not modelled.
- Pipelines.BaselinePipeline.Fit: the `self.config` and `self.repository` assignments
  are not modelled.
- LegacyFeaturising.LegacyFeaturiser.GetFeatures: merges on `(dt, grid_index)`. In the
  source the keys come from `sample_calcer.keys`, and `calcers.py` sets them to `None`
  or `['grid_index']`.
- LegacyFeaturising.LegacyFeaturiser.GetFeatures: the calcer outputs are the `compute`
  parameter. `DateFeaturesCalcer.compute` only raises `NotImplementedError`.
- Training. sklearn pipeline construction, `train_test_split`, the `config` lookups,
  model fitting, `f1_score` and logging are not modelled. A fitted model records its
  target, seed, eval metric, inputs and labels.
- Prediction. `predict_proba` and `predict` are parameters.
- Persistence. `save` and `load` (pickle and files) are not modelled.
- Pipelines.FeatureList: Python's set order is unspecified, so the model keeps the
  columns' own order.
- Pipelines.TransformRow: a day cell holding text fails the model's cast with ValueError.
  pandas keeps such a cell through `replace(0, np.nan)` (the text `"0"` is not the number
  0), forward-fills it like any other value and casts it with `int()`, so numeric text
  such as `"1"` is read as a number there. The model only reads numeric day cells.
- Pipelines.BaselinePipeline.Predict: assigning columns into the empty `predicts_df` is
  taken to give one row per input row.
- Pipelines.BaselinePipeline.Predict: the day-number predictions are integers.
- Selectors.DummySelector.Fit: the input is a rectangular table.
- `BaseSelector.fit` only raises `NotImplementedError`, so it is not modelled.
- I/O, configuration and shell scripts are not part of this model: `train.py`,
  `solution.py`, `competition/__main__.py`, `competition/prepare_data.py` and
  `competition/warehouse/__init__.py`.
- `competition/pipeline/base.py` is not modelled. It is sklearn wiring.

## Findings

| source | as written | input that shows it | evidently intended | confidence | as-written member | corrected member |
|---|---|---|---|---|---|---|
| competition/featurise/__init__.py:10-12 | the calcer table lists `SampleCalcer`, `DatesFeaturesCalcer` and `TargetBaseCalcer`, and `calcers.py` defines none of them, so building the table raises NameError when the module is imported | importing `competition.featurise` | a table over the defined calcer classes, keyed by their `name` attributes | not executed | LegacyFeaturising.AsWrittenTableFails | LegacyFeaturising.CalcerTableLookup |
