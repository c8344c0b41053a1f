# Layout generator model

A Dafny model of `layout_generator.py`, a script that replays a PCB stackup
table into a pyaedt layout database (EDB) and draws a meandering
differential pair. Four modules model it, each in the source's
imperative form, and each proved against a pure specification:

- `StackupParser` (`stackup_parser.dfy`): `parse_stackup` as a loop over
  the CSV rows. It keeps the rows that name a design layer and adds
  `thickness_mm`. The first kept row whose thickness cannot be read
  raises.
- `EdbApi` (`edb_api.dfy`): the database handle as a class `Edb`. It
  holds the material registry's keys and a log of the `add_material`,
  `add_layer` and `create_trace` calls.
- `StackupBuilder` (`stackup_builder.dfy`): `build_stackup` as a loop
  against the handle. The pure function `Replay` specifies it. Lemmas about
  `Replay` state the layer order, the material de-duplication and the
  behaviour without the library.
- `DifferentialPair` (`differential_pair.dfy`): the inner `create_trace`
  loop, proved equal to a closed form of the meander. Lemmas give the
  shape of the meander and the relation between the two traces of the
  pair.

Python's `float()` on a cell text is the parameter `toFloat`. It answers
`None` where `float()` raises `ValueError`. A row is a map from column
header to cell text, and a key is absent only when the table has no such
column. Looking up that column raises `KeyError`, which is the error
`MissingField`. The module-level `Edb` name, which is `None` when pyaedt
cannot be imported, is the flag `edbAvailable`. Coordinates and
thicknesses are exact reals.

The two traces are the same zig-zag (first up, then down) at heights
+(w + gap)/2 and -(w + gap)/2. The negative trace is the positive one moved
down by w + gap, not its reflection about the centre line.
`PairTranslated`, `PairStartsMirrored` and `PairNotReflected` state this.

The registry's key set is assumed to gain a material's name when
`add_material` registers it (`EdbApi.Edb.AddMaterial`), and a key is
matched by exact string equality. Both are assumptions about pyaedt, whose
code is not part of this model.

## Model

| member | source | states |
|---|---|---|
| `StackupParser.KeptIndices` | layout_generator.py:15-19 | the positions of the kept rows are strictly increasing (original order) and are exactly the rows whose "Design Layer Name" cell is present and non-empty |
| `StackupParser.KeptCount` | layout_generator.py:15-19 | the number of kept rows equals the number of rows that name a design layer |
| `StackupParser.ParseStackup` | layout_generator.py:10-20 | succeeds iff every named row has a readable thickness; then returns one record per kept row, in order, each with the row's cells unchanged except that "thickness_mm" is the micrometre thickness times 0.001; otherwise fails with the error of the first named row whose thickness is missing or not a number |
| `EdbApi.Edb.constructor` | layout_generator.py:99 | a new database knows only the library's own material names and has no materials, layers or traces of the generator yet |
| `EdbApi.Edb.AddMaterial` | layout_generator.py:28-35 | assumed library behaviour: `add_material` logs the material and inserts its name into `material_keys`; nothing else changes |
| `EdbApi.Edb.AddLayer` | layout_generator.py:37-42 | `add_layer` appends the layer on top of the stack; nothing else changes |
| `EdbApi.Edb.CreateTrace` | layout_generator.py:76-77 | `modeler.create_trace` logs one trace with its path, layer, width and net; nothing else changes |
| `StackupBuilder.BuildStackup` | layout_generator.py:23-42 | the loop leaves the handle in the state `Replay` gives for the old state, and returns the error `Replay` stops at |
| `StackupBuilder.ReplayStops` | layout_generator.py:25-42 | once a record raises, the records after it have no effect |
| `StackupBuilder.StepEffect` | layout_generator.py:26-42 | one record registers at most one material, under a name that was not a key, appends layers only on top, and leaves traces alone |
| `StackupBuilder.StepExtends` | layout_generator.py:27-35 | one record keeps the registration invariant: old materials and layers kept, keys = old keys plus the names registered, each registered name new and registered once |
| `StackupBuilder.ReplayExtends` | layout_generator.py:25-35 | for any stack, with or without errors, the builder registers each material name at most once, never a name that was already a key, and keeps earlier materials, layers and traces |
| `StackupBuilder.ReplayWithoutLibrary` | layout_generator.py:26-27 | with `Edb` unavailable the database is unchanged; the only possible error is a record whose table has no "Material" column (the KeyError of line 26) |
| `StackupBuilder.StepErrorIndex` | layout_generator.py:26-42 | an error raised while handling a record names that record |
| `StackupBuilder.ReplayFailsAt` | layout_generator.py:25-42 | a failed build stopped at the record its error names: all earlier records took full effect, and the result is that record's partial step |
| `StackupBuilder.ReplayAppendsLayers` | layout_generator.py:25-42 | a successful build with the library appends exactly one layer per record, in record order, each with that record's name, type, material and thickness |
| `StackupBuilder.ReplayKnowsMaterials` | layout_generator.py:26-35 | after a successful build with the library, every record has a "Material" cell and the material it names is a key of the registry |
| `StackupBuilder.RegisteredExactlyOnce` | layout_generator.py:26-35 | after a successful build with the library, a material named by the stack and not a key before was registered by exactly one `add_material` call, however many records share it |
| `StackupBuilder.StepRegisters` | layout_generator.py:27-35 | a record that registers a material registers the material read from its own cells, under its own material name, which was not a key |
| `StackupBuilder.RegisteredFromFirst` | layout_generator.py:26-35 | each material registered by a successful build carries the physical properties of the first record naming it |
| `DifferentialPair.Corners` | layout_generator.py:63-71 | meander k (0-based) has the corners (2kh+h, offset), (2kh+h, offset+h), (2kh+2h, offset+h), (2kh+2h, offset) |
| `DifferentialPair.CreateTrace` | layout_generator.py:58-72 | the point list built by the loop is exactly the closed-form meander of max(n, 0) repeats started at (0, offset) |
| `DifferentialPair.AddDifferentialPair` | layout_generator.py:45-77 | without the library nothing changes; otherwise exactly two traces are added, on "L03_SIG1" with width w: the meander at +(w+gap)/2 for "diff_p", then the one at -(w+gap)/2 for "diff_n" |
| `DifferentialPair.MeanderSteps` | layout_generator.py:63-71 | each point of the closed form is the previous point moved right, up, right or down by h, in that repeating order |
| `DifferentialPair.MeanderEnds` | layout_generator.py:59-72 | a trace has 4·max(n,0)+1 points, starts at (0, offset) and ends at (2·max(n,0)·h, offset); for n <= 0 it is the single start point |
| `DifferentialPair.MeanderHeights` | layout_generator.py:63-71 | every point lies at height offset or offset + h |
| `DifferentialPair.MeanderRightward` | layout_generator.py:64-68 | with h >= 0, x never decreases along the trace |
| `DifferentialPair.PairTranslated` | layout_generator.py:74-75 | the two traces have equal length, equal x at every index, and y differing by exactly w + gap at every index |
| `DifferentialPair.PairStartsMirrored` | layout_generator.py:74-75 | the traces start at heights +(w+gap)/2 and -(w+gap)/2 |
| `DifferentialPair.PairNotReflected` | layout_generator.py:74-75 | with a non-zero height and at least one meander, the third points are not mirror images about the centre line |

## Left out

- `main` and its argument parsing (layout_generator.py:80-106): the options are inputs of the model. `--gap_to_ground`, `--inter_height` and `--inter_count` are accepted by the script but never read, so they have no counterpart. The run-time error raised when pyaedt is missing is not modelled.
- Opening the CSV file and splitting it with `csv.DictReader` (layout_generator.py:13-14): file I/O and a library parser. The model takes the sequence of rows as input.
- Short CSV rows: the CSV reader fills the cells missing from a short row with `None`, and the model's rows have no `None` cells. For the layer-name test and for `float()` an absent key gives the same outcome as `None` (the row is skipped, or the lookup raises). But `layer['Material']`, `layer['Type']` and `layer['Design Layer Name']` in `build_stackup` pass a `None` cell on to pyaedt instead of raising, and what pyaedt then does is outside this model.
- Text-to-number conversion: `float()` is the parameter `toFloat` and is not itself modelled.
- Formatting the thickness as text, `str(thickness_mm) + "mm"` (layout_generator.py:41): a layer keeps its thickness as a real number of millimetres.
- ParseStackup: `* 1e-3` is the exact product by 1/1000, because IEEE-754 rounding is not modelled.
- CreateTrace: its coordinates are exact reals. With floats, `(y + h) - h` need not equal `y`, so the float trace can differ from the closed form by rounding.
- The `Edb(...)` context manager and `edb.save()` (layout_generator.py:99-102): opening, saving and closing the database are foreign calls. Only the constructor's initial state is modelled.
- What pyaedt itself does inside `add_material`, `add_layer` and `create_trace`, including rejecting an invalid layer type. Each call is recorded on the handle and assumed to succeed.
