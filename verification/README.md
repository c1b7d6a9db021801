# DART scene-preparation scripts, modelled in Dafny

This project models the Python scripts that prepare and post-process a
DART radiative-transfer simulation of a forest scene. The scripts read a
tree-position file (`positions.txt`) and the `parameters_to_vary`
switches of `config.json`. From these they build the following:

- the sequencer descriptor (`sequence.xml`, from
  `generate_sequence_from_config.py`);
- the optical and thermal registries (`coeff_diff.xml`, from
  `update_coeff_diff.py`);
- the 3-D object list (`object_3d.xml`, from `update_objects.py`);
- the choice of soil (`preprocess_soils.py`, `update_maket.py`);
- the DART run helpers (`run_dart_sequence.py`);
- the conversion of the band images of each sequence into a GeoTIFF plus
  a `props.json` (`saveTIFF.py`).

Files, XML documents and directory listings are immutable values. A file
is `None` when it cannot be opened, and otherwise holds its lines. An XML
document is the attributes the script reads or writes, in document
order. Python's exceptions become explicit outcome constructors. The
draws of `random` and the answers of `float()` are parameters.

Modules, one per script plus shared helpers:

| file | module | script |
|---|---|---|
| `text.dfy` | `Text` | `str` methods: `strip`, `split`, `join`, `find`, `int()`, `str(int)`, `upper`/`lower` |
| `sequences.dfy` | `Optional`, `Sequences` | list comprehensions, loops that stop at an exception |
| `sorting.dfy` | `Sorting` | `sorted()` on strings |
| `positions.dfy` | `Config`, `PositionFile` | the three readers of `positions.txt` |
| `coeff_diff.dfy` | `CoeffDiff` | `update_coeff_diff.py` |
| `property_paths.dfy` | `PropertyPaths` | the `propertyName` strings of the descriptor |
| `sequence_generator.dfy` | `SequenceGenerator` | `generate_sequence_from_config.py` |
| `objects.dfy` | `Objects` | `update_objects.py` |
| `soils.dfy` | `Soils` | `preprocess_soils.py` |
| `maket.dfy` | `Maket` | `update_maket.py` |
| `dart_runner.dfy` | `DartRunner` | `run_dart_sequence.py` (POSIX branch) |
| `save_tiff.dfy` | `SaveTiff` | `saveTIFF.py` |
| `consistency.dfy` | `Consistency` | how the scripts' indices and counts fit together |
| `links.dfy` | `ObjectLinks` | whether the links of the objects and the maket are defined in `coeff_diff.xml` |

## Model

| member | source | states |
|---|---|---|
| PositionFile.ScalesFromSpec | generate_sequence_from_config.py:10-19 | The scales are the `float()` values of field 4 of the lines whose stripped text starts with `0` and has at least 7 fields, in file order. Reading stops at the first token `float()` rejects, and that token is the next such line's. |
| PositionFile.ScalesNeverExceedTrees | generate_sequence_from_config.py:7-30 | On the same file there are never more scales than counted trees. An unreadable file gives no scales and a count of 0. |
| PositionFile.ScalesCoverScaleLines | generate_sequence_from_config.py:12-16 | When every x-scale token parses, there is exactly one scale per tree line with at least 7 fields. |
| PositionFile.ParseTriple | update_objects.py:19-27 | Three `float()` calls give a triple exactly when all three succeed, holding their values in order. |
| PositionFile.ParseRecord | update_objects.py:17-18 | A record's index is `int()` of field 0. |
| PositionFile.ParseRecordSpec | update_objects.py:17-28 | Fields 1-3 are the position, 4-6 the scale and 7-9 the rotation. A record is missing exactly when one of the ten conversions raises. |
| PositionFile.RecordsFromSpec | update_objects.py:7-29 | There is one record per line that is not skipped (`//` comment, blank, `complete transformation`) and has exactly 10 fields, in file order. The result is `None` exactly when one of those lines fails to convert. |
| SequenceGenerator.GenerateRandomValues | generate_sequence_from_config.py:32-59 | There are `nbr_simulation` Cab values in [20, 90), Cw values in [0.01, 0.05) and temperature rows. Every row has 1+2n entries and the shape of `TemperatureRow`. |
| SequenceGenerator.TemperatureRow | generate_sequence_from_config.py:41-57 | The soil is in [290, 310). Leaves 1..n lie in (soil-10, soil-1] and trunks n+1..2n in (soil-5, soil-0.5]. |
| SequenceGenerator.Deviations | generate_sequence_from_config.py:107 | Each scale deviation lies between 0.8 and 1.2 times the tree's x-scale. |
| SequenceGenerator.ScaleEntriesOfTree | generate_sequence_from_config.py:104-114 | Tree i owns entries 3i, 3i+1 and 3i+2, which vary its x, y and z scale with one shared list. The list is bounded by its scale. |
| SequenceGenerator.CreateSequence | generate_sequence_from_config.py:72-114 | No descriptor exists exactly when no tree is counted. `scales[i]` raises exactly when scales vary, some were read, fewer were read than trees counted and there is at least one run (the index sits inside the comprehension over the runs); it then fails at index `len(scales)`. Otherwise the descriptor is `sequence;;sequence`/`group1`, and every entry is `enumerate` with one value per simulation. |
| SequenceGenerator.NoRunsWriteEmptyScaleEntries | generate_sequence_from_config.py:104-112 | With no run (`nbr_of_sequence` ≤ 0), scales varying and at least one tree, the script succeeds whatever number of scales was read: the descriptor starts with three `Object[i]` scale entries (x, y, z) per counted tree, each with an empty value list. |
| SequenceGenerator.EntryCount | generate_sequence_from_config.py:104-158 | The entry count is 3n (scales varied and read), +1 (soil), +2n (tree temperatures), +n (Cab) and +n (Cw). |
| SequenceGenerator.EntriesSize | generate_sequence_from_config.py:104-158 | The scale entries come first and the blocks fill the layout in script order. |
| SequenceGenerator.EntriesSoil | generate_sequence_from_config.py:119-124 | The soil entry follows the scale entries and varies `ThermalFunction[0]` with column 0. |
| SequenceGenerator.EntriesTrees | generate_sequence_from_config.py:127-142 | Leaf i varies `ThermalFunction[i+1]` with column i+1. Trunk i varies `ThermalFunction[i+n+1]` with column i+n+1. |
| SequenceGenerator.EntriesCab | generate_sequence_from_config.py:145-150 | Cab entry i varies `LambertianMulti[i]` with the one shared Cab list. |
| SequenceGenerator.EntriesCw | generate_sequence_from_config.py:153-158 | Cw entry i varies `LambertianMulti[i]` with the one shared Cw list. |
| SequenceGenerator.TreeEntriesCoolerThanSoil | generate_sequence_from_config.py:44-55 | With both temperatures varied, in every run each leaf entry is at least 1 K and each trunk entry at least 0.5 K below the soil entry. |
| SequenceGenerator.ArgsRoundTrip | generate_sequence_from_config.py:107-112 | When no printed value contains `;`, splitting `args` at `;` gives back exactly one printed value per simulation, in order. |
| SequenceGenerator.ArgsOfNoSimulation | generate_sequence_from_config.py:35-38 | With no simulations, `args` is empty and reads back as one empty value. |
| PropertyPaths.ParsePropertyNameOf | generate_sequence_from_config.py:113-157 | Every `propertyName` the descriptor writes (object scale, thermal mean, Cab, Cw) reads back as the target it was written for. |
| PropertyPaths.PropertyNameInjective | generate_sequence_from_config.py:113-157 | Two entries with the same `propertyName` vary the same target. |
| CoeffDiff.CreateThermalFunction | update_coeff_diff.py:6-15 | The function stores the given id, mean and spread with the four fixed flags `0`, `1`, `0`, `0`. |
| CoeffDiff.CreateLambertianMulti | update_coeff_diff.py:17-38 | `useProspectExternalModule` is `1` exactly when PROSPECT is used. The parameters child exists exactly when PROSPECT is used and the parameters are non-empty. |
| CoeffDiff.LeafOpticals | update_coeff_diff.py:101-110 | The list is `leaf_0`..`leaf_{n-1}` in order, each with PROSPECT on and the fixed parameters. |
| CoeffDiff.Lambertians | update_coeff_diff.py:100-122 | The list is the leaves (only when Cab or Cw varies), then `trunk`, then `soil`, so its length is n+2 or 2. Only the leaves use PROSPECT. |
| CoeffDiff.LambertianIdentsDistinct | update_coeff_diff.py:100-122 | No two optical properties share an identifier. |
| CoeffDiff.TreeTemperatureAt | update_coeff_diff.py:147-149 | Per-tree slot k holds leaf k/2's function when k is even and trunk k/2's when it is odd. Each has mean 300 K and spread 0. |
| CoeffDiff.TemperaturesLayout | update_coeff_diff.py:139-152 | `Temp_soil` (300 K, spread 0) comes first. Then come either `Temp_leaf_i` at 1+2i and `Temp_trunk_i` at 2+2i (length 1+2n), or the single `Temperature_290_310` with spread 10. |
| CoeffDiff.TemperatureIdsDistinct | update_coeff_diff.py:139-152 | No two thermal functions share an identifier. |
| CoeffDiff.UpdateCoeffDiff | update_coeff_diff.py:62-65 | Nothing is built exactly when no tree is counted. |
| Objects.CreateObject | update_objects.py:74-210 | The object keeps its index and the record's position, scale and rotation, with zero deviations. The leaf optical property is `leaf_i` only for individual optics and otherwise `leaf_0`; the trunk's is `trunk`. Temperatures are `Temp_leaf_i`/`Temp_trunk_i` for individual temperatures, otherwise both `Temperature_290_310`. The groups link types 102 and 103. |
| Objects.GetObjFiles | update_objects.py:31-38 | The result is the walked files ending in `.obj`, all of them, in walk order. |
| Objects.UpdateObject3d | update_objects.py:224-252 | A conversion error, no positions or no `.obj` file each write nothing. Otherwise there is one object per record, numbered by its position in the list. Its model file comes from the walk, and is the first file when `multi_tree` is off. Its identifiers follow the switches. |
| Objects.GroupTypesDeclared | update_objects.py:55-59 | In a written file, the type each object's leaf and trunk groups link to is in that file's type table, under the name the link gives. |
| Soils.CheckSoilBandFiles | preprocess_soils.py:17-19 | Without a band table the result is empty. |
| Soils.CheckSoilBandFilesSpec | preprocess_soils.py:21-40 | The valid soils keep listing order. A folder is kept exactly when it is a directory whose `.txt` count equals the number of bands. |
| Soils.BandTableKeys | preprocess_soils.py:81-86 | Every band in the table is the parsed number of an element carrying both attributes. |
| Soils.BandTableLastWins | preprocess_soils.py:81-86 | A band maps to the mode of its last complete element. |
| Soils.GetSpectralIntervals | preprocess_soils.py:51-90 | The result is `None` for a missing or malformed file, a missing `SpectralIntervals`, an attribute `int()` rejects, or no complete band. Otherwise it is the non-empty band table. |
| Soils.SpectralIntervalsNeedCompleteBand | preprocess_soils.py:81-90 | A table exists only when some element carries both attributes. |
| Soils.CheckSoilFactorPath | preprocess_soils.py:117-158 | The result is true exactly when the config loads and the path is an existing directory. No band check takes place. |
| Soils.SoilFactorPathCheckWeaker | preprocess_soils.py:113-158 | The check passes whenever the check with the band-file test of lines 147-156 (disabled in the code) would pass. It also passes for an existing directory with no soil folder, which that test would reject. |
| Maket.GetSoilNames | update_maket.py:15-39 | The result is the identifiers starting with `soil_`, all of them and nothing else, in document order. It never holds the plain `soil`, and it is `None` when the file cannot be read. |
| Maket.DetermineSoilName | update_maket.py:67-92 | The name is `soil` unless `multi_sol` is on and some `soil_` name exists; then it is the first such name. |
| Maket.SoilNameChoice | update_maket.py:74-92 | A `soil_` name is chosen exactly when `multi_sol` is on and one is defined. |
| Maket.DetermineThermalFunction | update_maket.py:94-96 | The result is always `Temp_soil`. |
| Maket.WithBackup | update_maket.py:115-119 | The maket is copied to the backup only when there is none. |
| Maket.UpdateMaket | update_maket.py:110-166 | A missing maket fails and changes nothing. The backup is made before parsing. A failure leaves the maket unchanged. On an existing maket the update succeeds exactly when it parses and has an `OpticalPropertyLink`; a missing `ThermalPropertyLink` does not make it fail. |
| Maket.UpdateMaketChangesFirstLinksOnly | update_maket.py:133-157 | Only the first optical link (set to the chosen soil) and the first thermal link (set to `Temp_soil`, if any) change. |
| Maket.BackupKeepsOriginal | update_maket.py:115-119 | However often the script runs, the backup holds the maket from before the first run. |
| Maket.UpdateMaketIdempotent | update_maket.py:133-157 | A second run with the same inputs leaves the link attributes of the maket as the first run left them. The file is written again each time. |
| DartRunner.NormalizeSlashes | run_dart_sequence.py:21 | Both slash kinds become `/` and nothing else changes. |
| DartRunner.PathParts | run_dart_sequence.py:21-34 | The components are non-empty and contain no slash. |
| DartRunner.LastIndexIsLast | run_dart_sequence.py:42-46 | The loop leaves the last matching index, and -1 (here `None`) when nothing matches. |
| DartRunner.DartHomeParts | run_dart_sequence.py:42-60 | DART_HOME is the components up to and including the last `DART` one (any case), or `/Users/LENOVO/DART`. |
| DartRunner.DartLocalParts | run_dart_sequence.py:62-71 | DART_LOCAL is the components up to the last `user_data` one that is not a `DART` one, or DART_HOME followed by `user_data`. |
| DartRunner.GetDartPaths | run_dart_sequence.py:74-86 | DART_TOOLS is DART_HOME/`tools/linux`, and both paths are rooted. |
| DartRunner.DartHomeFixedPoint | run_dart_sequence.py:15-87 | Deriving the paths again from DART_HOME gives the same DART_HOME. |
| DartRunner.SelectSteps | run_dart_sequence.py:92-103 | With all four flags set the steps are `dart-full`. Otherwise they are exactly the enabled steps in the order directions, phase, maket, only. |
| DartRunner.SimulationArgument | run_dart_sequence.py:113 | The argument is what follows the first `/simulations/`, or the whole path. |
| DartRunner.ExecuteSteps | run_dart_sequence.py:112-119 | Steps run in order until one returns a positive code. The result is the last code, or 0 when nothing ran. |
| DartRunner.RunSimulation | run_dart_sequence.py:89-119 | The commands run are a prefix of the selected steps' commands with the simulation argument. Every command before the last returned a code of 0 or less, so the run ends early only at a positive code. |
| DartRunner.RelativeSequencePath | run_dart_sequence.py:136-145 | A path is found exactly when `simulations/` occurs exactly once, and it is what follows that occurrence. |
| DartRunner.RelativeSequencePathOf | run_dart_sequence.py:136-140 | A directory, `simulations/` and a relative path, with no other `simulations/`, give back the relative path. |
| DartRunner.RespondSpec | run_dart_sequence.py:180-189 | A newline is written exactly for a prompt line. The child is terminated exactly on a finishing line, after the newline. |
| DartRunner.ProtocolStopsAtFirstFinish | run_dart_sequence.py:176-189 | The loop logs the output up to and including the first `Total processing time` line. It terminates the child exactly when there is one, as its last action. |
| DartRunner.ReadOutput | run_dart_sequence.py:176-189 | The loop as a method computes the protocol's transcript. |
| DartRunner.SequenceState | run_dart_sequence.py:124 | The state is `-start` exactly when `start` is set, otherwise `-continue`. |
| DartRunner.RunSequence | run_dart_sequence.py:121-208 | A path without exactly one `simulations/` returns 1 before any launch. Otherwise the command is `bash <tools>/dart-sequence.sh <relative path> <state>`, and the output goes through the protocol. The result is the exit code, or 1 on timeout or exception. |
| Sorting.Sort | saveTIFF.py:143 | The result is sorted and a permutation of its input. |
| Sorting.SortedPermutationUnique | saveTIFF.py:143 | Only one sorted permutation exists, so the order of the bands is determined. |
| SaveTiff.ExtractSize | saveTIFF.py:19-37 | The first `Size=` match wins. Without one, both `ncols=` and `nrows=` must match, and otherwise the `ValueError` is raised. |
| SaveTiff.SizeHeaderRoundTrip | saveTIFF.py:21-26 | A header with `Size=<columns> <rows>`, after text without an `S`, reads back as those two numbers. |
| SaveTiff.GridHeaderRoundTrip | saveTIFF.py:29-35 | A header with only `ncols=<columns>` and `nrows=<rows>` reads back as those two numbers. |
| SaveTiff.NoIntervalsNoThermal | saveTIFF.py:39-53 | Without spectral intervals no band is thermal. |
| SaveTiff.ThermalFromLastElement | saveTIFF.py:47-53 | A band is thermal exactly when its last complete element gives mode 2. |
| SaveTiff.PropsKeys | saveTIFF.py:101-117 | A key is in `props_dict` exactly when some visited pair (lines 2t+1 and 2t+2) produces it. |
| SaveTiff.PropsLastWins | saveTIFF.py:108-117 | A key holds the value of the last pair that produces it. |
| SaveTiff.PairEntryOf | saveTIFF.py:108-117 | A pair `<label>:<a.b.name>` / `<label>:<number>` gives the key `name` followed by the pair number, with the number's value. |
| SaveTiff.SortedBandNames | saveTIFF.py:131-143 | The names are the `BAND` directories of the listing, sorted. |
| SaveTiff.ChooseFolder | saveTIFF.py:148-161 | The preferred folder is `Tapp` for a thermal band and `BRF` otherwise, falling back to the other one. A band with neither is skipped. |
| SaveTiff.LoadImage | saveTIFF.py:165-202 | An image loads exactly when the folder has an `ima…mpr` header and an `ima…mp#` image, the header's size can be extracted, and the image holds columns times rows values, at least one. An empty image is skipped because `np.min` raises at line 200. The result is the header's size. |
| SaveTiff.LoadBandScale | saveTIFF.py:205-212 | The factor is 100 for a thermal band or a band read from `Tapp`, and 10000 for a reflectance band read from `BRF`. |
| SaveTiff.LoadBandsSpec | saveTIFF.py:143-216 | `bands_arr` holds the bands that load, in the order of the names, each as it loads. |
| SaveTiff.BandLoop | saveTIFF.py:143-144 | The loop crashes exactly when some `BAND` name makes `int()` raise. |
| SaveTiff.BandLoopOrder | saveTIFF.py:143-216 | The loaded bands are the sorted `BAND` folders that load, in sorted order. |
| SaveTiff.LoadedBandsAreBandDirs | saveTIFF.py:131-145 | Every loaded band comes from a `BAND` folder of the listing with its name. |
| SaveTiff.WrittenDescriptionsShift | saveTIFF.py:242-244 | As written, when the first sorted band is skipped and the second loads, layer 1 holds the second band but carries the first band's name. |
| SaveTiff.WrittenDescriptionsWithoutSkips | saveTIFF.py:242-244 | When every band loads, the descriptions as written are right. |
| SaveTiff.BandWithoutFoldersSkipped | saveTIFF.py:153-159 | A band folder without `BRF` and `Tapp` images is skipped. |
| SaveTiff.MakeTiff | saveTIFF.py:222-245 | As written: a GeoTIFF is written exactly when all bands share the first band's size. It uses the fixed origin, pixel size and CRS and one layer per band in order. Layer i is described as `band_names[i]`, the i-th sorted name, whether or not that band loaded. |
| SaveTiff.CorrectedMakeTiff | saveTIFF.py:222-245 | Corrected: the same file, with each layer described by the name of the band it holds. |
| SaveTiff.ProcessSequenceSpec | saveTIFF.py:94-245 | A sequence without a readable properties file is skipped. Otherwise props are parsed, and a bad band name crashes the script. A GeoTIFF is attempted exactly when some band loads. Its layers are the loaded bands, and its descriptions are the sorted band names as written. |
| SaveTiff.ProcessedDescriptionsShift | saveTIFF.py:143-244 | As written, through the whole sequence: when the first sorted band is skipped and the second loads, layer 0 holds the second band but is described with the first band's name. |
| SaveTiff.CorrectedProcessSequence | saveTIFF.py:94-245 | Corrected: the same outcome, props and layers as the script as written, with the corrected descriptions. |
| SaveTiff.ProcessAllSpec | saveTIFF.py:84-98 | The sequences are processed in listing order, and the loop ends early only at a crash. |
| SaveTiff.TiffDescriptionsNameTheirBands | saveTIFF.py:242-244 | Corrected, through the whole sequence: layer i's description names the `BAND` folder whose image is layer i. |
| Consistency.WrittenSlotsAgreeOnlyForOneTree | generate_sequence_from_config.py:127-142 | As written, the blocked slots hit `Temp_leaf_i`/`Temp_trunk_i` of the interleaved registry exactly when there is at most one tree. |
| Consistency.TwoTreesMisaddressed | generate_sequence_from_config.py:133 | With two or more trees, leaf 1's entry varies slot 2, which holds `Temp_trunk_0`. |
| Consistency.CorrectedEntriesTargetTheirTree | update_coeff_diff.py:147-149 | With slots 1+2i and 2+2i, leaf i's and trunk i's entries vary their own functions, with their own columns, for any number of trees. |
| Consistency.CorrectedEntriesMatchWrittenForOneTree | generate_sequence_from_config.py:127-142 | For at most one tree, the corrected entries are the ones written. |
| Consistency.ShortTreeLineRaises | generate_sequence_from_config.py:104-107 | As written: with at least one run, scales vary, every x-scale parses and some line has one, and one tree line has fewer than 7 fields. Then `scales[i]` raises. |
| Consistency.BareTreeLine | generate_sequence_from_config.py:13-15 | The line `0` counts as a tree but has no x-scale. |
| Consistency.TreeScales | generate_sequence_from_config.py:10-19 | Corrected reading: one slot per tree line. A tree line gets its x-scale, or nothing when it has fewer than 7 fields. From the first token `float()` rejects on, every slot is empty. |
| Consistency.TreeScaleIsOwn | generate_sequence_from_config.py:10-19 | A filled slot belongs to a tree line with at least 7 fields and holds the parsed x-scale token of that same line. |
| Consistency.CorrectedScaleEntries | generate_sequence_from_config.py:104-114 | Corrected loop: every entry varies the scale of a tree that has a slot, with deviations around that tree's own scale and its own draws. |
| Consistency.CorrectedScaleBlock | generate_sequence_from_config.py:104-114 | The corrected scale block keeps the guard of line 104. Every entry varies the scale of a tree line that has a scale, around that line's own scale. |
| Consistency.ScalesAreTreeScales | generate_sequence_from_config.py:7-30 | When scales vary and no fewer scales than trees were read, slot k holds `scales[k]` for every tree. |
| Consistency.CorrectedCreateSequence | generate_sequence_from_config.py:104-107 | Corrected: with the scale loop over the tree lines' own scales, no `IndexError` occurs. |
| Consistency.CorrectedAgreesWhereWrittenSucceeds | generate_sequence_from_config.py:104-114 | Wherever the script as written succeeds and, should it have no run, has a scale for every tree, the corrected one writes the same descriptor. |
| Consistency.CorrectedScalesOwnTree | generate_sequence_from_config.py:104-114 | Corrected: a tree line with an x-scale gets three entries for its own x, y and z, around that line's parsed scale and within 20% of it. A tree line without one gets no entry. |
| Consistency.BareTreeHasNoScale | generate_sequence_from_config.py:13-15 | The tree line `0` has an empty slot. |
| ObjectLinks.BareTreeFileCounts | update_objects.py:7-29 | As written: a position file holding only the line `0` has one counted tree (update_coeff_diff.py:40-49) but no placement record. |
| ObjectLinks.FewerObjectsThanTrees | update_objects.py:7-29 | As written: when every placement starts with `0`, a line starting with `0` that is no placement leaves fewer objects than counted trees. |
| ObjectLinks.MoreObjectsThanTrees | update_objects.py:7-29 | As written: when every line starting with `0` is a placement, a placement not starting with `0` gives more objects than counted trees. |
| ObjectLinks.CorrectedCountIsObjectCount | update_objects.py:7-29 | Corrected: the tree count taken from the placement lines is the number of objects. |
| ObjectLinks.TreeTemperatureDefined | update_coeff_diff.py:139-152 | With per-tree temperatures, `Temp_leaf_i` and `Temp_trunk_i` are defined exactly when i is below the tree count. |
| ObjectLinks.LeafOpticalDefined | update_coeff_diff.py:100-122 | With individual optics, `leaf_i` is defined exactly when i is below the tree count. |
| ObjectLinks.SharedLeafOpticalUndefined | update_coeff_diff.py:100-122 | Without individual optics, `leaf_0` is not defined. |
| ObjectLinks.ObjectLinksResolve | update_objects.py:149-208 | As written: object i's `trunk` link is defined. Its leaf link is defined exactly with individual optics and i below the tree count. Its thermal links are defined exactly when they are shared or i is below the tree count. |
| ObjectLinks.WrittenObjectsResolve | update_objects.py:212-252 | As written, on the scripts' own files: every object of `object_3d.xml` resolves against the `coeff_diff.xml` written for the same position file exactly as stated for `ObjectLinksResolve`. |
| ObjectLinks.CorrectedLambertians | update_coeff_diff.py:100-122 | Corrected registry: with individual optics it is the list as written. |
| ObjectLinks.CorrectedObjectLinksResolve | update_objects.py:149-208 | Corrected: every link of an object below the tree count is defined, whatever the switches. |
| ObjectLinks.CorrectedWrittenObjectsResolve | update_objects.py:212-252 | Corrected, on the scripts' own files: with the tree count taken from the placements and `leaf_0` written when the leaves share it, every link of every object is defined. |
| ObjectLinks.MaketLinksResolve | update_maket.py:15-96 | On the `coeff_diff.xml` as written, no `soil_` name exists. The maket gets the plain `soil`, which is defined, and `Temp_soil`, which is thermal function 0, the one the sequence's soil entry varies. |

## Left out

- File, directory and XML input/output, JSON, pretty-printing, `print` and
  the log files. Documents are values, and an unreadable file is `None`.
- Floating point. Values are exact reals, `float()` is a parameter
  (`FloatParser`), and `str(float)` is a printer parameter of `Args`.
- `random`: unit draws in [0, 1) are inputs, shaped by `WellShaped`, and
  `random.choice` is an index function.
- `numpy` and `rasterio`: pixel values and the cast to 16 bits are left
  out. An image is its size and its number of doubles, and a GeoTIFF is
  its metadata and layers.
- `subprocess`: exit codes, the timeout and exceptions are inputs
  (`ChildOutcome`), and the environment variables and working directory
  are not modelled.
- The `sys.platform == 'win32'` branches (drive letters, `.bat`,
  `tools/windows`, `\` separators). Only the POSIX branch is modelled.
- `get_thermal_functions_from_coeff_diff` (update_maket.py:41-65):
  nothing in the modelled code calls it.
- prepare_simulation.py and the `main` functions: they only sequence the
  scripts above.
- `int()` accepts only ASCII digits (no `_` separators, no other Unicode
  digits). The `\d` and `\s` of `re` are likewise ASCII digits and Python
  whitespace.
- Text.Upper, Text.Lower: only the ASCII letters change case. Python's
  `upper`/`lower` also map other Unicode letters, so a path component
  with non-ASCII letters may compare differently.
- Text-mode newline translation (`\r\n`) and the `errors='ignore'`
  decoding: headers are given as decoded strings.
- Consistency.CorrectedAgreesWhereWrittenSucceeds: with no run and fewer scales than trees, the script as written writes three empty entries for every tree, while the corrected script writes none for a tree without a scale; the agreement is stated only where this case does not arise.
- Objects.UpdateObject3d: `random.choice` is given as an index function
  for each object, not as a stream of draws.

## Findings

| source | as written | input that shows it | evidently intended | confidence | as-written member | corrected member |
|---|---|---|---|---|---|---|
| generate_sequence_from_config.py:127-142 | Leaf i varies `ThermalFunction[i+1]` and trunk i `ThermalFunction[i+n+1]`, but update_coeff_diff.py:147-149 puts `Temp_leaf_i` at 1+2i and `Temp_trunk_i` at 2+2i | `tree_temperature` on, two trees: the entry for leaf 1 varies slot 2, which is `Temp_trunk_0` | leaf i at 1+2i, trunk i at 2+2i | high; not executed | Consistency.TwoTreesMisaddressed | Consistency.CorrectedEntriesTargetTheirTree |
| generate_sequence_from_config.py:104-107 | The scale loop runs over every line starting with `0`, but `scales` holds only lines with at least 7 fields | `scale` on, `nbr_of_sequence` ≥ 1, position file with the lines `0 0 0 0 1 0 0` and `0`: two trees, one scale, `scales[1]` raises `IndexError` | each tree line gets its own scale, and a tree without one gets no entry | high; not executed | Consistency.ShortTreeLineRaises | Consistency.CorrectedScalesOwnTree |
| saveTIFF.py:242-244 | Layer i is described as `band_names[i]`, and `band_names` also holds the bands skipped after line 145 | `BAND0` without `BRF` and `Tapp` folders, `BAND1` that loads: layer 1 holds `BAND1`, described as `BAND0` | each layer described by its own band | high; not executed | SaveTiff.ProcessedDescriptionsShift | SaveTiff.TiffDescriptionsNameTheirBands |
| update_objects.py:7-29 | Objects are made from the 10-field lines, while update_coeff_diff.py:40-49 and the sequence count the lines starting with `0` | a position file with the line `0` next to 10-field placements, or a placement whose first field is `1`: the counts differ, and with `tree_temperature` on, an object beyond the count links `Temp_leaf_i` that is not defined | one tree count for all scripts, the number of objects | medium; not executed | ObjectLinks.BareTreeFileCounts | ObjectLinks.CorrectedCountIsObjectCount |
| update_coeff_diff.py:101-110 | `leaf_i` properties are written only when Cab or Cw varies, but update_objects.py:153-154 links every object's leaves to `leaf_0` otherwise | `chlorophyl` and `water_thickness` off: `coeff_diff.xml` holds only `trunk` and `soil`, and every object links `leaf_0` | the leaf property the objects link is defined | high; not executed | ObjectLinks.SharedLeafOpticalUndefined | ObjectLinks.CorrectedWrittenObjectsResolve |
