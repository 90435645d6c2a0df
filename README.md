# Mangrove NDVI monitoring scripts (PA-458), modelled in Dafny

The repository is a set of PyQGIS scripts that are run, one after another, in
the QGIS Python console. Together they take NDVI rasters of the mangroves along
the PA-458 road and produce Sankey transition tables from them. Each script is
modelled in its own module:

- `classificacao.dfy` models `classificacao_pyqgis.py`. It styles band 3 of
  every raster with five discrete equal-interval classes, and widens a
  constant band by ±0.001.
- `ndvi_clip.dfy` models `script_ndvi_pyqgis_final.py`. It clips every raster
  by the mask layer `buffer_total` and saves `<name>.tif`. It then loads the
  result and styles it, but leaves a constant band unstyled.
- `vetorizacao.dfy` models `script_vetorizacao.py`. It picks the band, builds
  the 15-entry reclassification table into classes 1..5, then reclassifies and
  polygonizes the raster into `<safe name>_vetor.gpkg`. The result gets a
  categorised style on `DN`.
- `dissolve.dfy` models `script_dissolve_final.py`. It dissolves by `DN` into
  `<name>_dissolvido.gpkg` and loads that file as `<name>_FINAL`. It then adds
  the `Rotulo` and `Area_Ha` fields, fills them in place, and styles the layer.
- `sankey.dfy` and `sankey_export.dfy` model `script_pre_processamento_sankey.py`:
  - the `_FINAL` layers are found and each is parsed into a sector
    (Leste/Oeste) and a year;
  - `DN` is renamed per year, and each sector's years are intersected in
    order;
  - the export selects the sorted class columns and groups the features by
    their class history, with the area in hectares;
  - the shapefile and CSV paths and the CSV table are computed.

Shared modules support these:
- `layers.dfy`: the host objects (layers, fields, features, band statistics).
- `strings.dfy`: Python string and `ntpath` operations.
- `ordering.dfy`: `str` ordering, `list.sort()` and `sorted()`.
- `equal_interval.dfy`: the five-class equal-interval limits.
- `wrappers.dfy`: `Option`.

Every QGIS processing call is a function-valued parameter of the method that
makes it: clip, reclassify + polygonize, dissolve, refactor fields,
intersection. The same holds for `round(x, 4)`. Whether an output folder
exists or can be created is a boolean parameter. Each script's loop is a
`method` proved equal to a recursive reference function. The properties the
scripts rely on are lemmas about those functions. The dissolve output's
attribute table is edited in place through a class (`Dissolve.EditableLayer`).

Two of the runs take the choice behind a finding as a parameter, so that each
run is modelled both as the script is written and as corrected:
- the sankey run (`Sankey.ProcessAll` and the members below it) takes the
  new name of a year's `DN` field as a function `newName`.
  `Sankey.AsWrittenClassName` gives `Class<year>`, as line 18 of the script
  does. `Sankey.ClassName` gives `CLASSE_<year>`, the name the export selects;
- the vectorisation run (`Vetorizacao.VectorizeLoadedLayers`, `ReportFor`)
  takes the `RANGE_BOUNDARIES` option handed to the conversion. The script
  passes `AsWrittenBoundaries` (0); `ClassBoundaries` (1) is the corrected
  option;
- the dissolve run (`Dissolve.DissolveAll`, `Reports`) takes a flag
  `skipFinal`. The script is `false`: it skips only names containing
  `_dissolvido`. With `true` it also skips the `<name>_FINAL` layers it
  loads itself.

## Model

| member | source | states |
|---|---|---|
| EqualInterval.LimitsIncrease | classificacao_pyqgis.py:57-59 | On a non-empty range, a later class has strictly larger lower and upper limits |
| EqualInterval.UpperLimitsIncreasing | classificacao_pyqgis.py:59 | The list of five upper limits strictly increases when vmin < vmax |
| EqualInterval.RangeEndpoints | script_vetorizacao.py:84-89 | The first class starts at vmin and the last one ends exactly at vmax |
| EqualInterval.LimitsContiguous | script_vetorizacao.py:88-89 | Each class's upper limit is the next class's lower limit |
| EqualInterval.LimitsWithinRange | script_vetorizacao.py:84-89 | On a non-empty range every class lies inside [vmin, vmax] and has positive width |
| Classificacao.EffectiveRange | classificacao_pyqgis.py:52-54 | The range used contains the band's range, is non-empty when vmin <= vmax, and is the band's own range unless the band is constant |
| Classificacao.ApplyDiscretePseudocolor | classificacao_pyqgis.py:30-78 | The styling function: its result is the reference outcome (not a raster, one of the three errors, or the five zipped items) |
| Classificacao.PseudocolorContract | classificacao_pyqgis.py:32-51 | A non-raster is left alone; a missing provider and too few bands raise; styling happens exactly for a raster with a provider, enough bands and both statistics |
| Classificacao.StyledItems | classificacao_pyqgis.py:52-64 | A styled layer gets five items: item i has limit lo + step·(i+1), label i and colour i; the limits strictly increase from above lo up to hi (the range being widened for a constant band) |
| Classificacao.AppliedPlusSkipped | classificacao_pyqgis.py:85-92 | Every raster is counted as applied or listed as skipped, never both, and non-rasters are neither |
| Classificacao.ApplyToAllRasters | classificacao_pyqgis.py:80-92 | The loop's counter and skipped list are the reference count and list, and together they cover every raster |
| NdviClip.ApplyDiscretePseudocolor | script_ndvi_pyqgis_final.py:17-47 | This script's styling: nothing when a statistic is missing or the band is constant, otherwise the reference items |
| NdviClip.PseudocolorItemsContract | script_ndvi_pyqgis_final.py:28-37 | Styling is skipped exactly for missing or constant statistics; otherwise five items pair limit vmin + step·(i+1), label i and hex colour i |
| NdviClip.PseudocolorItemsIncrease | script_ndvi_pyqgis_final.py:31-37 | On a non-empty band range the five item limits strictly increase and the last is vmax |
| NdviClip.ClippedPathShape | script_ndvi_pyqgis_final.py:85-86 | The clip is written as `<folder>\<name>.tif`, which starts with the output folder and ends with `.tif` |
| NdviClip.ClippedOutputNotEligible | script_ndvi_pyqgis_final.py:76-80 | A layer loaded from a clip output is filtered out, so outputs are never clipped again |
| NdviClip.FirstNamed | script_ndvi_pyqgis_final.py:60-64 | No mask exactly when no layer has the name; otherwise the earliest layer of that name |
| NdviClip.ReportsPerEligible | script_ndvi_pyqgis_final.py:73-80 | One report per eligible raster; the processed count is at most the number of eligible rasters |
| NdviClip.ReportStyledIffValidLoad | script_ndvi_pyqgis_final.py:103-132 | A raster counts as processed exactly when the clip was written and loaded as a valid layer |
| NdviClip.ClipAndStyleAll | script_ndvi_pyqgis_final.py:50-137 | The run stops when the folder is unavailable or the mask is missing; otherwise it returns the reference reports, with `processados` equal to the number styled |
| Vetorizacao.BandToUse | script_vetorizacao.py:67-73 | Band 3 exactly when there are at least three bands, otherwise band 1; a raster with bands always gets one it has |
| Vetorizacao.TablePrefix | script_vetorizacao.py:86-91 | After k passes of the loop the table holds 3k entries |
| Vetorizacao.BuildReclassTable | script_vetorizacao.py:84-91 | The table-building loop produces the reference table |
| Vetorizacao.TablePrefixEntry | script_vetorizacao.py:87-91 | Entries 3i, 3i+1 and 3i+2 are range i's low bound, its high bound and the class i+1 |
| Vetorizacao.ReclassTriple | script_vetorizacao.py:84-91 | The table has 15 entries; triple i is (vmin + step·i, vmin + step·(i+1), i+1), with 0.0001 added to the last high bound |
| Vetorizacao.ReclassContiguous | script_vetorizacao.py:88-89 | Each range's high bound is the next range's low bound |
| Vetorizacao.ReclassEndpoints | script_vetorizacao.py:88-91 | The first low bound is vmin, the last high bound is vmax + 0.0001, and the last class is 5 |
| Vetorizacao.ReclassRangesNonEmpty | script_vetorizacao.py:79-91 | On a band that is not constant every range has low < high |
| Vetorizacao.NoRowFrom | script_vetorizacao.py:96-105 | A value that no row's range holds gets no class (no data) |
| Vetorizacao.AsWrittenMinimumUnclassified | script_vetorizacao.py:101 | With `RANGE_BOUNDARIES` 0 (min < value <= max), a pixel equal to the band's minimum gets no class |
| Vetorizacao.ClassFound | script_vetorizacao.py:88-91 | With half-open ranges, searching from a row whose low bound is at most v finds the range holding v and returns its class |
| Vetorizacao.EveryValueClassified | script_vetorizacao.py:84-105 | With min <= value < max, every value from vmin to vmax gets class k+1 of the one range [low_k, high_k) that holds it |
| Vetorizacao.SafeNameContract | script_vetorizacao.py:108 | The safe name is as long as the name, has no space and no slash, and changes exactly those characters |
| Vetorizacao.VectorPathShape | script_vetorizacao.py:109 | The vector is written as `<folder>\<safe name>_vetor.gpkg` inside the output folder |
| Vetorizacao.BuildCategories | script_vetorizacao.py:25-38 | Five categories; category i has value i+1, label i and colour i |
| Vetorizacao.ReportForContract | script_vetorizacao.py:67-119 | A raster without statistics or with a constant band is skipped with no table. Any other is converted from its chosen band, with that band's table, the given `RANGE_BOUNDARIES` option and its safe-name path ending in `_vetor.gpkg`; the report is a failure exactly when the conversion raises, and vectorised exactly when the output loads valid |
| Vetorizacao.ConvertedTableClasses | script_vetorizacao.py:84-102 | For a converted raster with minimum below maximum: under the script's option 0 a pixel at the minimum gets no class, and under option 1 every value from the minimum to the maximum gets one |
| Vetorizacao.VectorizeLoadedLayers | script_vetorizacao.py:44-146 | The run stops when the folder is unavailable; otherwise it returns the reference report of every raster, in project order, for the given range option (the script's is `AsWrittenBoundaries`) |
| Vetorizacao.VectorizeRaster | script_vetorizacao.py:67-119 | The loop body for one raster gives that raster's reference report for the given range option |
| Dissolve.DissolvedPathShape | script_dissolve_final.py:63-66 | The output lies in the directory of the source path before its first `|`; that directory has no `|`; the output name ends with `<name>_dissolvido.gpkg` |
| Dissolve.AsWrittenOutputSelectedAgain | script_dissolve_final.py:56-58 | With the filter as written, a vector layer named `<name>_FINAL`, made from a selected layer, is itself selected |
| Dissolve.CorrectedOutputNotSelected | script_dissolve_final.py:58 | With the corrected filter, no layer named `<name>_FINAL` is selected |
| Dissolve.ClassKey | script_dissolve_final.py:96-99 | The dictionary key a DN finds: an integer finds itself, an integral float finds its integer, anything else finds none |
| Dissolve.LabelFor | script_dissolve_final.py:96-99 | Classes 1..5 get their label; any other DN gets "Indefinido", which is never a class label |
| Dissolve.FilledFeature | script_dissolve_final.py:95-106 | A filled feature has `Rotulo` set to its class label and `Area_Ha` set to the rounded area/10000; DN, the geometry and every other attribute are kept |
| Dissolve.EditableLayer.constructor | script_dissolve_final.py:77-84 | The edited layer starts with the loaded layer's fields and features |
| Dissolve.EditableLayer.AddAttributes | script_dissolve_final.py:87-92 | The fields are appended and the features are unchanged |
| Dissolve.EditableLayer.UpdateFeature | script_dissolve_final.py:106 | A feature in range is replaced and nothing else changes; an index out of range changes nothing |
| Dissolve.FillLabelAndArea | script_dissolve_final.py:95-106 | After the in-place loop, each feature is its old self filled, and the fields are unchanged |
| Dissolve.BuildCategories | script_dissolve_final.py:28-41 | Five categories; category i has value i+1, label i (never "Outros") and colour i |
| Dissolve.CategoriesLabelled | script_dissolve_final.py:19-33 | Every category value is a key of `ROTULOS_MAPA`, so the "Outros" fallback is never taken |
| Dissolve.ReportsPerSelected | script_dissolve_final.py:54-58 | For either filter (`skipFinal`), one report per selected layer |
| Dissolve.ReportForContract | script_dissolve_final.py:68-108 | Dissolved exactly when the output loads as a valid layer. A dissolved layer is named `<name>_FINAL` and gains exactly the two fields; its features keep their count, classes and areas |
| Dissolve.DissolveOne | script_dissolve_final.py:62-130 | The body for one layer (dissolve, load, add and fill fields, style) yields the reference report |
| Dissolve.DissolveAll | script_dissolve_final.py:47-137 | For either filter (`skipFinal`), the loop yields the reference reports, one per selected layer |
| Ordering.LexLessAsymmetric | script_pre_processamento_sankey.py:60 | Python's `<` on strings is asymmetric |
| Ordering.LexLeqTransitive | script_pre_processamento_sankey.py:60 | "Not less than" is transitive |
| Ordering.Insert | script_pre_processamento_sankey.py:60 | Inserting into a sorted list adds exactly the element and keeps the list sorted |
| Ordering.SortStrings | script_pre_processamento_sankey.py:60 | `list.sort()` gives a sorted permutation of its input |
| Ordering.Min | script_pre_processamento_sankey.py:120 | The least element of a non-empty set of years |
| Ordering.SortedNats | script_pre_processamento_sankey.py:120 | `sorted()` of the year keys lists each key exactly once, in strictly increasing order |
| Strings.FirstField | script_dissolve_final.py:63 | `split("|")[0]` is a prefix without `|`: the whole text when there is no `|`, otherwise the text before the first one |
| Strings.DirName | script_dissolve_final.py:64 | `os.path.dirname` is a prefix of the path; a path with no separator gives just its drive |
| Strings.PathJoin | script_dissolve_final.py:66 | `os.path.join` starts with the folder and ends with the name, with a separator inserted after a folder that does not end in one |
| Strings.ReplaceChar | script_vetorizacao.py:108 | `replace` of one character changes exactly its occurrences and keeps the length |
| Strings.Split | script_pre_processamento_sankey.py:100 | `split('_')` gives at least one part and no part contains `_` |
| Strings.JoinSplit | script_pre_processamento_sankey.py:100 | Joining the parts with `_` gives back the name |
| Strings.SplitJoin | script_pre_processamento_sankey.py:100 | Splitting a join of parts free of `_` gives back the parts |
| Strings.DecimalString | script_pre_processamento_sankey.py:18 | `"{}".format(year)` is a digit string without a leading zero |
| Strings.DecimalValue | script_pre_processamento_sankey.py:105-106 | `int(p)` of a digit string of length n is below 10^n |
| Strings.DecimalRoundTrip | script_pre_processamento_sankey.py:105-106 | `int("{}".format(n)) == n` |
| Strings.UpperConcat | script_pre_processamento_sankey.py:97 | `upper()` distributes over concatenation |
| SankeyExport.WithPrefix | script_pre_processamento_sankey.py:59 | The names kept are exactly those starting with the prefix |
| SankeyExport.ClassColumns | script_pre_processamento_sankey.py:59-60 | The class columns are sorted and are exactly the field names starting with `CLASSE_` |
| SankeyExport.History | script_pre_processamento_sankey.py:66 | A history has one value per class column |
| SankeyExport.Histories | script_pre_processamento_sankey.py:64-66 | There is one history per feature |
| SankeyExport.FirstOccurrencesMembers | script_pre_processamento_sankey.py:69-72 | The dictionary's keys are exactly the histories that occur |
| SankeyExport.FirstOccurrencesDistinct | script_pre_processamento_sankey.py:69-72 | No history is a key twice |
| SankeyExport.GroupByHistory | script_pre_processamento_sankey.py:62-72 | The grouping loop's keys are the distinct histories in first-seen order, and each total is the hectares of the features with that history |
| SankeyExport.AddFeature | script_pre_processamento_sankey.py:65-72 | One pass of the grouping loop keeps the keys the first occurrences and every total its group's hectares, over one more feature |
| SankeyExport.AreaConserved | script_pre_processamento_sankey.py:62-72 | The grouped hectares add up to the hectares of all features |
| SankeyExport.CsvRow | script_pre_processamento_sankey.py:77-78 | Row i is the i-th distinct history, as wide as the header, followed by its rounded hectares |
| SankeyExport.CsvContract | script_pre_processamento_sankey.py:74-78 | The header is the class columns plus `area_ha`. There is one row per history, no two alike and none missing; each row ends with its rounded hectares, and the hectares add up to the total area |
| SankeyExport.ExportProducts | script_pre_processamento_sankey.py:38-80 | The export gives the shapefile path, the CSV path and the reference CSV table |
| SankeyExport.WriteRows | script_pre_processamento_sankey.py:77-78 | The row loop writes, for each key in order, the key followed by its rounded total |
| SankeyExport.NoClassColumns | script_pre_processamento_sankey.py:59-78 | With no `CLASSE_` field the table collapses to the header `area_ha` and at most one row, which holds the total area |
| SankeyExport.SingleRow | script_pre_processamento_sankey.py:62-78 | With no class column the table is the header `area_ha` with no row for no features, else one row with the rounded total area |
| SankeyExport.EmptyHistoryKeys | script_pre_processamento_sankey.py:64-72 | With no class column the only key is the empty history, and there is none without features |
| SankeyExport.EmptyHistoryArea | script_pre_processamento_sankey.py:62-72 | With no class column the empty history's total is the hectares of all features |
| Sankey.ClassName | script_pre_processamento_sankey.py:17 | The corrected new name starts with `CLASSE_` and is as long as `CLASSE_` plus the year's decimal digits |
| Sankey.DnFields | script_pre_processamento_sankey.py:21-22 | The fields selected are exactly those named `DN` |
| Sankey.DnMappings | script_pre_processamento_sankey.py:20-29 | One mapping per `DN` field: expression `"DN"`, that field's length, precision and type, and the new name |
| Sankey.BuildFieldMapping | script_pre_processamento_sankey.py:20-29 | The mapping loop gives the reference mappings |
| Sankey.RenameDnField | script_pre_processamento_sankey.py:16-36 | `renomear_campo_dn` is `refactorfields` applied to the `DN` mappings for `newName(year)` (`AsWrittenClassName` for the script) |
| Sankey.RenameTargets | script_pre_processamento_sankey.py:18-29 | One mapping per `DN` field. Under the script's `Class<year>` no mapping's name is selected by the export; under the corrected `CLASSE_<year>` every one is |
| Sankey.AsWrittenNameNotSelected | script_pre_processamento_sankey.py:18 | The name the script writes, `Class<year>`, never starts with `CLASSE_` |
| Sankey.AsWrittenExportCollapses | script_pre_processamento_sankey.py:18-78 | With fields named as the script writes them, no class column is selected and the CSV is just `area_ha` and the total area |
| Sankey.ChronologicalColumns | script_pre_processamento_sankey.py:59-60 | With the corrected names, sorting two four-digit years' columns puts the earlier year first |
| Sankey.FirstYear | script_pre_processamento_sankey.py:103-107 | A year exists exactly when some part has four digits; it is the value of the first such part, below 10000 |
| Sankey.FindYear | script_pre_processamento_sankey.py:103-107 | The loop with `break` finds the reference year |
| Sankey.ParseName | script_pre_processamento_sankey.py:100-109 | A name registers exactly when a part is Leste or Oeste and the first four-digit part is non-zero; Leste wins; the year is between 1 and 9999 |
| Sankey.DissolveOutputPassesFinalFilter | script_pre_processamento_sankey.py:97 | A dissolve output's `<name>_FINAL` passes the upper-cased `FINAL` filter |
| Sankey.RegistryOf | script_pre_processamento_sankey.py:86 | Both sectors are always present in `dados_mapa` |
| Sankey.ParseLayer | script_pre_processamento_sankey.py:93-109 | The filters and parsing of the loop body give the reference parse |
| Sankey.RegisterLayers | script_pre_processamento_sankey.py:86-112 | The registration loop gives the reference registry and count |
| Sankey.RegistryContract | script_pre_processamento_sankey.py:109-110 | A (sector, year) is registered exactly when some layer parses to it, and the layer kept is the last such one |
| Sankey.CountZeroIffEmpty | script_pre_processamento_sankey.py:109-116 | `count == 0` exactly when no layer parses, which is exactly when both sectors are empty |
| Sankey.CrossingsShape | script_pre_processamento_sankey.py:128-138 | There is one crossing fewer than years, and crossing i joins year i to year i+1 |
| Sankey.IntersectYears | script_pre_processamento_sankey.py:125-138 | The intersection loop gives the reference accumulated layer, renamed by the given `newName`, and the crossings |
| Sankey.CrossYear | script_pre_processamento_sankey.py:128-138 | One pass of the intersection loop extends the accumulated layer by the next year, renamed, and the crossings by the pair (base year, next year) |
| Sankey.ProcessSector | script_pre_processamento_sankey.py:119-142 | One pass of the sector loop gives the reference sector report for the given `newName` |
| Sankey.SectorSkipped | script_pre_processamento_sankey.py:120-121 | A sector is skipped exactly when it has no year, and a report is about its own sector |
| Sankey.SectorReportShape | script_pre_processamento_sankey.py:120-127 | A processed sector's report holds a year exactly when the sector has a layer for it, in strictly increasing order |
| Sankey.SectorCrossingsShape | script_pre_processamento_sankey.py:127-138 | A processed sector's report has one crossing fewer than years; crossing i joins year i to year i+1, which is later |
| Sankey.CrossingsIncreasing | script_pre_processamento_sankey.py:128-138 | For strictly increasing years, crossing i joins year i to year i+1, the earlier year first |
| Sankey.SectorShapefile | script_pre_processamento_sankey.py:141-142 | The sector's shapefile is `transicao_completa_<sector>.shp` in the base folder |
| Sankey.ProcessAll | script_pre_processamento_sankey.py:82-142 | The whole run gives the reference run report for the given `newName` (`AsWrittenClassName` for the script) |
| Sankey.ProcessSectors | script_pre_processamento_sankey.py:119-142 | The loop over the sectors gives the reference reports for the given `newName`, skipped sectors left out |
| Sankey.ReportedSectors | script_pre_processamento_sankey.py:119-142 | The reports are about exactly the sectors with a year, once each, in loop order |
| Sankey.BothSectors | script_pre_processamento_sankey.py:119-121 | Over Leste then Oeste, the sectors with a year are Leste if it has one, then Oeste if it has one |
| Sankey.SectorOrder | script_pre_processamento_sankey.py:119 | Reports about Leste and/or Oeste in that order have that many entries, Leste first |
| Sankey.RunContract | script_pre_processamento_sankey.py:114-142 | For any `newName`, the run stops exactly when no layer parses; otherwise one or two sectors are processed, Leste before Oeste, and a single one is Leste exactly when Leste has a year |

## Left out

- Renderers, shaders, symbols, repaints, canvas refresh and console messages are display only. Colours are kept as plain values.
- Placing a loaded layer in the layer tree, and adding it to the project, are left out. So are the shapefile reload in the export and the edit session (`startEditing`/`commitChanges`).
- The processing algorithms are parameters whose results are opaque:
  - `gdal:cliprasterbymasklayer`;
  - `native:reclassifybytable` + `gdal:polygonize`;
  - `native:dissolve`;
  - `native:refactorfields`;
  - `native:intersection`.
- `SankeyExport.ExportProducts`: the `native:savefeatures` write of the combined shapefile is left out. The model computes its path only, with no save parameter.
- The sankey script has no `try`: an exception from `refactorfields`, `intersection` or `savefeatures` ends the whole run, so after a failure in Leste, Oeste is never processed. The model takes `refactor` and `intersect` as total functions and does not capture that abort.
- What `refactorfields` and `intersection` keep of the fields is opaque. So the collapse of the as-written export is shown for a layer whose fields carry only as-written names (`Sankey.AsWrittenExportCollapses`), not derived from a run.
- `Layers.BandStatistics`: for band 0, or a band past `bandCount()`, it gives no minimum and no maximum. That stands for the host's behaviour, which the scripts never show. The clip script reaches it whenever a clip has fewer than three bands.
- `NdviClip.ReportFor`: the clip script reads band 3 of every loaded clip with no band-count check (script_ndvi_pyqgis_final.py:24-25, 127). A one-band clip then has no statistics in the model: it is counted in `processados` but not styled. What the host does for a missing band is not shown by the script.
- Writing the CSV file is left out; the model computes the table the script writes. Folder creation is the `folderReady` flag. The sankey script's unguarded `os.makedirs` is not modelled.
- Floating point is modelled as exact `real`:
  - `round(x, 4)` is a `real -> real` parameter;
  - `RangeEndpoints` holds in exact arithmetic only, where floating point may end the last class slightly off vmax.
- `NdviClip.ApplyDiscretePseudocolor` assumes the clip has a data provider. The script's outer `except` would catch a missing one; the model does not.
- `Dissolve.DissolveOne`: only the dissolve call itself may raise. Failures inside field editing, which the same `except` would catch, are not modelled.
- `Vetorizacao.ReportFor` assumes every raster has a data provider. Without one the script fails outside its `try`, and the model does not capture that.
- `Strings.DirName` and `Strings.PathJoin` follow `ntpath` for drive-letter paths. UNC paths, and a second component that is itself absolute, are not modelled.
- `Strings.Upper` and `Strings.IsDigitString` cover ASCII only. Python's `upper()` and `isdigit()` also act on other Unicode letters and digits.
- `Dissolve.ClassKey` covers integer, float, NULL and text DN values. Other `QVariant` types are not modelled.
- The shared `Layers.MapLayer` keeps only what the scripts read. Layer IDs, CRS and geometries are left out; a feature's geometry is just its area.

## Findings

| source | as written | input that shows it | evidently intended | confidence | as-written member | corrected member |
|---|---|---|---|---|---|---|
| script_pre_processamento_sankey.py:18 | `renomear_campo_dn` renames `DN` to `Class<year>`. Its docstring (line 17) says `CLASSE_20xx`, and the export (line 59) selects only fields starting with `CLASSE_` | A sector with `_FINAL` layers for 2019 and 2023: the intersected layer has fields `Class2019` and `Class2023`, and no class column is selected. The CSV is just the header `area_ha` and one row with the total area | Rename to `CLASSE_<year>`, so the export keeps each year's class, in chronological order | high; not executed | Sankey.AsWrittenNameNotSelected, Sankey.AsWrittenExportCollapses, Sankey.RenameTargets | Sankey.ClassName, Sankey.ChronologicalColumns, Sankey.RenameTargets |
| script_vetorizacao.py:101 | `RANGE_BOUNDARIES` is 0, i.e. `min < value <= max`, so the first range excludes vmin. The last high bound is nudged up by 0.0001 at line 90. In exact arithmetic that matters only for an exclusive upper bound. In floating point, vmin + 5·step can land below vmax, and then the nudge also keeps the maximum classified under option 0 | A band with minimum 0.1 and maximum 0.6: a pixel of value 0.1 matches no row of the table, and `NODATA_FOR_MISSING` turns it into no data | `RANGE_BOUNDARIES` 1 (`min <= value < max`), so that every value from vmin to vmax gets a class | medium; not executed | Vetorizacao.AsWrittenMinimumUnclassified, Vetorizacao.ConvertedTableClasses | Vetorizacao.EveryValueClassified, Vetorizacao.ClassFound, Vetorizacao.ConvertedTableClasses |
| script_dissolve_final.py:58 | The filter skips names containing `_dissolvido`, but the result is loaded as `<name>_FINAL` (line 77), which that filter lets through | Re-running the script on a project that holds `Uso2019_FINAL`: the layer passes every filter and is dissolved again into `Uso2019_FINAL_dissolvido.gpkg` | Also skip the script's own `_FINAL` outputs, as the comment "Evita reprocessar o resultado" intends | medium; not executed | Dissolve.AsWrittenOutputSelectedAgain | Dissolve.CorrectedOutputNotSelected |
