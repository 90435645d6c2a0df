/**
 * script_vetorizacao.py: for every raster of the project, pick the NDVI band
 * (3 when there are at least three bands, else 1), build an equal-interval
 * reclassification table into classes 1..5, reclassify and polygonize into
 * `<safe name>_vetor.gpkg` in the output folder, load the result and give it
 * a categorised symbology on the field `DN`.
 */
module Vetorizacao {
  import opened Wrappers
  import opened Layers
  import opened Strings
  import EqualInterval

  /** `PASTA_SAIDA`. */
  const OutputFolder: string := "G:\\Meu Drive\\PA458_ByPolygons\\final\\sem_urb"

  /** Amount added to the last upper bound so that the maximum falls inside the last range. */
  const LastBoundNudge: real := 0.0001

  // ---------------------------------------------------------------------------
  // Band choice

  /** `banda_uso`: band 3 when the raster has at least three bands, otherwise band 1. */
  function BandToUse(bandCount: nat): (band: nat)
    ensures band == NdviBand || band == 1
    ensures band == NdviBand <==> bandCount >= NdviBand
    ensures bandCount >= 1 ==> 1 <= band <= bandCount
  {
    if bandCount >= 3 then 3 else 1
  }

  // ---------------------------------------------------------------------------
  // Reclassification table

  /** Lower bound of range `i` (0-based). */
  function RangeLow(vmin: real, vmax: real, i: nat): real {
    EqualInterval.LowerLimit(vmin, vmax, i)
  }

  /** Upper bound of range `i` (0-based); the last one is nudged up by 0.0001. */
  function RangeHigh(vmin: real, vmax: real, i: nat): real {
    EqualInterval.UpperLimit(vmin, vmax, i) + (if i == EqualInterval.ClassCount - 1 then LastBoundNudge else 0.0)
  }

  /** The flat table `[lo0, hi0, 1, lo1, hi1, 2, ...]` for the first `k` ranges. */
  function TablePrefix(vmin: real, vmax: real, k: nat): (t: seq<real>)
    ensures |t| == 3 * k
  {
    if k == 0 then []
    else TablePrefix(vmin, vmax, k - 1) + [RangeLow(vmin, vmax, k - 1), RangeHigh(vmin, vmax, k - 1), k as real]
  }

  /** Reference definition of `reclass_table`. */
  function ReclassTable(vmin: real, vmax: real): seq<real> {
    TablePrefix(vmin, vmax, EqualInterval.ClassCount)
  }

  /** The table-building loop: `extend` with `[low, high, i + 1]` for each class, nudging the last high. */
  method BuildReclassTable(vmin: real, vmax: real) returns (table: seq<real>)
    ensures table == ReclassTable(vmin, vmax)
  {
    var classCount := 5;
    var step := (vmax - vmin) / (classCount as real);
    assert step == EqualInterval.Step(vmin, vmax);
    table := [];
    var i := 0;
    while i < classCount
      invariant 0 <= i <= classCount
      invariant table == TablePrefix(vmin, vmax, i)
    {
      var low := vmin + step * (i as real);
      var high := vmin + step * ((i + 1) as real);
      if i == classCount - 1 {
        high := high + LastBoundNudge;
      }
      table := table + [low, high, (i + 1) as real];
      i := i + 1;
    }
  }

  /** Entry `3i`, `3i+1`, `3i+2` of the table prefix are range i's bounds and its class `i+1`. */
  lemma {:induction false} TablePrefixEntry(vmin: real, vmax: real, k: nat, i: nat)
    requires i < k
    ensures TablePrefix(vmin, vmax, k)[3 * i] == RangeLow(vmin, vmax, i)
    ensures TablePrefix(vmin, vmax, k)[3 * i + 1] == RangeHigh(vmin, vmax, i)
    ensures TablePrefix(vmin, vmax, k)[3 * i + 2] == (i + 1) as real
  {
    if i < k - 1 {
      TablePrefixEntry(vmin, vmax, k - 1, i);
    }
  }

  /**
   * The table has 15 entries; triple i is `(vmin + step*i, vmin + step*(i+1), i+1)`,
   * with 0.0001 added to the last upper bound.
   */
  lemma ReclassTriple(vmin: real, vmax: real, i: nat)
    requires i < EqualInterval.ClassCount
    ensures |ReclassTable(vmin, vmax)| == 15
    ensures var t := ReclassTable(vmin, vmax);
      var step := (vmax - vmin) / 5.0;
      && t[3 * i] == vmin + step * (i as real)
      && t[3 * i + 1] == vmin + step * ((i + 1) as real) + (if i == 4 then 0.0001 else 0.0)
      && t[3 * i + 2] == (i + 1) as real
  {
    TablePrefixEntry(vmin, vmax, EqualInterval.ClassCount, i);
  }

  /** The ranges tile the interval: each upper bound is the next lower bound (i < 4). */
  lemma ReclassContiguous(vmin: real, vmax: real, i: nat)
    requires i < EqualInterval.ClassCount - 1
    ensures ReclassTable(vmin, vmax)[3 * i + 1] == ReclassTable(vmin, vmax)[3 * (i + 1)]
  {
    TablePrefixEntry(vmin, vmax, EqualInterval.ClassCount, i);
    TablePrefixEntry(vmin, vmax, EqualInterval.ClassCount, i + 1);
    EqualInterval.LimitsContiguous(vmin, vmax, i);
  }

  /** The first lower bound is `vmin` and the last upper bound is `vmax + 0.0001`. */
  lemma ReclassEndpoints(vmin: real, vmax: real)
    ensures |ReclassTable(vmin, vmax)| == 15
    ensures ReclassTable(vmin, vmax)[0] == vmin
    ensures ReclassTable(vmin, vmax)[13] == vmax + 0.0001
    ensures ReclassTable(vmin, vmax)[14] == 5.0
  {
    TablePrefixEntry(vmin, vmax, EqualInterval.ClassCount, 0);
    TablePrefixEntry(vmin, vmax, EqualInterval.ClassCount, 4);
    EqualInterval.RangeEndpoints(vmin, vmax);
  }

  /** On a non-constant band every range has `lo < hi`. */
  lemma ReclassRangesNonEmpty(vmin: real, vmax: real, i: nat)
    requires vmin < vmax && i < EqualInterval.ClassCount
    ensures ReclassTable(vmin, vmax)[3 * i] < ReclassTable(vmin, vmax)[3 * i + 1]
  {
    TablePrefixEntry(vmin, vmax, EqualInterval.ClassCount, i);
    EqualInterval.LimitsWithinRange(vmin, vmax, i);
  }

  // ---------------------------------------------------------------------------
  // Range boundaries of native:reclassifybytable

  /**
   * `RANGE_BOUNDARIES` of `native:reclassifybytable`: 0 is `min < value <= max`,
   * 1 is `min <= value < max`, 2 is `min <= value <= max`, 3 is `min < value < max`.
   */
  datatype RangeBoundaries = MinExclusiveMaxInclusive | MinInclusiveMaxExclusive | BothInclusive | BothExclusive

  /** The option the script passes (`'RANGE_BOUNDARIES': 0`). */
  const AsWrittenBoundaries: RangeBoundaries := MinExclusiveMaxInclusive

  /** The option the nudged last bound calls for: a half-open range `[low, high)`. */
  const ClassBoundaries: RangeBoundaries := MinInclusiveMaxExclusive

  predicate InRange(low: real, high: real, v: real, b: RangeBoundaries) {
    match b
    case MinExclusiveMaxInclusive => low < v <= high
    case MinInclusiveMaxExclusive => low <= v < high
    case BothInclusive => low <= v <= high
    case BothExclusive => low < v < high
  }

  /**
   * The class a pixel value gets from the rows of a flat table from row `i` on:
   * the value of the first row whose range contains it, `None` (no data, as
   * `NODATA_FOR_MISSING` asks) when none does.
   */
  function ClassFrom(table: seq<real>, v: real, b: RangeBoundaries, i: nat): Option<real>
    decreases |table| - 3 * i
  {
    if 3 * i + 3 > |table| then None
    else if InRange(table[3 * i], table[3 * i + 1], v, b) then Some(table[3 * i + 2])
    else ClassFrom(table, v, b, i + 1)
  }

  function ClassOf(table: seq<real>, v: real, b: RangeBoundaries): Option<real> {
    ClassFrom(table, v, b, 0)
  }

  /** Rows from `i` on whose ranges all miss the value give no class. */
  lemma {:induction false} NoRowFrom(table: seq<real>, v: real, b: RangeBoundaries, i: nat)
    requires forall j :: i <= j && 3 * j + 3 <= |table| ==> !InRange(table[3 * j], table[3 * j + 1], v, b)
    ensures ClassFrom(table, v, b, i) == None
    decreases |table| - 3 * i
  {
    if 3 * i + 3 <= |table| {
      NoRowFrom(table, v, b, i + 1);
    }
  }

  /**
   * With the option as written, a pixel holding the band's minimum lies in no
   * range (every lower bound is at least `vmin` and is excluded), so it
   * becomes no data.
   */
  lemma AsWrittenMinimumUnclassified(vmin: real, vmax: real)
    requires vmin < vmax
    ensures ClassOf(ReclassTable(vmin, vmax), vmin, AsWrittenBoundaries) == None
  {
    var t := ReclassTable(vmin, vmax);
    forall j | 0 <= j && 3 * j + 3 <= |t| ensures !InRange(t[3 * j], t[3 * j + 1], vmin, AsWrittenBoundaries) {
      TablePrefixEntry(vmin, vmax, EqualInterval.ClassCount, j);
      EqualInterval.LimitsWithinRange(vmin, vmax, j);
    }
    NoRowFrom(t, vmin, AsWrittenBoundaries, 0);
  }

  /** From a row whose lower bound is at most `v`, the search finds the row `[low, high)` holding `v`. */
  lemma {:induction false} ClassFound(vmin: real, vmax: real, v: real, i: nat)
    requires vmin < vmax && i < EqualInterval.ClassCount
    requires RangeLow(vmin, vmax, i) <= v <= vmax
    ensures var c := ClassFrom(ReclassTable(vmin, vmax), v, ClassBoundaries, i);
      exists k :: i <= k < EqualInterval.ClassCount && RangeLow(vmin, vmax, k) <= v < RangeHigh(vmin, vmax, k) &&
        c == Some((k + 1) as real)
    decreases EqualInterval.ClassCount - i
  {
    TablePrefixEntry(vmin, vmax, EqualInterval.ClassCount, i);
    ReclassEndpoints(vmin, vmax);
    if v >= RangeHigh(vmin, vmax, i) {
      assert i < EqualInterval.ClassCount - 1;
      EqualInterval.LimitsContiguous(vmin, vmax, i);
      ClassFound(vmin, vmax, v, i + 1);
    }
  }

  /**
   * With half-open ranges every value from the band's minimum to its maximum
   * gets the class `k + 1` of the one range `[low_k, high_k)` that holds it.
   */
  lemma EveryValueClassified(vmin: real, vmax: real, v: real)
    requires vmin < vmax && vmin <= v <= vmax
    ensures var c := ClassOf(ReclassTable(vmin, vmax), v, ClassBoundaries);
      exists k :: 0 <= k < EqualInterval.ClassCount && RangeLow(vmin, vmax, k) <= v < RangeHigh(vmin, vmax, k) &&
        c == Some((k + 1) as real)
  {
    EqualInterval.RangeEndpoints(vmin, vmax);
    ClassFound(vmin, vmax, v, 0);
  }

  // ---------------------------------------------------------------------------
  // Safe file name and output path

  /** `layer.name().replace(" ", "_").replace("/", "-")`. */
  function SafeName(name: string): string {
    ReplaceChar(ReplaceChar(name, ' ', '_'), '/', '-')
  }

  /** The safe name has no space and no slash; it changes exactly those characters. */
  lemma SafeNameContract(name: string)
    ensures |SafeName(name)| == |name|
    ensures ' ' !in SafeName(name) && '/' !in SafeName(name)
    ensures forall i :: 0 <= i < |name| ==>
              SafeName(name)[i] == (if name[i] == ' ' then '_' else if name[i] == '/' then '-' else name[i])
  {
  }

  /** `os.path.join(PASTA_SAIDA, "{}_vetor.gpkg".format(nome_seguro))`. */
  function VectorPath(name: string): string {
    PathJoin(OutputFolder, SafeName(name) + "_vetor.gpkg")
  }

  /** The vector is written in the output folder, under a name ending in `_vetor.gpkg`. */
  lemma VectorPathShape(name: string)
    ensures VectorPath(name) == OutputFolder + "\\" + SafeName(name) + "_vetor.gpkg"
    ensures StartsWith(VectorPath(name), OutputFolder) && EndsWith(VectorPath(name), "_vetor.gpkg")
  {
    ConcatEnds(SafeName(name), "_vetor.gpkg");
    EndsWithPrepend(OutputFolder + "\\", SafeName(name) + "_vetor.gpkg", "_vetor.gpkg");
    assert OutputFolder + "\\" + SafeName(name) + "_vetor.gpkg" == OutputFolder + "\\" + (SafeName(name) + "_vetor.gpkg");
  }

  // ---------------------------------------------------------------------------
  // definir_simbologia_vetor

  /** Reference list of categories: value i+1, label i, colour i. */
  function VectorCategories(): seq<Category> {
    seq(EqualInterval.ClassCount, i requires 0 <= i < EqualInterval.ClassCount =>
      Category(i + 1, ClassLabels[i], HexPalette[i]))
  }

  /** The category loop of `definir_simbologia_vetor`. */
  method BuildCategories() returns (categories: seq<Category>)
    ensures |categories| == 5
    ensures forall i :: 0 <= i < 5 ==> categories[i] == Category(i + 1, ClassLabels[i], HexPalette[i])
  {
    categories := [];
    var i := 0;
    while i < |ClassLabels| && i < |HexPalette|
      invariant 0 <= i <= 5
      invariant |categories| == i
      invariant forall k :: 0 <= k < i ==> categories[k] == Category(k + 1, ClassLabels[k], HexPalette[k])
    {
      var classValue := i + 1;
      categories := categories + [Category(classValue, ClassLabels[i], HexPalette[i])];
      i := i + 1;
    }
  }

  // ---------------------------------------------------------------------------
  // processar_camadas_carregadas

  /**
   * What `native:reclassifybytable` (table and range boundaries) then
   * `gdal:polygonize`, followed by loading the output, give.
   */
  datatype ConvertOutcome =
    | ConvertRaised
    | ConvertWritten(loaded: MapLayer)

  /** What happened to one raster. */
  datatype LayerReport =
    | SkippedConstant(name: string)
    | ConversionFailed(name: string, band: nat, table: seq<real>, path: string)
    | LoadFailed(name: string, band: nat, table: seq<real>, path: string)
    | Vectorized(name: string, band: nat, table: seq<real>, path: string, categories: seq<Category>)

  datatype RunReport = FolderUnavailable | Completed(reports: seq<LayerReport>)

  /**
   * Reference definition of the loop body for one raster; `boundaries` is the
   * `RANGE_BOUNDARIES` option handed to the conversion: the script passes
   * `AsWrittenBoundaries`, the corrected run `ClassBoundaries`.
   */
  function ReportFor(layer: MapLayer, convert: (MapLayer, nat, seq<real>, RangeBoundaries, string) -> ConvertOutcome,
                     boundaries: RangeBoundaries): LayerReport {
    var band := BandToUse(|layer.bands|);
    var st := BandStatistics(layer, band);
    if st.minimum.None? || st.maximum.None? || st.minimum.value == st.maximum.value then SkippedConstant(layer.name)
    else
      var table := ReclassTable(st.minimum.value, st.maximum.value);
      var path := VectorPath(layer.name);
      match convert(layer, band, table, boundaries, path)
      case ConvertRaised => ConversionFailed(layer.name, band, table, path)
      case ConvertWritten(loaded) =>
        if loaded.isValid then Vectorized(layer.name, band, table, path, VectorCategories())
        else LoadFailed(layer.name, band, table, path)
  }

  /** Reference definition of the reports, one per raster of the project, in order. */
  function Reports(layers: seq<MapLayer>, convert: (MapLayer, nat, seq<real>, RangeBoundaries, string) -> ConvertOutcome,
                   boundaries: RangeBoundaries): seq<LayerReport> {
    if layers == [] then []
    else
      var l := layers[|layers| - 1];
      Reports(layers[..|layers| - 1], convert, boundaries) + (if l.layerType == RasterLayer then [ReportFor(l, convert, boundaries)] else [])
  }

  /**
   * A raster without statistics or with a constant band gets no table and no
   * conversion; every other raster is converted from its chosen band with the
   * table of that band's range and the given range option, written to its
   * safe-name path, and the report follows what the conversion gave.
   */
  lemma ReportForContract(layer: MapLayer, convert: (MapLayer, nat, seq<real>, RangeBoundaries, string) -> ConvertOutcome,
                          boundaries: RangeBoundaries)
    ensures var band := BandToUse(|layer.bands|);
      var st := BandStatistics(layer, band);
      var r := ReportFor(layer, convert, boundaries);
      && (r.SkippedConstant? <==> st.minimum.None? || st.maximum.None? || st.minimum.value == st.maximum.value)
      && (!r.SkippedConstant? ==>
            var outcome := convert(layer, band, ReclassTable(st.minimum.value, st.maximum.value), boundaries, VectorPath(layer.name));
            && r.band == band
            && r.table == ReclassTable(st.minimum.value, st.maximum.value)
            && r.path == VectorPath(layer.name)
            && EndsWith(r.path, "_vetor.gpkg")
            && (r.ConversionFailed? <==> outcome.ConvertRaised?)
            && (r.Vectorized? <==> outcome.ConvertWritten? && outcome.loaded.isValid))
  {
    VectorPathShape(layer.name);
  }

  /**
   * What the range option does to a converted raster's table (for a band whose
   * minimum is below its maximum, as real statistics are once they differ):
   * with the option the script passes, a pixel at the band's minimum gets no
   * class; with the corrected option, every value from the minimum to the
   * maximum gets one.
   */
  lemma ConvertedTableClasses(layer: MapLayer, convert: (MapLayer, nat, seq<real>, RangeBoundaries, string) -> ConvertOutcome,
                              boundaries: RangeBoundaries)
    ensures var st := BandStatistics(layer, BandToUse(|layer.bands|));
      var r := ReportFor(layer, convert, boundaries);
      !r.SkippedConstant? && st.minimum.value < st.maximum.value ==>
        && (boundaries == AsWrittenBoundaries ==> ClassOf(r.table, st.minimum.value, boundaries) == None)
        && (boundaries == ClassBoundaries ==>
              forall v :: st.minimum.value <= v <= st.maximum.value ==> ClassOf(r.table, v, boundaries).Some?)
  {
    var st := BandStatistics(layer, BandToUse(|layer.bands|));
    var r := ReportFor(layer, convert, boundaries);
    if !r.SkippedConstant? && st.minimum.value < st.maximum.value {
      var vmin, vmax := st.minimum.value, st.maximum.value;
      ReportForContract(layer, convert, boundaries);
      if boundaries == AsWrittenBoundaries {
        AsWrittenMinimumUnclassified(vmin, vmax);
      }
      if boundaries == ClassBoundaries {
        forall v | vmin <= v <= vmax ensures ClassOf(r.table, v, boundaries).Some? {
          EveryValueClassified(vmin, vmax, v);
        }
      }
    }
  }

  /** `processar_camadas_carregadas`; `folderReady` says whether the output folder exists or could be created. */
  method VectorizeLoadedLayers(folderReady: bool, layers: seq<MapLayer>,
                               convert: (MapLayer, nat, seq<real>, RangeBoundaries, string) -> ConvertOutcome,
                               boundaries: RangeBoundaries)
    returns (report: RunReport)
    ensures !folderReady ==> report == FolderUnavailable
    ensures folderReady ==> report == Completed(Reports(layers, convert, boundaries))
  {
    if !folderReady {
      return FolderUnavailable;
    }
    var reports: seq<LayerReport> := [];
    var i := 0;
    while i < |layers|
      invariant 0 <= i <= |layers|
      invariant reports == Reports(layers[..i], convert, boundaries)
    {
      var layer := layers[i];
      assert layers[..i + 1][..i] == layers[..i];
      if layer.layerType != RasterLayer {
        i := i + 1;
        continue;
      }
      var layerReport := VectorizeRaster(layer, convert, boundaries);
      reports := reports + [layerReport];
      i := i + 1;
    }
    assert layers[..i] == layers;
    return Completed(reports);
  }

  /** The loop body for one raster: skip a constant band, else build the table, convert, load and style. */
  method VectorizeRaster(layer: MapLayer, convert: (MapLayer, nat, seq<real>, RangeBoundaries, string) -> ConvertOutcome,
                         boundaries: RangeBoundaries)
    returns (report: LayerReport)
    ensures report == ReportFor(layer, convert, boundaries)
  {
    var band := BandToUse(|layer.bands|);
    var stats := BandStatistics(layer, band);
    if stats.minimum.None? || stats.maximum.None? || stats.minimum.value == stats.maximum.value {
      return SkippedConstant(layer.name);
    }
    var table := BuildReclassTable(stats.minimum.value, stats.maximum.value);
    var path := VectorPath(layer.name);
    var outcome := convert(layer, band, table, boundaries, path);
    if outcome.ConvertRaised? {
      return ConversionFailed(layer.name, band, table, path);
    } else if outcome.loaded.isValid {
      var categories := BuildCategories();
      assert categories == VectorCategories();
      return Vectorized(layer.name, band, table, path, categories);
    } else {
      return LoadFailed(layer.name, band, table, path);
    }
  }
}
