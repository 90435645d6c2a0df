/**
 * script_ndvi_pyqgis_final.py: clip every raster of the project by the mask
 * layer "buffer_total", save each clip as `<name>.tif` in the output folder,
 * load it, and style it with five discrete equal-interval classes (a band
 * without statistics or with a constant value is left unstyled).
 */
module NdviClip {
  import opened Wrappers
  import opened Layers
  import opened Strings
  import EqualInterval

  /** `CAMADA_MASCARA`. */
  const MaskLayerName: string := "buffer_total"

  /** `PASTA_SAIDA`. */
  const OutputFolder: string := "G:\\Meu Drive\\PA458_ByPolygons\\final\\sem_urb"

  // ---------------------------------------------------------------------------
  // aplica_pseudocolor_ndvi_discreto (this script's variant: skip, never widen)

  /** Reference definition: no items when the statistics are missing or constant. */
  function PseudocolorItems(st: BandStats): Option<seq<ColorRampItem>> {
    if st.minimum.None? || st.maximum.None? || st.minimum.value == st.maximum.value then None
    else
      var vmin := st.minimum.value;
      var vmax := st.maximum.value;
      Some(seq(EqualInterval.ClassCount, i requires 0 <= i < EqualInterval.ClassCount =>
        ColorRampItem(EqualInterval.UpperLimit(vmin, vmax, i), HexPalette[i], ClassLabels[i])))
  }

  /** `aplica_pseudocolor_ndvi_discreto`: `None` when it returns early, else the items it sets. */
  method ApplyDiscretePseudocolor(layer: MapLayer, band: nat) returns (items: Option<seq<ColorRampItem>>)
    ensures items == PseudocolorItems(BandStatistics(layer, band))
  {
    var stats := BandStatistics(layer, band);
    if stats.minimum.None? || stats.maximum.None? || stats.minimum.value == stats.maximum.value {
      return None;
    }
    var vmin, vmax := stats.minimum.value, stats.maximum.value;
    var step := (vmax - vmin) / (EqualInterval.ClassCount as real);
    var result: seq<ColorRampItem> := [];
    var i := 0;
    while i < |ClassLabels| && i < |HexPalette|
      invariant 0 <= i <= EqualInterval.ClassCount
      invariant result == PseudocolorItems(stats).value[..i]
    {
      var limit := vmin + step * ((i + 1) as real);
      result := result + [ColorRampItem(limit, HexPalette[i], ClassLabels[i])];
      i := i + 1;
    }
    assert result == PseudocolorItems(stats).value;
    return Some(result);
  }

  /**
   * The styling is skipped exactly when a statistic is missing or the band is
   * constant; otherwise there are five items, item i carrying limit
   * `vmin + step * (i + 1)`, label i and colour i.
   */
  lemma PseudocolorItemsContract(st: BandStats)
    ensures PseudocolorItems(st).None? <==>
              st.minimum.None? || st.maximum.None? || st.minimum.value == st.maximum.value
    ensures PseudocolorItems(st).Some? ==>
              var items := PseudocolorItems(st).value;
              var vmin := st.minimum.value;
              var vmax := st.maximum.value;
              && |items| == 5
              && (forall i :: 0 <= i < 5 ==>
                    && items[i].value == vmin + (vmax - vmin) / 5.0 * ((i + 1) as real)
                    && items[i].caption == ClassLabels[i]
                    && items[i].color == HexPalette[i])
  {
  }

  /** On a non-empty range the item limits strictly increase and the last one is `vmax`. */
  lemma {:induction false} PseudocolorItemsIncrease(st: BandStats)
    requires PseudocolorItems(st).Some? && st.minimum.value < st.maximum.value
    ensures var items := PseudocolorItems(st).value;
              && |items| == 5
              && (forall i, j :: 0 <= i < j < 5 ==> items[i].value < items[j].value)
              && items[4].value == st.maximum.value
  {
    var items := PseudocolorItems(st).value;
    var vmin := st.minimum.value;
    var vmax := st.maximum.value;
    forall i, j | 0 <= i < j < 5 ensures items[i].value < items[j].value {
      EqualInterval.LimitsIncrease(vmin, vmax, i, j);
    }
    EqualInterval.RangeEndpoints(vmin, vmax);
  }

  // ---------------------------------------------------------------------------
  // processar_recorte_e_estilo

  /** What `gdal:cliprasterbymasklayer` followed by loading the output gives. */
  datatype ClipOutcome =
    | ClipRaised                   // the processing call raised
    | ClipWritten(loaded: MapLayer) // the output was written and loaded as this layer

  /** What happened to one eligible raster. */
  datatype LayerReport =
    | ClipFailed(name: string, path: string)
    | LoadFailed(name: string, path: string)
    | ClippedAndStyled(name: string, path: string, items: Option<seq<ColorRampItem>>)

  datatype RunReport =
    | FolderUnavailable
    | MaskMissing
    | Completed(reports: seq<LayerReport>, processed: nat)

  /** The layer filters: rasters only, and nothing already saved under the output folder. */
  predicate Eligible(layer: MapLayer) {
    layer.layerType == RasterLayer && !StartsWith(layer.source, OutputFolder)
  }

  /** `os.path.join(PASTA_SAIDA, "{}.tif".format(layer.name()))`. */
  function ClippedPath(name: string): string {
    PathJoin(OutputFolder, name + ".tif")
  }

  /** The clip of a layer is written as `<folder>\<name>.tif`, inside the output folder. */
  lemma ClippedPathShape(name: string)
    ensures ClippedPath(name) == OutputFolder + "\\" + name + ".tif"
    ensures StartsWith(ClippedPath(name), OutputFolder) && EndsWith(ClippedPath(name), ".tif")
  {
    ConcatEnds(name, ".tif");
    EndsWithPrepend(OutputFolder + "\\", name + ".tif", ".tif");
    assert OutputFolder + "\\" + name + ".tif" == OutputFolder + "\\" + (name + ".tif");
  }

  /** A layer loaded from a clip output is filtered out on a later run, so outputs are never re-clipped. */
  lemma ClippedOutputNotEligible(layer: MapLayer, name: string)
    requires layer.source == ClippedPath(name)
    ensures !Eligible(layer)
  {
    ClippedPathShape(name);
  }

  /** `QgsProject.mapLayersByName(name)[0]`, when there is one. */
  function FirstNamed(layers: seq<MapLayer>, name: string): (r: Option<MapLayer>)
    ensures r.None? <==> forall k :: 0 <= k < |layers| ==> layers[k].name != name
    ensures r.Some? ==>
              exists k :: 0 <= k < |layers| && layers[k] == r.value && layers[k].name == name &&
                (forall j :: 0 <= j < k ==> layers[j].name != name)
  {
    if layers == [] then None
    else if layers[0].name == name then Some(layers[0])
    else
      var r := FirstNamed(layers[1..], name);
      assert forall k :: 1 <= k < |layers| ==> layers[k] == layers[1..][k - 1];
      r
  }

  /** Reference definition of what the loop body does to one eligible raster. */
  function ReportFor(layer: MapLayer, mask: MapLayer, clip: (MapLayer, MapLayer, string) -> ClipOutcome): LayerReport {
    var path := ClippedPath(layer.name);
    match clip(layer, mask, path)
    case ClipRaised => ClipFailed(layer.name, path)
    case ClipWritten(loaded) =>
      if !loaded.isValid then LoadFailed(layer.name, path)
      else ClippedAndStyled(layer.name, path, PseudocolorItems(BandStatistics(loaded, NdviBand)))
  }

  /** Reference definition of the reports of the loop over `layers`, skipping ineligible ones. */
  function Reports(layers: seq<MapLayer>, mask: MapLayer, clip: (MapLayer, MapLayer, string) -> ClipOutcome): seq<LayerReport> {
    if layers == [] then []
    else
      var l := layers[|layers| - 1];
      Reports(layers[..|layers| - 1], mask, clip) + (if Eligible(l) then [ReportFor(l, mask, clip)] else [])
  }

  function CountEligible(layers: seq<MapLayer>): nat {
    if layers == [] then 0
    else CountEligible(layers[..|layers| - 1]) + (if Eligible(layers[|layers| - 1]) then 1 else 0)
  }

  /** Number of reports that reached the styling step (`processados`). */
  function CountStyled(reports: seq<LayerReport>): nat {
    if reports == [] then 0
    else CountStyled(reports[..|reports| - 1]) + (if reports[|reports| - 1].ClippedAndStyled? then 1 else 0)
  }

  lemma CountStyledSnoc(reports: seq<LayerReport>, x: LayerReport)
    ensures CountStyled(reports + [x]) == CountStyled(reports) + (if x.ClippedAndStyled? then 1 else 0)
  {
    assert (reports + [x])[..|reports|] == reports;
  }

  /** One report per eligible raster, in project order, and at most that many styled. */
  lemma {:induction false} ReportsPerEligible(layers: seq<MapLayer>, mask: MapLayer, clip: (MapLayer, MapLayer, string) -> ClipOutcome)
    ensures |Reports(layers, mask, clip)| == CountEligible(layers)
    ensures CountStyled(Reports(layers, mask, clip)) <= CountEligible(layers) <= |layers|
  {
    if layers != [] {
      var init := layers[..|layers| - 1];
      ReportsPerEligible(init, mask, clip);
      var r := Reports(init, mask, clip);
      if Eligible(layers[|layers| - 1]) {
        var x := ReportFor(layers[|layers| - 1], mask, clip);
        assert (r + [x])[..|r|] == r;
        assert CountStyled(r + [x]) <= CountStyled(r) + 1;
      } else {
        assert r + [] == r;
      }
    }
  }

  /** A report counts as processed exactly when the clip was written and loaded as a valid layer. */
  lemma ReportStyledIffValidLoad(layer: MapLayer, mask: MapLayer, clip: (MapLayer, MapLayer, string) -> ClipOutcome)
    ensures ReportFor(layer, mask, clip).ClippedAndStyled? <==>
              clip(layer, mask, ClippedPath(layer.name)).ClipWritten? && clip(layer, mask, ClippedPath(layer.name)).loaded.isValid
  {
  }

  /** `processar_recorte_e_estilo`; `folderReady` says whether the output folder exists or could be created. */
  method ClipAndStyleAll(folderReady: bool, layers: seq<MapLayer>, clip: (MapLayer, MapLayer, string) -> ClipOutcome)
    returns (report: RunReport)
    ensures !folderReady ==> report == FolderUnavailable
    ensures folderReady && FirstNamed(layers, MaskLayerName).None? ==> report == MaskMissing
    ensures folderReady && FirstNamed(layers, MaskLayerName).Some? ==>
              var reports := Reports(layers, FirstNamed(layers, MaskLayerName).value, clip);
              report == Completed(reports, CountStyled(reports))
  {
    if !folderReady {
      return FolderUnavailable;
    }
    var masks := FirstNamed(layers, MaskLayerName);
    if masks.None? {
      return MaskMissing;
    }
    var mask := masks.value;
    var reports: seq<LayerReport> := [];
    var processed := 0;
    var i := 0;
    while i < |layers|
      invariant 0 <= i <= |layers|
      invariant reports == Reports(layers[..i], mask, clip)
      invariant processed == CountStyled(reports)
    {
      var layer := layers[i];
      assert layers[..i + 1][..i] == layers[..i];
      assert Reports(layers[..i + 1], mask, clip)
          == reports + (if Eligible(layer) then [ReportFor(layer, mask, clip)] else []);
      if layer.layerType != RasterLayer || StartsWith(layer.source, OutputFolder) {
        i := i + 1;
        continue;
      }
      var path := ClippedPath(layer.name);
      var outcome := clip(layer, mask, path);
      if outcome.ClipRaised? {
        CountStyledSnoc(reports, ClipFailed(layer.name, path));
        reports := reports + [ClipFailed(layer.name, path)];
        i := i + 1;
        continue;
      }
      var loaded := outcome.loaded;
      if !loaded.isValid {
        CountStyledSnoc(reports, LoadFailed(layer.name, path));
        reports := reports + [LoadFailed(layer.name, path)];
        i := i + 1;
        continue;
      }
      var items := ApplyDiscretePseudocolor(loaded, NdviBand);
      CountStyledSnoc(reports, ClippedAndStyled(layer.name, path, items));
      reports := reports + [ClippedAndStyled(layer.name, path, items)];
      processed := processed + 1;
      i := i + 1;
    }
    assert layers[..i] == layers;
    return Completed(reports, processed);
  }
}
