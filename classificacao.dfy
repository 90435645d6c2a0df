/**
 * classificacao_pyqgis.py: discrete five-class pseudocolour styling of the
 * NDVI band of every raster layer of the project, by equal intervals, with
 * a constant band widened by ±0.001 rather than skipped.
 */
module Classificacao {
  import opened Wrappers
  import opened Layers
  import EqualInterval

  /** `CORES`: red (low NDVI) to dark green (high NDVI). */
  const Palette: seq<Color> := [
    Rgb(215, 25, 28), Rgb(253, 174, 97), Rgb(255, 255, 191), Rgb(171, 221, 164), HexColor("#1a9641")
  ]

  /** Half-width by which a constant band's range is widened. */
  const DegenerateWidening: real := 0.001

  /** The `RuntimeError`s raised by the styling function. */
  datatype StyleError =
    | NoDataProvider
    | TooFewBands(bandCount: nat, band: nat)
    | MinMaxUnavailable(band: nat)

  /** What one call of the styling function does to a layer. */
  datatype StyleOutcome =
    | NotRaster                               // returned at once, nothing touched
    | Failed(error: StyleError)               // raised, no renderer set
    | Styled(items: seq<ColorRampItem>)        // renderer set with these discrete items

  /**
   * The range the classes are computed on: the band's own range, except that
   * a constant band becomes `[v - 0.001, v + 0.001]`.
   */
  function EffectiveRange(vmin: real, vmax: real): (r: (real, real))
    ensures vmin <= vmax ==> r.0 < r.1
    ensures r.0 <= vmin && vmax <= r.1
    ensures vmin != vmax ==> r == (vmin, vmax)
  {
    if vmin == vmax then (vmin - DegenerateWidening, vmax + DegenerateWidening) else (vmin, vmax)
  }

  /** Reference definition of the discrete items: limit i, label i and colour i, zipped. */
  function RampItems(lo: real, hi: real): seq<ColorRampItem> {
    seq(EqualInterval.ClassCount, i requires 0 <= i < EqualInterval.ClassCount =>
      ColorRampItem(EqualInterval.UpperLimit(lo, hi, i), Palette[i], ClassLabels[i]))
  }

  /** Reference definition of `aplica_pseudocolor_ndvi_discreto(layer, banda)`. */
  function PseudocolorOutcome(layer: MapLayer, band: nat): StyleOutcome {
    if layer.layerType != RasterLayer then NotRaster
    else if !layer.hasProvider then Failed(NoDataProvider)
    else if |layer.bands| < band then Failed(TooFewBands(|layer.bands|, band))
    else
      var st := BandStatistics(layer, band);
      if st.minimum.None? || st.maximum.None? then Failed(MinMaxUnavailable(band))
      else
        var r := EffectiveRange(st.minimum.value, st.maximum.value);
        Styled(RampItems(r.0, r.1))
  }

  /** `aplica_pseudocolor_ndvi_discreto`: the checks, the widening, the limit list and the item loop. */
  method ApplyDiscretePseudocolor(layer: MapLayer, band: nat) returns (outcome: StyleOutcome)
    ensures outcome == PseudocolorOutcome(layer, band)
  {
    if layer.layerType != RasterLayer {
      return NotRaster;
    }
    if !layer.hasProvider {
      return Failed(NoDataProvider);
    }
    if |layer.bands| < band {
      return Failed(TooFewBands(|layer.bands|, band));
    }
    var stats := BandStatistics(layer, band);
    if stats.minimum.None? || stats.maximum.None? {
      return Failed(MinMaxUnavailable(band));
    }
    var vmin := stats.minimum.value;
    var vmax := stats.maximum.value;
    if vmin == vmax {
      vmin := vmin - DegenerateWidening;
      vmax := vmax + DegenerateWidening;
    }
    var limits := EqualInterval.UpperLimits(vmin, vmax);
    var items: seq<ColorRampItem> := [];
    var i := 0;
    while i < |limits| && i < |ClassLabels| && i < |Palette|
      invariant 0 <= i <= EqualInterval.ClassCount
      invariant items == RampItems(vmin, vmax)[..i]
    {
      items := items + [ColorRampItem(limits[i], Palette[i], ClassLabels[i])];
      i := i + 1;
    }
    assert items == RampItems(vmin, vmax);
    return Styled(items);
  }

  /**
   * What the styling function promises: it leaves non-rasters alone, raises
   * for a missing provider, too few bands or missing statistics, and otherwise
   * styles with five items pairing limit, label and colour by position, whose
   * limits strictly increase from the (possibly widened) minimum up to the
   * (possibly widened) maximum.
   */
  lemma PseudocolorContract(layer: MapLayer, band: nat)
    ensures var o := PseudocolorOutcome(layer, band);
      && (o == NotRaster <==> layer.layerType != RasterLayer)
      && (o == Failed(NoDataProvider) <==> layer.layerType == RasterLayer && !layer.hasProvider)
      && (o.Failed? && o.error.TooFewBands? <==>
            layer.layerType == RasterLayer && layer.hasProvider && |layer.bands| < band)
      && (o.Styled? <==>
            && layer.layerType == RasterLayer && layer.hasProvider && band <= |layer.bands|
            && BandStatistics(layer, band).minimum.Some? && BandStatistics(layer, band).maximum.Some?)
  {
  }

  /** The items of a styled layer, for a band whose minimum does not exceed its maximum. */
  lemma {:induction false} StyledItems(layer: MapLayer, band: nat)
    requires PseudocolorOutcome(layer, band).Styled?
    requires BandStatistics(layer, band).minimum.value <= BandStatistics(layer, band).maximum.value
    ensures var items := PseudocolorOutcome(layer, band).items;
      var vmin := BandStatistics(layer, band).minimum.value;
      var vmax := BandStatistics(layer, band).maximum.value;
      var lo := if vmin == vmax then vmin - DegenerateWidening else vmin;
      var hi := if vmin == vmax then vmax + DegenerateWidening else vmax;
      && |items| == 5
      && (forall i :: 0 <= i < 5 ==>
            && items[i].value == lo + (hi - lo) / 5.0 * ((i + 1) as real)
            && items[i].caption == ClassLabels[i]
            && items[i].color == Palette[i])
      && (forall i, j :: 0 <= i < j < 5 ==> items[i].value < items[j].value)
      && items[0].value > lo
      && items[4].value == hi
  {
    var items := PseudocolorOutcome(layer, band).items;
    var vmin := BandStatistics(layer, band).minimum.value;
    var vmax := BandStatistics(layer, band).maximum.value;
    var r := EffectiveRange(vmin, vmax);
    assert items == RampItems(r.0, r.1);
    forall i, j | 0 <= i < j < 5 ensures items[i].value < items[j].value {
      EqualInterval.LimitsIncrease(r.0, r.1, i, j);
    }
    EqualInterval.LimitsWithinRange(r.0, r.1, 0);
    EqualInterval.RangeEndpoints(r.0, r.1);
  }

  // ---------------------------------------------------------------------------
  // aplicar_em_todos_os_rasters

  /** Number of raster layers in `layers`. */
  function RasterCount(layers: seq<MapLayer>): nat {
    if layers == [] then 0
    else RasterCount(layers[..|layers| - 1]) + (if layers[|layers| - 1].layerType == RasterLayer then 1 else 0)
  }

  /** Reference count of rasters the styling function completes on. */
  function AppliedCount(layers: seq<MapLayer>, band: nat): nat {
    if layers == [] then 0
    else
      var l := layers[|layers| - 1];
      AppliedCount(layers[..|layers| - 1], band)
        + (if l.layerType == RasterLayer && !PseudocolorOutcome(l, band).Failed? then 1 else 0)
  }

  /** Reference list of rasters the styling function raised on, with the error. */
  function SkippedLayers(layers: seq<MapLayer>, band: nat): seq<(string, StyleError)> {
    if layers == [] then []
    else
      var l := layers[|layers| - 1];
      var o := PseudocolorOutcome(l, band);
      SkippedLayers(layers[..|layers| - 1], band)
        + (if l.layerType == RasterLayer && o.Failed? then [(l.name, o.error)] else [])
  }

  /** Every raster is either applied or skipped, and non-rasters are neither. */
  lemma {:induction false} AppliedPlusSkipped(layers: seq<MapLayer>, band: nat)
    ensures AppliedCount(layers, band) + |SkippedLayers(layers, band)| == RasterCount(layers)
  {
    if layers != [] {
      AppliedPlusSkipped(layers[..|layers| - 1], band);
    }
  }

  /** `aplicar_em_todos_os_rasters`: style every raster, counting successes and collecting failures. */
  method ApplyToAllRasters(layers: seq<MapLayer>, band: nat) returns (applied: nat, skipped: seq<(string, StyleError)>)
    ensures applied == AppliedCount(layers, band)
    ensures skipped == SkippedLayers(layers, band)
    ensures applied + |skipped| == RasterCount(layers)
  {
    applied := 0;
    skipped := [];
    var i := 0;
    while i < |layers|
      invariant 0 <= i <= |layers|
      invariant applied == AppliedCount(layers[..i], band)
      invariant skipped == SkippedLayers(layers[..i], band)
    {
      var l := layers[i];
      assert layers[..i + 1][..i] == layers[..i];
      if l.layerType != RasterLayer {
        i := i + 1;
        continue;
      }
      var outcome := ApplyDiscretePseudocolor(l, band);
      if outcome.Failed? {
        skipped := skipped + [(l.name, outcome.error)];
      } else {
        applied := applied + 1;
      }
      i := i + 1;
    }
    assert layers[..i] == layers;
    AppliedPlusSkipped(layers, band);
  }
}
