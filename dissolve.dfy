/**
 * script_dissolve_final.py: dissolve every selected vector layer by its `DN`
 * class, save the result as `<name>_dissolvido.gpkg` next to the source,
 * load it as `<name>_FINAL`, add and fill the `Rotulo` (class label) and
 * `Area_Ha` (area in hectares) attributes, and style it by class.
 */
module Dissolve {
  import opened Wrappers
  import opened Layers
  import opened Strings

  /** `CAMADAS_IGNORAR`: layers never dissolved. */
  const IgnoredLayers: seq<string> := [
    "Buffer Oeste", "PA458_Leste_12km", "PA-458_12km",
    "PA-458", "Buffer Leste", "mapbiomas_bragança", "PA458_Oeste_12km"
  ]

  /** `ROTULOS_MAPA`: class value to label. */
  const LabelMap: map<int, string> := map[
    1 := ClassLabels[0], 2 := ClassLabels[1], 3 := ClassLabels[2], 4 := ClassLabels[3], 5 := ClassLabels[4]
  ]

  const DissolvedMarker: string := "_dissolvido"
  const FinalSuffix: string := "_FINAL"
  const ClassField: string := "DN"
  const LabelField: string := "Rotulo"
  const AreaField: string := "Area_Ha"
  /** Label of a `DN` that is not a class. */
  const UndefinedLabel: string := "Indefinido"
  /** Label of a category value missing from `ROTULOS_MAPA`. */
  const OtherLabel: string := "Outros"
  const SquareMetresPerHectare: real := 10000.0

  /** `QVariant.String` and `QVariant.Double`, the types of the two added fields. */
  const StringType: int := 10
  const DoubleType: int := 6

  /** `QgsField("Rotulo", QVariant.String, len=100)` and `QgsField("Area_Ha", QVariant.Double)`. */
  const AddedFields: seq<Field> := [Field(LabelField, 100, 0, StringType), Field(AreaField, 0, 0, DoubleType)]

  // ---------------------------------------------------------------------------
  // Layer selection and output naming

  /**
   * The safety filters: vector layers, not ignored, no `_dissolvido` in the
   * name. `skipFinal` adds the corrected filter, which also skips a layer
   * named like the loaded result, `<name>_FINAL`; the script as written has
   * `skipFinal` false.
   */
  predicate Selected(layer: MapLayer, skipFinal: bool) {
    && layer.layerType == VectorLayer
    && layer.name !in IgnoredLayers
    && !Contains(layer.name, DissolvedMarker)
    && !(skipFinal && EndsWith(layer.name, FinalSuffix))
  }

  /** `os.path.join(os.path.dirname(source.split("|")[0]), name + "_dissolvido.gpkg")`. */
  function DissolvedPath(layer: MapLayer): string {
    PathJoin(DirName(FirstField(layer.source, '|')), layer.name + DissolvedMarker + ".gpkg")
  }

  /**
   * The output sits in the directory of the data-source path (the source text
   * up to its first `|`, which drops OGR options such as `|layername=`) and is
   * named after the layer.
   */
  lemma DissolvedPathShape(layer: MapLayer)
    ensures var folder := DirName(FirstField(layer.source, '|'));
      && StartsWith(layer.source, folder)
      && '|' !in folder
      && StartsWith(DissolvedPath(layer), folder)
      && EndsWith(DissolvedPath(layer), layer.name + "_dissolvido.gpkg")
  {
    var path := FirstField(layer.source, '|');
    var folder := DirName(path);
    assert forall k :: 0 <= k < |folder| ==> folder[k] == path[k];
    assert layer.name + DissolvedMarker + ".gpkg" == layer.name + "_dissolvido.gpkg";
  }

  /**
   * The filter as written tests the layer's name for `_dissolvido`, but the
   * result is loaded as `<name>_FINAL`: on a later run that layer passes every
   * filter and is dissolved again.
   */
  lemma AsWrittenOutputSelectedAgain(layer: MapLayer, output: MapLayer)
    requires Selected(layer, false)
    requires output.layerType == VectorLayer && output.name == layer.name + FinalSuffix
    ensures Selected(output, false)
  {
    FinalNotIgnored(layer.name);
    var m := DissolvedMarker;
    forall i | 0 <= i <= |output.name| - |m| ensures !OccursAt(output.name, m, i) {
      if i + |m| <= |layer.name| {
        assert output.name[i..i + |m|] == layer.name[i..i + |m|];
        assert !OccursAt(layer.name, m, i);
      } else {
        // the marker's last letter, 'o', would fall inside "_FINAL"
        var j := i + |m| - 1;
        assert output.name[i..i + |m|][|m| - 1] == output.name[j] == FinalSuffix[j - |layer.name|];
        assert output.name[j] != m[|m| - 1];
      }
    }
  }

  /** No ignored layer's name ends with `_FINAL`. */
  lemma FinalNotIgnored(name: string)
    ensures name + FinalSuffix !in IgnoredLayers
  {
    var n := name + FinalSuffix;
    assert n[|n| - 1] == 'L';
    forall k | 0 <= k < |IgnoredLayers| ensures IgnoredLayers[k] != n {
      var ignored := IgnoredLayers[k];
      if ignored == n {
        assert false;
      }
    }
  }

  /** With the corrected filter, the loaded result `<name>_FINAL` is never dissolved again. */
  lemma CorrectedOutputNotSelected(layer: MapLayer, output: MapLayer)
    requires output.name == layer.name + FinalSuffix
    ensures !Selected(output, true)
  {
    ConcatEnds(layer.name, FinalSuffix);
  }

  // ---------------------------------------------------------------------------
  // The attribute fill

  /**
   * The dictionary key a `DN` value looks up: Python's `dict.get` finds the
   * integer key `k` for the integer `k` and for the float `k.0`; NULL, text
   * and fractional numbers find none.
   */
  function ClassKey(dn: Value): (k: Option<int>)
    ensures dn.IntValue? ==> k == Some(dn.i)
    ensures dn.RealValue? ==> k == (if dn.r == dn.r.Floor as real then Some(dn.r.Floor) else None)
    ensures dn.Null? || dn.TextValue? ==> k.None?
  {
    match dn
    case IntValue(i) => Some(i)
    case RealValue(r) => if r == r.Floor as real then Some(r.Floor) else None
    case _ => None
  }

  /**
   * `ROTULOS_MAPA.get(dn, "Indefinido")`: classes 1..5, written as integers or
   * as integral floats, get their label, and anything else gets "Indefinido",
   * which is no class label.
   */
  function LabelFor(dn: Value): (caption: string)
    ensures var k := ClassKey(dn);
      caption == if k.Some? && 1 <= k.value <= 5 then ClassLabels[k.value - 1] else UndefinedLabel
    ensures caption == UndefinedLabel <==> caption !in ClassLabels
  {
    var k := ClassKey(dn);
    if k.Some? && k.value in LabelMap then LabelMap[k.value] else UndefinedLabel
  }

  /**
   * What one pass of the fill loop writes into a feature, `round4` being
   * `round(_, 4)`: `Rotulo` from the class and `Area_Ha` from the geometry area
   * in hectares (before rounding); `DN`, the geometry and every other
   * attribute are kept.
   */
  function FilledFeature(f: Feature, round4: real -> real): (g: Feature)
    ensures AttributeOf(g, LabelField) == TextValue(LabelFor(AttributeOf(f, ClassField)))
    ensures AttributeOf(g, AreaField) == RealValue(round4(f.area / 10000.0))
    ensures AttributeOf(g, ClassField) == AttributeOf(f, ClassField)
    ensures g.area == f.area
    ensures g.attributes.Keys == f.attributes.Keys + {LabelField, AreaField}
    ensures forall n :: n in f.attributes && n != LabelField && n != AreaField ==> g.attributes[n] == f.attributes[n]
  {
    var caption := LabelFor(AttributeOf(f, ClassField));
    var hectares := f.area / SquareMetresPerHectare;
    Feature(f.attributes[LabelField := TextValue(caption)][AreaField := RealValue(round4(hectares))], f.area)
  }

  /** The loaded dissolve output under edit: its attribute table, changed in place. */
  class EditableLayer {
    var fields: seq<Field>
    var features: seq<Feature>

    constructor (fields: seq<Field>, features: seq<Feature>)
      ensures this.fields == fields && this.features == features
    {
      this.fields := fields;
      this.features := features;
    }

    /** `dataProvider().addAttributes(...)` then `updateFields()`: existing features read NULL for them. */
    method AddAttributes(added: seq<Field>)
      modifies this
      ensures fields == old(fields) + added
      ensures features == old(features)
    {
      fields := fields + added;
    }

    /** `updateFeature(feat)`, feature `index` being the one `feat` was read as; false for no such feature. */
    method UpdateFeature(index: nat, f: Feature) returns (ok: bool)
      modifies this
      ensures ok <==> index < |old(features)|
      ensures features == if ok then old(features)[index := f] else old(features)
      ensures fields == old(fields)
    {
      if index < |features| {
        features := features[index := f];
        return true;
      }
      return false;
    }
  }

  /** The loop over `getFeatures()`: every feature is rewritten as `FilledFeature` of itself, in place. */
  method FillLabelAndArea(layer: EditableLayer, round4: real -> real)
    modifies layer
    ensures layer.fields == old(layer.fields)
    ensures |layer.features| == |old(layer.features)|
    ensures forall i :: 0 <= i < |layer.features| ==> layer.features[i] == FilledFeature(old(layer.features)[i], round4)
  {
    var snapshot := layer.features;
    var i := 0;
    while i < |snapshot|
      invariant 0 <= i <= |snapshot|
      invariant layer.fields == old(layer.fields)
      invariant |layer.features| == |snapshot|
      invariant forall k :: 0 <= k < i ==> layer.features[k] == FilledFeature(snapshot[k], round4)
      invariant forall k :: i <= k < |snapshot| ==> layer.features[k] == snapshot[k]
    {
      var feat := snapshot[i];
      var dn := AttributeOf(feat, ClassField);
      var caption := LabelFor(dn);
      var attributes := feat.attributes[LabelField := TextValue(caption)];
      var hectares := feat.area / SquareMetresPerHectare;
      attributes := attributes[AreaField := RealValue(round4(hectares))];
      var ok := layer.UpdateFeature(i, Feature(attributes, feat.area));
      i := i + 1;
    }
  }

  // ---------------------------------------------------------------------------
  // aplicar_simbologia

  /** Reference definition of the categories: value i + 1, label i, colour i. */
  function DissolveCategories(): seq<Category> {
    seq(|HexPalette|, i requires 0 <= i < |HexPalette| => Category(i + 1, ClassLabels[i], HexPalette[i]))
  }

  /** The category loop over `CORES_HEX`, with `ROTULOS_MAPA.get(i + 1, "Outros")` as label. */
  method BuildCategories() returns (categories: seq<Category>)
    ensures categories == DissolveCategories()
    ensures |categories| == 5
    ensures forall i :: 0 <= i < 5 ==>
              && categories[i].value == i + 1
              && categories[i].caption == ClassLabels[i] != OtherLabel
              && categories[i].color == HexPalette[i]
  {
    categories := [];
    var i := 0;
    while i < |HexPalette|
      invariant 0 <= i <= |HexPalette|
      invariant categories == DissolveCategories()[..i]
    {
      var classValue := i + 1;
      var caption := if classValue in LabelMap then LabelMap[classValue] else OtherLabel;
      categories := categories + [Category(classValue, caption, HexPalette[i])];
      i := i + 1;
    }
    assert categories == DissolveCategories();
  }

  /** Every category value is a key of the label map, so the "Outros" fallback is never taken. */
  lemma CategoriesLabelled()
    ensures forall c :: c in DissolveCategories() ==> c.value in LabelMap && c.caption == LabelMap[c.value]
  {
  }

  // ---------------------------------------------------------------------------
  // dissolver_calcular_posicionar

  /** What `native:dissolve` on `DN` followed by loading the output gives. */
  datatype DissolveOutcome =
    | DissolveRaised                    // the processing call raised
    | DissolveWritten(loaded: MapLayer)  // the output was written and loaded as this layer

  /** What happened to one selected layer. */
  datatype LayerReport =
    | DissolveFailed(name: string, path: string)
    | LoadFailed(name: string, path: string)
    | Dissolved(name: string, path: string, fields: seq<Field>, features: seq<Feature>, categories: seq<Category>)

  /** The features after the fill loop. */
  function FilledFeatures(features: seq<Feature>, round4: real -> real): seq<Feature> {
    seq(|features|, i requires 0 <= i < |features| => FilledFeature(features[i], round4))
  }

  /** Reference definition of what the loop body does to one selected layer. */
  function ReportFor(layer: MapLayer, dissolve: (MapLayer, string, string) -> DissolveOutcome, round4: real -> real): LayerReport {
    var path := DissolvedPath(layer);
    match dissolve(layer, path, layer.name + FinalSuffix)
    case DissolveRaised => DissolveFailed(layer.name, path)
    case DissolveWritten(loaded) =>
      if !loaded.isValid then LoadFailed(layer.name, path)
      else
        Dissolved(layer.name + FinalSuffix, path, loaded.fields + AddedFields,
          FilledFeatures(loaded.features, round4),
          DissolveCategories())
  }

  /** Reference definition of the reports of the loop, skipping unselected layers. */
  function Reports(layers: seq<MapLayer>, skipFinal: bool, dissolve: (MapLayer, string, string) -> DissolveOutcome, round4: real -> real): seq<LayerReport> {
    if layers == [] then []
    else
      var l := layers[|layers| - 1];
      Reports(layers[..|layers| - 1], skipFinal, dissolve, round4) + (if Selected(l, skipFinal) then [ReportFor(l, dissolve, round4)] else [])
  }

  function CountSelected(layers: seq<MapLayer>, skipFinal: bool): nat {
    if layers == [] then 0
    else CountSelected(layers[..|layers| - 1], skipFinal) + (if Selected(layers[|layers| - 1], skipFinal) then 1 else 0)
  }

  /** One report per selected layer, each naming that layer, in project order. */
  lemma {:induction false} ReportsPerSelected(layers: seq<MapLayer>, skipFinal: bool,
                                              dissolve: (MapLayer, string, string) -> DissolveOutcome, round4: real -> real)
    ensures |Reports(layers, skipFinal, dissolve, round4)| == CountSelected(layers, skipFinal) <= |layers|
  {
    if layers != [] {
      ReportsPerSelected(layers[..|layers| - 1], skipFinal, dissolve, round4);
    }
  }

  /**
   * An invalid load is skipped with no field added; a raised dissolve likewise;
   * a valid one gains exactly the two fields and keeps its feature count, and
   * every feature keeps its class and geometry.
   */
  lemma ReportForContract(layer: MapLayer, dissolve: (MapLayer, string, string) -> DissolveOutcome, round4: real -> real)
    ensures var o := dissolve(layer, DissolvedPath(layer), layer.name + FinalSuffix);
      var r := ReportFor(layer, dissolve, round4);
      && (r.Dissolved? <==> o.DissolveWritten? && o.loaded.isValid)
      && (r.LoadFailed? <==> o.DissolveWritten? && !o.loaded.isValid)
      && (r.Dissolved? ==>
            && r.name == layer.name + "_FINAL"
            && r.fields == o.loaded.fields + AddedFields
            && |r.features| == |o.loaded.features|
            && (forall i :: 0 <= i < |r.features| ==>
                  && AttributeOf(r.features[i], ClassField) == AttributeOf(o.loaded.features[i], ClassField)
                  && r.features[i].area == o.loaded.features[i].area))
  {
  }

  /** The `try` block for one selected layer: dissolve, load, add and fill the fields, style. */
  method DissolveOne(layer: MapLayer, dissolve: (MapLayer, string, string) -> DissolveOutcome, round4: real -> real)
    returns (report: LayerReport)
    ensures report == ReportFor(layer, dissolve, round4)
  {
    var path := DissolvedPath(layer);
    var outcome := dissolve(layer, path, layer.name + FinalSuffix);
    if outcome.DissolveRaised? {
      return DissolveFailed(layer.name, path);
    }
    var loaded := outcome.loaded;
    if !loaded.isValid {
      return LoadFailed(layer.name, path);
    }
    var edit := new EditableLayer(loaded.fields, loaded.features);
    edit.AddAttributes(AddedFields);
    FillLabelAndArea(edit, round4);
    assert edit.features == FilledFeatures(loaded.features, round4);
    var categories := BuildCategories();
    return Dissolved(layer.name + FinalSuffix, path, edit.fields, edit.features, categories);
  }

  /** `dissolver_calcular_posicionar`: the loop over the project's layers (`skipFinal` false as written). */
  method DissolveAll(layers: seq<MapLayer>, skipFinal: bool, dissolve: (MapLayer, string, string) -> DissolveOutcome, round4: real -> real)
    returns (reports: seq<LayerReport>)
    ensures reports == Reports(layers, skipFinal, dissolve, round4)
    ensures |reports| == CountSelected(layers, skipFinal)
  {
    reports := [];
    var i := 0;
    while i < |layers|
      invariant 0 <= i <= |layers|
      invariant reports == Reports(layers[..i], skipFinal, dissolve, round4)
    {
      var layer := layers[i];
      assert layers[..i + 1][..i] == layers[..i];
      if layer.layerType != VectorLayer || layer.name in IgnoredLayers || Contains(layer.name, DissolvedMarker)
         || (skipFinal && EndsWith(layer.name, FinalSuffix)) {
        i := i + 1;
        continue;
      }
      var report := DissolveOne(layer, dissolve, round4);
      reports := reports + [report];
      i := i + 1;
    }
    assert layers[..i] == layers;
    ReportsPerSelected(layers, skipFinal, dissolve, round4);
  }
}
