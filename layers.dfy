/**
 * The host GIS objects the scripts read, reduced to what they look at:
 * a layer's name, data source text, type, validity, band statistics, fields
 * and features. Everything here is a value handed in by the host project;
 * the scripts never build these themselves except through the processing
 * calls, which the models take as function parameters.
 */
module Layers {
  import opened Wrappers

  /** `QgsMapLayerType`, reduced to the two kinds the scripts test for. */
  datatype LayerType = RasterLayer | VectorLayer | OtherLayer

  /** Minimum and maximum of one raster band; `None` stands for Python's `None`. */
  datatype BandStats = BandStats(minimum: Option<real>, maximum: Option<real>)

  /** An attribute value of a feature (`QVariant`). */
  datatype Value = Null | IntValue(i: int) | RealValue(r: real) | TextValue(s: string)

  datatype Field = Field(name: string, length: int, precision: int, fieldType: int)

  /** A feature: attribute values by field name, and the area of its geometry in m². */
  datatype Feature = Feature(attributes: map<string, Value>, area: real)

  /**
   * A map layer of the project. `bands` are the statistics of bands 1, 2, ...
   * (so `|bands|` is `bandCount()`); `fields` and `features` are the vector
   * attribute table (empty for rasters).
   */
  datatype MapLayer = MapLayer(
    name: string,
    source: string,
    layerType: LayerType,
    isValid: bool,
    hasProvider: bool,
    bands: seq<BandStats>,
    fields: seq<Field>,
    features: seq<Feature>)

  /**
   * `dataProvider().bandStatistics(band, Min | Max)`. What the host gives for a
   * band the layer lacks is not shown by the scripts; it stands here as no
   * statistics.
   */
  function BandStatistics(layer: MapLayer, band: nat): BandStats {
    if 1 <= band <= |layer.bands| then layer.bands[band - 1] else BandStats(None, None)
  }

  /**
   * `feat[name]` for a field of the layer; a field with no value in the
   * feature reads as NULL. A name that is not a field at all, for which PyQGIS
   * raises `KeyError`, is not modelled.
   */
  function AttributeOf(f: Feature, name: string): Value {
    if name in f.attributes then f.attributes[name] else Null
  }

  /** A `QColor`, as the scripts construct it: from RGB components or from a hex string. */
  datatype Color = Rgb(red: nat, green: nat, blue: nat) | HexColor(code: string)

  /** `QgsColorRampShader.ColorRampItem(value, color, label)`: the label is kept as `caption`. */
  datatype ColorRampItem = ColorRampItem(value: real, color: Color, caption: string)

  /** `QgsRendererCategory(value, symbol, label)`: the label is kept as `caption`, the symbol as its colour. */
  datatype Category = Category(value: int, caption: string, color: Color)

  /** The NDVI band of the source rasters (1-based). */
  const NdviBand: nat := 3

  /** The five class labels, lowest NDVI class first. */
  const ClassLabels: seq<string> := [
    "Não-Vegetação/Água",
    "Estresse Severo/Degradação",
    "Estresse Moderado/Baixa Biomassa",
    "Saúde Razoável",
    "Saudável e Vigoroso"
  ]

  /** The red-to-dark-green palette as hex strings, lowest class first. */
  const HexPalette: seq<Color> := [
    HexColor("#d7191c"), HexColor("#fdae61"), HexColor("#ffffbf"), HexColor("#abdda4"), HexColor("#1a9641")
  ]
}
