/**
 * `processar_tudo_com_auditoria` and `renomear_campo_dn` of
 * script_pre_processamento_sankey.py: find the `..._FINAL` vector layers,
 * read a sector (Leste or Oeste) and a year from each name, and for each
 * sector intersect the layers year after year, each with its `DN` field
 * renamed after its year, then export the result (see SankeyExport). The run
 * takes the renaming as `newName`: `AsWrittenClassName` is the script as
 * written, `ClassName` the corrected one.
 */
module Sankey {
  import opened Wrappers
  import opened Layers
  import opened Strings
  import opened Ordering
  import SankeyExport
  import Dissolve

  /** `IGNORAR`: a layer whose name contains one of these is never used. */
  const IgnoredSubstrings: seq<string> := ["Buffer", "mapbiomas", "dissolvido", "sankey", "transicao"]

  const FinalMarker: string := "FINAL"

  /** `nome_base` is this followed by the sector name. */
  const CombinedPrefix: string := "transicao_completa_"

  // ---------------------------------------------------------------------------
  // renomear_campo_dn

  /** One entry of `FIELDS_MAPPING` for `native:refactorfields`. */
  datatype FieldMapping = FieldMapping(expression: string, length: int, name: string, precision: int, fieldType: int)

  /** The expression `"DN"`: the new field takes the value of `DN`. */
  const DnExpression: string := "\"DN\""

  /** The new name as the script writes it: `"Class{}".format(ano)`. */
  function AsWrittenClassName(year: nat): string {
    "Class" + DecimalString(year)
  }

  /** The new name as the docstring states it and the export selects it: `CLASSE_<year>`. */
  function ClassName(year: nat): (name: string)
    ensures StartsWith(name, SankeyExport.ClassPrefix)
    ensures |name| == |SankeyExport.ClassPrefix| + |DecimalString(year)|
  {
    ConcatEnds(SankeyExport.ClassPrefix, DecimalString(year));
    SankeyExport.ClassPrefix + DecimalString(year)
  }

  /** The fields named `DN`, in field order. */
  function DnFields(fields: seq<Field>): (r: seq<Field>)
    ensures forall f :: f in r <==> f in fields && f.name == "DN"
  {
    if fields == [] then []
    else
      var init := fields[..|fields| - 1];
      var f := fields[|fields| - 1];
      assert fields == init + [f];
      DnFields(init) + (if f.name == "DN" then [f] else [])
  }

  /** Reference definition of `fields_mapping`. */
  function DnMappings(fields: seq<Field>, newName: string): (m: seq<FieldMapping>)
    ensures |m| == |DnFields(fields)|
    ensures forall k :: 0 <= k < |m| ==>
              var d := DnFields(fields)[k];
              m[k] == FieldMapping(DnExpression, d.length, newName, d.precision, d.fieldType)
  {
    if fields == [] then []
    else
      var f := fields[|fields| - 1];
      DnMappings(fields[..|fields| - 1], newName)
        + (if f.name == "DN" then [FieldMapping(DnExpression, f.length, newName, f.precision, f.fieldType)] else [])
  }

  /** The loop building `fields_mapping`. */
  method BuildFieldMapping(fields: seq<Field>, newName: string) returns (mapping: seq<FieldMapping>)
    ensures mapping == DnMappings(fields, newName)
  {
    mapping := [];
    var i := 0;
    while i < |fields|
      invariant 0 <= i <= |fields|
      invariant mapping == DnMappings(fields[..i], newName)
    {
      var field := fields[i];
      assert fields[..i + 1][..i] == fields[..i];
      if field.name == "DN" {
        mapping := mapping + [FieldMapping(DnExpression, field.length, newName, field.precision, field.fieldType)];
      }
      i := i + 1;
    }
    assert fields[..i] == fields;
  }

  /**
   * Reference definition of `renomear_campo_dn(layer, year)`: `newName` gives
   * the year's new name (`AsWrittenClassName` as the script writes it,
   * `ClassName` corrected), `refactor` is `native:refactorfields`.
   */
  function Renamed(layer: MapLayer, year: nat, newName: nat -> string, refactor: (MapLayer, seq<FieldMapping>) -> MapLayer): MapLayer {
    refactor(layer, DnMappings(layer.fields, newName(year)))
  }

  method RenameDnField(layer: MapLayer, year: nat, newName: nat -> string, refactor: (MapLayer, seq<FieldMapping>) -> MapLayer)
    returns (renamed: MapLayer)
    ensures renamed == Renamed(layer, year, newName, refactor)
  {
    var mapping := BuildFieldMapping(layer.fields, newName(year));
    renamed := refactor(layer, mapping);
  }

  /**
   * Every mapping of a year's rename takes a `DN` field to the year's new
   * name. Under the name the script writes, the export selects none of them;
   * under the corrected name, it selects every one.
   */
  lemma RenameTargets(fields: seq<Field>, year: nat)
    ensures var asWritten, corrected := DnMappings(fields, AsWrittenClassName(year)), DnMappings(fields, ClassName(year));
      && |asWritten| == |corrected| == |DnFields(fields)|
      && forall k :: 0 <= k < |DnFields(fields)| ==>
           && DnFields(fields)[k].name == "DN"
           && asWritten[k].name == AsWrittenClassName(year) && !StartsWith(asWritten[k].name, SankeyExport.ClassPrefix)
           && corrected[k].name == ClassName(year) && StartsWith(corrected[k].name, SankeyExport.ClassPrefix)
  {
    AsWrittenNameNotSelected(year);
    var d := DnFields(fields);
    forall k | 0 <= k < |d| ensures d[k].name == "DN" {
      assert d[k] in d;
    }
  }

  /** The name the script gives starts with `Class`, not `CLASSE_`, so the export never selects it. */
  lemma AsWrittenNameNotSelected(year: nat)
    ensures !StartsWith(AsWrittenClassName(year), SankeyExport.ClassPrefix)
  {
    assert AsWrittenClassName(year)[1] == 'l';
  }

  /**
   * If the final layer carries only fields renamed as the script names them,
   * no class column is selected and the CSV collapses to one row holding the
   * total area: the class histories are lost.
   */
  lemma AsWrittenExportCollapses(layer: MapLayer, years: seq<nat>, round4: real -> real)
    requires forall i :: 0 <= i < |layer.fields| ==> exists k :: 0 <= k < |years| && layer.fields[i].name == AsWrittenClassName(years[k])
    ensures SankeyExport.ClassColumns(layer.fields) == []
    ensures SankeyExport.ExportFor(layer, CombinedPrefix + "Leste", round4).table
              == SankeyExport.CsvTable([SankeyExport.AreaColumn],
                   if layer.features == [] then [] else [[RealValue(round4(SankeyExport.TotalHectares(layer.features)))]])
  {
    forall i | 0 <= i < |layer.fields| ensures !StartsWith(layer.fields[i].name, SankeyExport.ClassPrefix) {
      var k :| 0 <= k < |years| && layer.fields[i].name == AsWrittenClassName(years[k]);
      AsWrittenNameNotSelected(years[k]);
    }
    SankeyExport.NoClassColumns(layer, round4);
  }

  /** The four digits of a year between 1000 and 9999, most significant first. */
  lemma FourDigits(y: nat)
    requires 1000 <= y <= 9999
    ensures DecimalString(y) == [DigitChar(y / 1000), DigitChar(y / 100 % 10), DigitChar(y / 10 % 10), DigitChar(y % 10)]
    ensures y == 1000 * (y / 1000) + 100 * (y / 100 % 10) + 10 * (y / 10 % 10) + y % 10
  {
    assert y / 10 / 10 == y / 100;
    assert y / 100 / 10 == y / 1000;
    assert DecimalString(y / 1000) == [DigitChar(y / 1000)];
    assert DecimalString(y / 100) == DecimalString(y / 1000) + [DigitChar(y / 100 % 10)];
    assert DecimalString(y / 10) == DecimalString(y / 100) + [DigitChar(y / 10 % 10)];
    assert DecimalString(y) == DecimalString(y / 10) + [DigitChar(y % 10)];
  }

  lemma DigitCharLess(d: nat, e: nat)
    requires d < e < 10
    ensures DigitChar(d) < DigitChar(e)
  {
  }

  /** Two strings of four digits compare as the numbers they write. */
  lemma FourDigitOrder(a0: nat, a1: nat, a2: nat, a3: nat, b0: nat, b1: nat, b2: nat, b3: nat)
    requires a0 < 10 && a1 < 10 && a2 < 10 && a3 < 10 && b0 < 10 && b1 < 10 && b2 < 10 && b3 < 10
    requires 1000 * a0 + 100 * a1 + 10 * a2 + a3 < 1000 * b0 + 100 * b1 + 10 * b2 + b3
    ensures LexLess([DigitChar(a0), DigitChar(a1), DigitChar(a2), DigitChar(a3)],
                    [DigitChar(b0), DigitChar(b1), DigitChar(b2), DigitChar(b3)])
  {
    var a := [DigitChar(a0), DigitChar(a1), DigitChar(a2), DigitChar(a3)];
    var b := [DigitChar(b0), DigitChar(b1), DigitChar(b2), DigitChar(b3)];
    if a0 < b0 {
      DigitCharLess(a0, b0);
      HeadLess(a, b);
    } else if a1 < b1 {
      assert a0 == b0;
      DigitCharLess(a1, b1);
      HeadLess(a[1..], b[1..]);
      LexLessCommonPrefix(a[..1], a[1..], b[1..]);
      assert a == a[..1] + a[1..] && b == a[..1] + b[1..];
    } else if a2 < b2 {
      assert a0 == b0 && a1 == b1;
      DigitCharLess(a2, b2);
      HeadLess(a[2..], b[2..]);
      LexLessCommonPrefix(a[..2], a[2..], b[2..]);
      assert a == a[..2] + a[2..] && b == a[..2] + b[2..];
    } else {
      assert a0 == b0 && a1 == b1 && a2 == b2 && a3 < b3;
      DigitCharLess(a3, b3);
      HeadLess(a[3..], b[3..]);
      LexLessCommonPrefix(a[..3], a[3..], b[3..]);
      assert a == a[..3] + a[3..] && b == a[..3] + b[3..];
    }
  }

  lemma HeadLess(a: string, b: string)
    requires a != [] && b != [] && a[0] < b[0]
    ensures LexLess(a, b)
  {
  }

  lemma {:induction false} LexLessCommonPrefix(p: string, a: string, b: string)
    requires LexLess(a, b)
    ensures LexLess(p + a, p + b)
  {
    if p == [] {
      assert p + a == a && p + b == b;
    } else {
      LexLessCommonPrefix(p[1..], a, b);
      var x, y := p + a, p + b;
      assert x[1..] == p[1..] + a && y[1..] == p[1..] + b;
      assert x != [] && y != [] && x[0] == y[0];
      assert LexLess(x[1..], y[1..]);
    }
  }

  /** With the corrected names, the sorted class columns of four-digit years are in chronological order. */
  lemma ChronologicalColumns(y1: nat, y2: nat)
    requires 1000 <= y1 < y2 <= 9999
    ensures LexLess(ClassName(y1), ClassName(y2))
  {
    FourDigits(y1);
    FourDigits(y2);
    FourDigitOrder(y1 / 1000, y1 / 100 % 10, y1 / 10 % 10, y1 % 10, y2 / 1000, y2 / 100 % 10, y2 / 10 % 10, y2 % 10);
    LexLessCommonPrefix(SankeyExport.ClassPrefix, DecimalString(y1), DecimalString(y2));
  }

  // ---------------------------------------------------------------------------
  // Layer selection and name parsing

  datatype Sector = Leste | Oeste

  function SectorName(s: Sector): string {
    match s
    case Leste => "Leste"
    case Oeste => "Oeste"
  }

  /** The name filters: upper-cased it ends with `FINAL`, and it contains no ignored text. */
  predicate Candidate(layer: MapLayer) {
    && layer.layerType == VectorLayer
    && EndsWith(Upper(layer.name), FinalMarker)
    && !(exists k :: 0 <= k < |IgnoredSubstrings| && Contains(layer.name, IgnoredSubstrings[k]))
  }

  /** `lado`: Leste when some part is `Leste`, else Oeste when some part is `Oeste`. */
  function SectorOf(parts: seq<string>): Option<Sector> {
    if "Leste" in parts then Some(Leste) else if "Oeste" in parts then Some(Oeste) else None
  }

  /** `p.isdigit() and len(p) == 4`, for ASCII digits. */
  predicate IsYearPart(p: string) {
    IsDigitString(p) && |p| == 4
  }

  /** Reference definition of the year loop: the value of the first four-digit part. */
  function FirstYear(parts: seq<string>): (y: Option<nat>)
    ensures y.Some? <==> exists k :: 0 <= k < |parts| && IsYearPart(parts[k])
    ensures y.Some? ==> y.value < 10000
    ensures y.Some? ==>
              exists k :: 0 <= k < |parts| && IsYearPart(parts[k]) && y.value == DecimalValue(parts[k]) &&
                (forall j :: 0 <= j < k ==> !IsYearPart(parts[j]))
  {
    if parts == [] then None
    else if IsYearPart(parts[0]) then Some(DecimalValue(parts[0]))
    else
      var y := FirstYear(parts[1..]);
      assert forall k :: 1 <= k < |parts| ==> parts[k] == parts[1..][k - 1];
      y
  }

  /** The year loop with `break`. */
  method FindYear(parts: seq<string>) returns (year: Option<nat>)
    ensures year == FirstYear(parts)
  {
    year := None;
    var i := 0;
    while i < |parts|
      invariant 0 <= i <= |parts|
      invariant year.None?
      invariant FirstYear(parts[i..]) == FirstYear(parts)
    {
      var p := parts[i];
      if IsDigitString(p) && |p| == 4 {
        year := Some(DecimalValue(p));
        break;
      }
      assert parts[i..][1..] == parts[i + 1..];
      i := i + 1;
    }
  }

  /**
   * The (sector, year) a name registers under: both must be found and the year
   * must be non-zero (`if lado and ano`). Leste wins when both sectors appear.
   */
  function ParseName(name: string): (r: Option<(Sector, nat)>)
    ensures var parts := Split(name, '_');
      && (r.Some? <==> ("Leste" in parts || "Oeste" in parts) && FirstYear(parts).Some? && FirstYear(parts).value != 0)
      && (r.Some? ==>
            && r.value.0 == (if "Leste" in parts then Leste else Oeste)
            && r.value.1 == FirstYear(parts).value
            && 1 <= r.value.1 <= 9999)
  {
    var parts := Split(name, '_');
    var sector := SectorOf(parts);
    var year := FirstYear(parts);
    if sector.Some? && year.Some? && year.value != 0 then Some((sector.value, year.value)) else None
  }

  function Parse(layer: MapLayer): Option<(Sector, nat)> {
    if Candidate(layer) then ParseName(layer.name) else None
  }

  /** A dissolve output is loaded as `<name>_FINAL`, which passes the `FINAL` filter. */
  lemma DissolveOutputPassesFinalFilter(name: string)
    ensures EndsWith(Upper(name + Dissolve.FinalSuffix), FinalMarker)
  {
    UpperConcat(name, Dissolve.FinalSuffix);
    assert Upper(Dissolve.FinalSuffix) == "_FINAL";
    ConcatEnds(Upper(name) + "_", FinalMarker);
    assert Upper(name) + "_" + FinalMarker == Upper(name) + "_FINAL";
  }

  // ---------------------------------------------------------------------------
  // dados_mapa

  /** `dados_mapa`: per sector, the layer registered for each year. */
  type Registry = map<Sector, map<nat, MapLayer>>

  /**
   * Reference definition of `dados_mapa` after the loop over `layers`, each
   * layer registering under what `parse` gives it (the model uses `Parse`).
   */
  function RegistryOf(layers: seq<MapLayer>, parse: MapLayer -> Option<(Sector, nat)>): (r: Registry)
    ensures Leste in r && Oeste in r
  {
    if layers == [] then map[Leste := map[], Oeste := map[]]
    else
      var r := RegistryOf(layers[..|layers| - 1], parse);
      var l := layers[|layers| - 1];
      var parsed := parse(l);
      if parsed.None? then r
      else
        var (s, y) := parsed.value;
        assert s == Leste || s == Oeste;
        var years: map<nat, MapLayer> := r[s][y := l];
        r[s := years]
  }

  /** Reference definition of `count`: the number of layers that parse. */
  function CountOf(layers: seq<MapLayer>, parse: MapLayer -> Option<(Sector, nat)>): nat {
    if layers == [] then 0
    else CountOf(layers[..|layers| - 1], parse) + (if parse(layers[|layers| - 1]).Some? then 1 else 0)
  }

  /** The filters and the parsing of one layer, in the loop body's order. */
  method ParseLayer(l: MapLayer) returns (parsed: Option<(Sector, nat)>)
    ensures parsed == Parse(l)
  {
    if l.layerType != VectorLayer {
      return None;
    }
    var name := l.name;
    if !EndsWith(Upper(name), FinalMarker) {
      return None;
    }
    if exists k :: 0 <= k < |IgnoredSubstrings| && Contains(name, IgnoredSubstrings[k]) {
      return None;
    }
    var parts := Split(name, '_');
    var sector := if "Leste" in parts then Some(Leste) else if "Oeste" in parts then Some(Oeste) else None;
    var year := FindYear(parts);
    if sector.Some? && year.Some? && year.value != 0 {
      return Some((sector.value, year.value));
    }
    return None;
  }

  /** The loop over the project's layers that fills `dados_mapa` and counts the captures. */
  method RegisterLayers(layers: seq<MapLayer>) returns (registry: Registry, count: nat)
    ensures registry == RegistryOf(layers, Parse)
    ensures count == CountOf(layers, Parse)
  {
    registry := map[Leste := map[], Oeste := map[]];
    count := 0;
    var i := 0;
    while i < |layers|
      invariant 0 <= i <= |layers|
      invariant registry == RegistryOf(layers[..i], Parse)
      invariant count == CountOf(layers[..i], Parse)
    {
      var l := layers[i];
      assert layers[..i + 1][..i] == layers[..i];
      var parsed := ParseLayer(l);
      if parsed.Some? {
        var (sector, year) := parsed.value;
        registry := registry[sector := registry[sector][year := l]];
        count := count + 1;
      }
      i := i + 1;
    }
    assert layers[..i] == layers;
  }

  /**
   * A year is registered for a sector exactly when some layer parses to that
   * (sector, year), and the layer kept is the last such one: a later layer
   * overwrites an earlier one.
   */
  lemma {:induction false} RegistryContract(layers: seq<MapLayer>, parse: MapLayer -> Option<(Sector, nat)>, s: Sector, y: nat)
    ensures y in RegistryOf(layers, parse)[s] <==> exists k :: 0 <= k < |layers| && parse(layers[k]) == Some((s, y))
    ensures y in RegistryOf(layers, parse)[s] ==>
              exists k :: 0 <= k < |layers| && parse(layers[k]) == Some((s, y)) && RegistryOf(layers, parse)[s][y] == layers[k] &&
                (forall j :: k < j < |layers| ==> parse(layers[j]) != Some((s, y)))
  {
    if layers != [] {
      var n := |layers| - 1;
      var init := layers[..n];
      var l := layers[n];
      RegistryContract(init, parse, s, y);
      assert forall k :: 0 <= k < n ==> layers[k] == init[k];
      var before := RegistryOf(init, parse)[s];
      var after := RegistryOf(layers, parse)[s];
      var parsed := parse(l);
      if parsed == Some((s, y)) {
        assert after == before[y := l];
        assert parse(layers[n]) == Some((s, y)) && after[y] == layers[n];
      } else {
        assert y in after <==> y in before && (y in after ==> after[y] == before[y]) by {
          if parsed.Some? && parsed.value.0 == s {
            assert after == before[parsed.value.1 := l];
          } else {
            assert after == before;
          }
        }
        if y in after {
          var k :| 0 <= k < n && parse(init[k]) == Some((s, y)) && before[y] == init[k] &&
            (forall j :: k < j < n ==> parse(init[j]) != Some((s, y)));
          assert parse(layers[k]) == Some((s, y)) && after[y] == layers[k];
          assert forall j :: k < j < |layers| ==> parse(layers[j]) != Some((s, y));
        }
      }
    }
  }

  /** `count == 0` exactly when no layer parses, and then nothing is registered for either sector. */
  lemma {:induction false} CountZeroIffEmpty(layers: seq<MapLayer>, parse: MapLayer -> Option<(Sector, nat)>)
    ensures CountOf(layers, parse) == 0 <==> forall k :: 0 <= k < |layers| ==> parse(layers[k]).None?
    ensures CountOf(layers, parse) == 0 <==> RegistryOf(layers, parse)[Leste] == map[] && RegistryOf(layers, parse)[Oeste] == map[]
  {
    if layers != [] {
      var n := |layers| - 1;
      var init := layers[..n];
      CountZeroIffEmpty(init, parse);
      assert forall k :: 0 <= k < n ==> layers[k] == init[k];
      var p := parse(layers[n]);
      var r := RegistryOf(layers, parse);
      if p.Some? {
        var (s, y) := p.value;
        assert y in r[s];
        assert s == Leste || s == Oeste;
        assert r[s] != map[];
      } else {
        assert r == RegistryOf(init, parse);
      }
    }
  }

  // ---------------------------------------------------------------------------
  // The per-sector fold

  /** The pairs of years intersected, in order: each year with the next one. */
  function Crossings(years: seq<nat>): seq<(nat, nat)> {
    if |years| <= 1 then []
    else Crossings(years[..|years| - 1]) + [(years[|years| - 2], years[|years| - 1])]
  }

  /** There is one crossing fewer than years, crossing `i` joining year `i` to year `i + 1`. */
  lemma {:induction false} CrossingsShape(years: seq<nat>)
    ensures |Crossings(years)| == if years == [] then 0 else |years| - 1
    ensures forall i :: 0 <= i < |Crossings(years)| ==> Crossings(years)[i] == (years[i], years[i + 1])
  {
    if |years| > 1 {
      var init := years[..|years| - 1];
      CrossingsShape(init);
      assert forall i :: 0 <= i < |init| ==> init[i] == years[i];
    }
  }

  /**
   * Reference definition of `layer_acumulado` after the first `n` years: the
   * renamed layers intersected from the earliest year on.
   */
  function Accumulated(byYear: map<nat, MapLayer>, years: seq<nat>, n: nat,
                       newName: nat -> string, refactor: (MapLayer, seq<FieldMapping>) -> MapLayer,
                       intersect: (MapLayer, MapLayer) -> MapLayer): MapLayer
    requires 1 <= n <= |years|
    requires forall k :: 0 <= k < |years| ==> years[k] in byYear
  {
    var last := years[n - 1];
    var renamed := Renamed(byYear[last], last, newName, refactor);
    if n == 1 then renamed
    else intersect(Accumulated(byYear, years, n - 1, newName, refactor, intersect), renamed)
  }

  /** What was done for one sector: its years in order, the intersections, and the exported products. */
  datatype SectorReport = SectorReport(sector: Sector, years: seq<nat>, crossings: seq<(nat, nat)>, products: SankeyExport.ExportReport)

  /** Reference definition of one pass of the sector loop; `None` for a sector with no year. */
  function SectorFor(sector: Sector, byYear: map<nat, MapLayer>,
                     newName: nat -> string, refactor: (MapLayer, seq<FieldMapping>) -> MapLayer,
                     intersect: (MapLayer, MapLayer) -> MapLayer,
                     round4: real -> real): Option<SectorReport> {
    var years := SortedNats(byYear.Keys);
    if years == [] then None
    else
      var acc := Accumulated(byYear, years, |years|, newName, refactor, intersect);
      Some(SectorReport(sector, years, Crossings(years), SankeyExport.ExportFor(acc, CombinedPrefix + SectorName(sector), round4)))
  }

  /**
   * The intersection loop of one sector: rename the earliest year's layer,
   * then intersect the accumulated layer with each following year's renamed
   * layer, recording each pair of years crossed.
   */
  method IntersectYears(byYear: map<nat, MapLayer>, years: seq<nat>,
                        newName: nat -> string, refactor: (MapLayer, seq<FieldMapping>) -> MapLayer,
                        intersect: (MapLayer, MapLayer) -> MapLayer)
    returns (acc: MapLayer, crossings: seq<(nat, nat)>)
    requires years != []
    requires forall j :: 0 <= j < |years| ==> years[j] in byYear
    ensures acc == Accumulated(byYear, years, |years|, newName, refactor, intersect)
    ensures crossings == Crossings(years)
  {
    var baseYear := years[0];
    acc := RenameDnField(byYear[baseYear], baseYear, newName, refactor);
    crossings := [];
    var k := 1;
    assert years[..1] == [baseYear];
    while k < |years|
      invariant 1 <= k <= |years|
      invariant baseYear == years[k - 1]
      invariant acc == Accumulated(byYear, years, k, newName, refactor, intersect)
      invariant crossings == Crossings(years[..k])
    {
      var nextYear := years[k];
      acc, crossings := CrossYear(byYear, years, k, baseYear, newName, refactor, intersect, acc, crossings);
      baseYear := nextYear;
      k := k + 1;
    }
    assert years[..k] == years;
  }

  /** One pass of the intersection loop: intersect with the next year's renamed layer and record the crossing. */
  method CrossYear(byYear: map<nat, MapLayer>, years: seq<nat>, k: nat, baseYear: nat,
                   newName: nat -> string, refactor: (MapLayer, seq<FieldMapping>) -> MapLayer,
                   intersect: (MapLayer, MapLayer) -> MapLayer,
                   acc: MapLayer, crossings: seq<(nat, nat)>)
    returns (acc': MapLayer, crossings': seq<(nat, nat)>)
    requires 1 <= k < |years| && baseYear == years[k - 1]
    requires forall j :: 0 <= j < |years| ==> years[j] in byYear
    requires acc == Accumulated(byYear, years, k, newName, refactor, intersect)
    requires crossings == Crossings(years[..k])
    ensures acc' == Accumulated(byYear, years, k + 1, newName, refactor, intersect)
    ensures crossings' == Crossings(years[..k + 1])
  {
    var nextYear := years[k];
    var next := RenameDnField(byYear[nextYear], nextYear, newName, refactor);
    CrossingsStep(years, k);
    acc' := intersect(acc, next);
    crossings' := crossings + [(baseYear, nextYear)];
  }

  /** Taking one more year adds the crossing of the previous year with it. */
  lemma CrossingsStep(years: seq<nat>, k: nat)
    requires 1 <= k < |years|
    ensures Crossings(years[..k + 1]) == Crossings(years[..k]) + [(years[k - 1], years[k])]
  {
    var upTo := years[..k + 1];
    assert upTo[..|upTo| - 1] == years[..k] && upTo[|upTo| - 1] == years[k] && upTo[|upTo| - 2] == years[k - 1];
  }

  /** One pass of the sector loop: sort the years, intersect them in order, export. */
  method ProcessSector(sector: Sector, byYear: map<nat, MapLayer>,
                       newName: nat -> string, refactor: (MapLayer, seq<FieldMapping>) -> MapLayer,
                       intersect: (MapLayer, MapLayer) -> MapLayer,
                       round4: real -> real)
    returns (report: Option<SectorReport>)
    ensures report == SectorFor(sector, byYear, newName, refactor, intersect, round4)
  {
    var years := SortedNats(byYear.Keys);
    if years == [] {
      return None;
    }
    assert forall j :: 0 <= j < |years| ==> years[j] in byYear;
    var acc, crossings := IntersectYears(byYear, years, newName, refactor, intersect);
    var products := SankeyExport.ExportProducts(acc, CombinedPrefix + SectorName(sector), round4);
    return Some(SectorReport(sector, years, crossings, products));
  }

  /** A sector is skipped exactly when it has no year; otherwise its report is about it. */
  lemma SectorSkipped(sector: Sector, byYear: map<nat, MapLayer>,
                      newName: nat -> string, refactor: (MapLayer, seq<FieldMapping>) -> MapLayer,
                      intersect: (MapLayer, MapLayer) -> MapLayer,
                      round4: real -> real)
    ensures var r := SectorFor(sector, byYear, newName, refactor, intersect, round4);
      && (r.None? <==> byYear == map[])
      && (r.Some? ==> r.value.sector == sector)
  {
    var years := SortedNats(byYear.Keys);
    if years == [] {
      assert byYear.Keys == {};
    }
  }

  /** A processed sector's report holds exactly its registered years, each once, in increasing order. */
  lemma SectorReportShape(sector: Sector, byYear: map<nat, MapLayer>,
                          newName: nat -> string, refactor: (MapLayer, seq<FieldMapping>) -> MapLayer,
                          intersect: (MapLayer, MapLayer) -> MapLayer,
                          round4: real -> real)
    ensures var r := SectorFor(sector, byYear, newName, refactor, intersect, round4);
      r.Some? ==>
        && (forall y :: y in r.value.years <==> y in byYear)
        && (forall i, j :: 0 <= i < j < |r.value.years| ==> r.value.years[i] < r.value.years[j])
  {
    var r := SectorFor(sector, byYear, newName, refactor, intersect, round4);
    if r.Some? {
      assert r.value.years == SortedNats(byYear.Keys);
    }
  }

  /** A processed sector's report holds one crossing fewer than years, each joining a year to the next, later one. */
  lemma SectorCrossingsShape(sector: Sector, byYear: map<nat, MapLayer>,
                             newName: nat -> string, refactor: (MapLayer, seq<FieldMapping>) -> MapLayer,
                             intersect: (MapLayer, MapLayer) -> MapLayer,
                             round4: real -> real)
    ensures var r := SectorFor(sector, byYear, newName, refactor, intersect, round4);
      r.Some? ==>
        && |r.value.crossings| == |r.value.years| - 1
        && (forall i :: 0 <= i < |r.value.crossings| ==>
              r.value.crossings[i] == (r.value.years[i], r.value.years[i + 1]) && r.value.years[i] < r.value.years[i + 1])
  {
    var r := SectorFor(sector, byYear, newName, refactor, intersect, round4);
    if r.Some? {
      assert r.value.years == SortedNats(byYear.Keys) && r.value.years != [] && r.value.crossings == Crossings(r.value.years);
      ReportCrossings(r.value);
    }
  }

  /** A report whose crossings are those of its nonempty, increasing years. */
  lemma ReportCrossings(report: SectorReport)
    requires report.years != []
    requires forall i, j :: 0 <= i < j < |report.years| ==> report.years[i] < report.years[j]
    requires report.crossings == Crossings(report.years)
    ensures |report.crossings| == |report.years| - 1
    ensures forall i :: 0 <= i < |report.crossings| ==>
              report.crossings[i] == (report.years[i], report.years[i + 1]) && report.years[i] < report.years[i + 1]
  {
    CrossingsIncreasing(report.years);
  }

  /** Consecutive pairs of a strictly increasing sequence: one fewer than its elements, each joining one to the next, later one. */
  lemma CrossingsIncreasing(years: seq<nat>)
    requires forall i, j :: 0 <= i < j < |years| ==> years[i] < years[j]
    ensures |Crossings(years)| == if years == [] then 0 else |years| - 1
    ensures forall i :: 0 <= i < |Crossings(years)| ==>
              && Crossings(years)[i].0 == years[i]
              && Crossings(years)[i].1 == years[i + 1]
              && Crossings(years)[i].0 < Crossings(years)[i].1
  {
    CrossingsShape(years);
    var c := Crossings(years);
    forall i | 0 <= i < |c| ensures c[i].0 == years[i] && c[i].1 == years[i + 1] && c[i].0 < c[i].1 {
      assert c[i] == (years[i], years[i + 1]);
    }
  }

  /** A processed sector's combined layer is saved as `transicao_completa_<sector>.shp` in the base folder. */
  lemma SectorShapefile(sector: Sector, byYear: map<nat, MapLayer>,
                        newName: nat -> string, refactor: (MapLayer, seq<FieldMapping>) -> MapLayer,
                        intersect: (MapLayer, MapLayer) -> MapLayer,
                        round4: real -> real)
    ensures var r := SectorFor(sector, byYear, newName, refactor, intersect, round4);
      r.Some? ==> r.value.products.shpPath == PathJoin(SankeyExport.BaseFolder, "transicao_completa_" + SectorName(sector) + ".shp")
  {
    assert "transicao_completa_" + SectorName(sector) + ".shp" == CombinedPrefix + SectorName(sector) + ".shp";
  }

  // ---------------------------------------------------------------------------
  // processar_tudo_com_auditoria

  /** The report of one sector as the loop appends it: nothing for a skipped sector. */
  function Reported(r: Option<SectorReport>): seq<SectorReport> {
    if r.Some? then [r.value] else []
  }

  /** The reports of the sector loop over `sectors`, skipping sectors with no year. */
  function SectorReports(sectors: seq<Sector>, registry: Registry,
                         newName: nat -> string, refactor: (MapLayer, seq<FieldMapping>) -> MapLayer,
                         intersect: (MapLayer, MapLayer) -> MapLayer,
                         round4: real -> real): seq<SectorReport>
    requires forall k :: 0 <= k < |sectors| ==> sectors[k] in registry
  {
    if sectors == [] then []
    else
      var s := sectors[|sectors| - 1];
      var r := SectorFor(s, registry[s], newName, refactor, intersect, round4);
      SectorReports(sectors[..|sectors| - 1], registry, newName, refactor, intersect, round4) + Reported(r)
  }

  datatype RunReport =
    | NothingRegistered                    // count == 0: the run stops before any intersection
    | Completed(sectors: seq<SectorReport>) // the sectors with at least one year, Leste first

  /** Reference definition of the whole run over the project's layers. */
  function RunFor(layers: seq<MapLayer>,
                  newName: nat -> string, refactor: (MapLayer, seq<FieldMapping>) -> MapLayer,
                  intersect: (MapLayer, MapLayer) -> MapLayer,
                  round4: real -> real): RunReport {
    if CountOf(layers, Parse) == 0 then NothingRegistered
    else Completed(SectorReports([Leste, Oeste], RegistryOf(layers, Parse), newName, refactor, intersect, round4))
  }

  /** `processar_tudo_com_auditoria`: register the layers, stop if none, then the loop over both sectors. */
  method ProcessAll(layers: seq<MapLayer>,
                    newName: nat -> string, refactor: (MapLayer, seq<FieldMapping>) -> MapLayer,
                    intersect: (MapLayer, MapLayer) -> MapLayer,
                    round4: real -> real)
    returns (report: RunReport)
    ensures report == RunFor(layers, newName, refactor, intersect, round4)
  {
    var registry, count := RegisterLayers(layers);
    if count == 0 {
      return NothingRegistered;
    }
    var done := ProcessSectors([Leste, Oeste], registry, newName, refactor, intersect, round4);
    return Completed(done);
  }

  /** The loop over the sectors: each sector's report, in loop order, skipped sectors left out. */
  method ProcessSectors(sectors: seq<Sector>, registry: Registry,
                        newName: nat -> string, refactor: (MapLayer, seq<FieldMapping>) -> MapLayer,
                        intersect: (MapLayer, MapLayer) -> MapLayer,
                        round4: real -> real)
    returns (done: seq<SectorReport>)
    requires forall k :: 0 <= k < |sectors| ==> sectors[k] in registry
    ensures done == SectorReports(sectors, registry, newName, refactor, intersect, round4)
  {
    done := [];
    var i := 0;
    while i < |sectors|
      invariant 0 <= i <= |sectors|
      invariant done == SectorReports(sectors[..i], registry, newName, refactor, intersect, round4)
    {
      var s := sectors[i];
      SectorReportsStep(sectors, i, registry, newName, refactor, intersect, round4);
      var r := ProcessSector(s, registry[s], newName, refactor, intersect, round4);
      done := done + Reported(r);
      i := i + 1;
    }
    assert sectors[..i] == sectors;
  }

  /** Taking one more sector appends its report, if it is not skipped. */
  lemma SectorReportsStep(sectors: seq<Sector>, i: nat, registry: Registry,
                          newName: nat -> string, refactor: (MapLayer, seq<FieldMapping>) -> MapLayer,
                          intersect: (MapLayer, MapLayer) -> MapLayer,
                          round4: real -> real)
    requires i < |sectors|
    requires forall k :: 0 <= k < |sectors| ==> sectors[k] in registry
    ensures SectorReports(sectors[..i + 1], registry, newName, refactor, intersect, round4)
              == SectorReports(sectors[..i], registry, newName, refactor, intersect, round4)
                 + Reported(SectorFor(sectors[i], registry[sectors[i]], newName, refactor, intersect, round4))
  {
    assert sectors[..i + 1][..i] == sectors[..i];
  }

  /** The sectors the reports are about, in order. */
  function SectorsOf(rs: seq<SectorReport>): seq<Sector> {
    seq(|rs|, i requires 0 <= i < |rs| => rs[i].sector)
  }

  /** The sectors of `sectors` that have at least one year, in order. */
  function WithYears(sectors: seq<Sector>, registry: Registry): seq<Sector>
    requires forall k :: 0 <= k < |sectors| ==> sectors[k] in registry
  {
    if sectors == [] then []
    else
      var s := sectors[|sectors| - 1];
      WithYears(sectors[..|sectors| - 1], registry) + (if registry[s] == map[] then [] else [s])
  }

  /** Appending one sector's outcome appends its sector, unless it was skipped. */
  lemma ReportStep(before: seq<SectorReport>, r: Option<SectorReport>, s: Sector, skipped: bool)
    requires r.None? <==> skipped
    requires r.Some? ==> r.value.sector == s
    ensures SectorsOf(before + Reported(r)) == SectorsOf(before) + (if skipped then [] else [s])
  {
  }

  /** The sector loop reports exactly the sectors that have a year, once each, in loop order. */
  lemma {:induction false} ReportedSectors(sectors: seq<Sector>, registry: Registry,
                                          newName: nat -> string, refactor: (MapLayer, seq<FieldMapping>) -> MapLayer,
                                          intersect: (MapLayer, MapLayer) -> MapLayer,
                                          round4: real -> real)
    requires forall k :: 0 <= k < |sectors| ==> sectors[k] in registry
    ensures SectorsOf(SectorReports(sectors, registry, newName, refactor, intersect, round4)) == WithYears(sectors, registry)
  {
    if sectors != [] {
      var init := sectors[..|sectors| - 1];
      var s := sectors[|sectors| - 1];
      ReportedSectors(init, registry, newName, refactor, intersect, round4);
      SectorSkipped(s, registry[s], newName, refactor, intersect, round4);
      ReportStep(SectorReports(init, registry, newName, refactor, intersect, round4),
                 SectorFor(s, registry[s], newName, refactor, intersect, round4), s, registry[s] == map[]);
    }
  }

  /** Of Leste then Oeste, the sectors with a year are Leste (if it has one), then Oeste (if it has one). */
  lemma BothSectors(registry: Registry)
    requires Leste in registry && Oeste in registry
    ensures WithYears([Leste, Oeste], registry)
              == (if registry[Leste] != map[] then [Leste] else []) + (if registry[Oeste] != map[] then [Oeste] else [])
  {
    var both: seq<Sector> := [Leste, Oeste];
    var east: seq<Sector> := [Leste];
    assert both[..1] == east && east[..0] == [];
    assert WithYears(east, registry) == WithYears([], registry) + (if registry[Leste] == map[] then [] else [Leste]);
    assert WithYears(both, registry) == WithYears(east, registry) + (if registry[Oeste] == map[] then [] else [Oeste]);
  }

  /** Reports whose sectors are Leste (if any), then Oeste (if any). */
  lemma SectorOrder(rs: seq<SectorReport>, east: bool, west: bool)
    requires SectorsOf(rs) == (if east then [Leste] else []) + (if west then [Oeste] else [])
    ensures |rs| == (if east then 1 else 0) + (if west then 1 else 0)
    ensures east && west ==> rs[0].sector == Leste && rs[1].sector == Oeste
    ensures east != west ==> rs[0].sector == (if east then Leste else Oeste)
  {
    assert |rs| == |SectorsOf(rs)|;
    assert forall i :: 0 <= i < |rs| ==> rs[i].sector == SectorsOf(rs)[i];
  }

  /**
   * The run stops exactly when no layer parses to a sector and a year;
   * otherwise at least one sector is processed, Leste before Oeste, and a
   * single one is Leste when Leste has a year.
   */
  lemma RunContract(layers: seq<MapLayer>,
                    newName: nat -> string, refactor: (MapLayer, seq<FieldMapping>) -> MapLayer,
                    intersect: (MapLayer, MapLayer) -> MapLayer,
                    round4: real -> real)
    ensures var r := RunFor(layers, newName, refactor, intersect, round4);
      && (r.NothingRegistered? <==> forall k :: 0 <= k < |layers| ==> Parse(layers[k]).None?)
      && (r.Completed? ==>
            && 1 <= |r.sectors| <= 2
            && (|r.sectors| == 2 ==> r.sectors[0].sector == Leste && r.sectors[1].sector == Oeste)
            && (|r.sectors| == 1 ==> r.sectors[0].sector == (if RegistryOf(layers, Parse)[Leste] != map[] then Leste else Oeste)))
  {
    CountZeroIffEmpty(layers, Parse);
    var r := RunFor(layers, newName, refactor, intersect, round4);
    if r.Completed? {
      var registry := RegistryOf(layers, Parse);
      ReportedSectors([Leste, Oeste], registry, newName, refactor, intersect, round4);
      BothSectors(registry);
      SectorOrder(r.sectors, registry[Leste] != map[], registry[Oeste] != map[]);
    }
  }
}
