/**
 * `exportar_produtos_finais` of script_pre_processamento_sankey.py: the
 * class columns of the intersected layer (fields prefixed `CLASSE_`, sorted),
 * the grouping of the features by their class history with the area of each
 * history in hectares, and the CSV table written for the Sankey diagram.
 */
module SankeyExport {
  import opened Layers
  import opened Strings
  import opened Ordering

  /** `PASTA_BASE`. */
  const BaseFolder: string := "H:\\Meu Drive\\UFRA\\PRÉ PROJETO DE TCC\\PRODUTOS TCC\\tabelas_sankey"

  /** The prefix that marks a class column. */
  const ClassPrefix: string := "CLASSE_"

  /** The last CSV column. */
  const AreaColumn: string := "area_ha"

  const SquareMetresPerHectare: real := 10000.0

  // ---------------------------------------------------------------------------
  // campos_classe

  function FieldNames(fields: seq<Field>): seq<string> {
    seq(|fields|, i requires 0 <= i < |fields| => fields[i].name)
  }

  /** `[n for n in names if n.startswith(prefix)]`, in the original order. */
  function WithPrefix(names: seq<string>, prefix: string): (r: seq<string>)
    ensures forall n :: n in r <==> n in names && StartsWith(n, prefix)
    ensures |r| <= |names|
  {
    if names == [] then []
    else (if StartsWith(names[0], prefix) then [names[0]] else []) + WithPrefix(names[1..], prefix)
  }

  lemma {:induction false} WithPrefixNone(names: seq<string>, prefix: string)
    requires forall k :: 0 <= k < |names| ==> !StartsWith(names[k], prefix)
    ensures WithPrefix(names, prefix) == []
  {
    if names != [] {
      WithPrefixNone(names[1..], prefix);
    }
  }

  /** `campos_classe` after `sort()`: exactly the field names with the class prefix, in string order. */
  function ClassColumns(fields: seq<Field>): (cols: seq<string>)
    ensures SortedStrings(cols)
    ensures forall n :: n in cols <==> n in FieldNames(fields) && StartsWith(n, ClassPrefix)
  {
    var selected := WithPrefix(FieldNames(fields), ClassPrefix);
    var cols := SortStrings(selected);
    assert forall n :: n in cols <==> n in selected by {
      forall n ensures n in cols <==> n in selected {
        assert n in cols <==> n in multiset(cols);
        assert n in selected <==> n in multiset(selected);
      }
    }
    cols
  }

  // ---------------------------------------------------------------------------
  // dados_agrupados

  /** `tuple(feat[c] for c in campos_classe)`. */
  function History(f: Feature, cols: seq<string>): (h: seq<Value>)
    ensures |h| == |cols|
  {
    seq(|cols|, i requires 0 <= i < |cols| => AttributeOf(f, cols[i]))
  }

  /** `feat.geometry().area() / 10000.0`. */
  function Hectares(f: Feature): real {
    f.area / SquareMetresPerHectare
  }

  /** The history of every feature, in feature order. */
  function Histories(fs: seq<Feature>, cols: seq<string>): (hs: seq<seq<Value>>)
    ensures |hs| == |fs|
  {
    seq(|fs|, k requires 0 <= k < |fs| => History(fs[k], cols))
  }

  function TotalHectares(fs: seq<Feature>): real {
    if fs == [] then 0.0 else TotalHectares(fs[..|fs| - 1]) + Hectares(fs[|fs| - 1])
  }

  /** Reference definition of the hectares of the features whose history is `h`. */
  function AreaWith(fs: seq<Feature>, cols: seq<string>, h: seq<Value>): real {
    if fs == [] then 0.0
    else AreaWith(fs[..|fs| - 1], cols, h) + (if History(fs[|fs| - 1], cols) == h then Hectares(fs[|fs| - 1]) else 0.0)
  }

  predicate Distinct(s: seq<seq<Value>>) {
    forall i, j :: 0 <= i < j < |s| ==> s[i] != s[j]
  }

  /** The elements of `s` in order of first occurrence: the key order of a Python dict filled from `s`. */
  function FirstOccurrences(s: seq<seq<Value>>): seq<seq<Value>> {
    if s == [] then []
    else
      var r := FirstOccurrences(s[..|s| - 1]);
      r + (if s[|s| - 1] in r then [] else [s[|s| - 1]])
  }

  /** Every element of `s` is a key, and nothing else is. */
  lemma {:induction false} FirstOccurrencesMembers(s: seq<seq<Value>>)
    ensures forall x :: x in FirstOccurrences(s) <==> x in s
  {
    if s != [] {
      FirstOccurrencesMembers(s[..|s| - 1]);
      assert s == s[..|s| - 1] + [s[|s| - 1]];
    }
  }

  /** No history is a key twice. */
  lemma {:induction false} FirstOccurrencesDistinct(s: seq<seq<Value>>)
    ensures Distinct(FirstOccurrences(s))
  {
    if s != [] {
      FirstOccurrencesDistinct(s[..|s| - 1]);
    }
  }

  /** `totals` holds the histories of `done`, each with the hectares of its features. */
  ghost predicate Totalled(done: seq<Feature>, cols: seq<string>, totals: map<seq<Value>, real>) {
    && (forall h :: h in totals <==> h in Histories(done, cols))
    && (forall h :: h in totals ==> totals[h] == AreaWith(done, cols, h))
  }

  /**
   * The loop filling `dados_agrupados`: `keys` is the dict's key order and
   * `totals` its contents. The keys are the distinct histories, in order of
   * first occurrence, and each is mapped to the hectares of its features.
   */
  method GroupByHistory(fs: seq<Feature>, cols: seq<string>) returns (keys: seq<seq<Value>>, totals: map<seq<Value>, real>)
    ensures keys == FirstOccurrences(Histories(fs, cols))
    ensures forall h :: h in totals <==> h in keys
    ensures forall h :: h in totals ==> totals[h] == AreaWith(fs, cols, h)
  {
    keys := [];
    totals := map[];
    var i := 0;
    while i < |fs|
      invariant 0 <= i <= |fs|
      invariant keys == FirstOccurrences(Histories(fs[..i], cols))
      invariant Totalled(fs[..i], cols, totals)
    {
      keys, totals := AddFeature(fs[..i], fs[i], cols, keys, totals);
      FeaturePrefix(fs, i);
      i := i + 1;
    }
    assert fs[..i] == fs;
    FirstOccurrencesMembers(Histories(fs, cols));
  }

  lemma FeaturePrefix(fs: seq<Feature>, i: nat)
    requires i < |fs|
    ensures fs[..i + 1] == fs[..i] + [fs[i]]
  {
  }

  /**
   * One pass of the grouping loop over the features `done` so far and the
   * next one `f`: a known history has the feature's hectares added, a new
   * one enters the dict with them.
   */
  method AddFeature(ghost done: seq<Feature>, f: Feature, cols: seq<string>,
                    keys: seq<seq<Value>>, totals: map<seq<Value>, real>)
    returns (keys': seq<seq<Value>>, totals': map<seq<Value>, real>)
    requires keys == FirstOccurrences(Histories(done, cols))
    requires Totalled(done, cols, totals)
    ensures keys' == FirstOccurrences(Histories(done + [f], cols))
    ensures Totalled(done + [f], cols, totals')
  {
    var history := History(f, cols);
    var area := Hectares(f);
    assert history in totals <==> history in Histories(done, cols);
    if history in totals {
      keys', totals' := keys, totals[history := totals[history] + area];
    } else {
      keys', totals' := keys + [history], totals[history := area];
    }
    KeysStep(done, f, cols, keys, keys');
    TotalsStep(done, f, cols, totals, totals');
  }

  /** Adding one feature's hectares to its history's total keeps the dictionary the grouping of the features so far. */
  lemma TotalsStep(done: seq<Feature>, f: Feature, cols: seq<string>,
                   before: map<seq<Value>, real>, totals: map<seq<Value>, real>)
    requires Totalled(done, cols, before)
    requires var h := History(f, cols);
      totals == if h in before then before[h := before[h] + Hectares(f)] else before[h := Hectares(f)]
    ensures Totalled(done + [f], cols, totals)
  {
    FeaturesSnoc(done, f, cols);
    MembersStep(Histories(done, cols), before, History(f, cols), Hectares(f), totals);
    AreaStep(done, f, cols, before, totals);
  }

  /** A history enters the dictionary when its feature is added, and no other does. */
  lemma MembersStep(hs: seq<seq<Value>>, before: map<seq<Value>, real>, h: seq<Value>, area: real,
                    totals: map<seq<Value>, real>)
    requires forall x :: x in before <==> x in hs
    requires totals == (if h in before then before[h := before[h] + area] else before[h := area])
    ensures forall x :: x in totals <==> x in hs + [h]
  {
  }

  /** A history not seen before is appended to the keys; a known one leaves them as they are. */
  lemma KeysStep(done: seq<Feature>, f: Feature, cols: seq<string>, keys: seq<seq<Value>>, keys': seq<seq<Value>>)
    requires keys == FirstOccurrences(Histories(done, cols))
    requires keys' == (if History(f, cols) in Histories(done, cols) then keys else keys + [History(f, cols)])
    ensures keys' == FirstOccurrences(Histories(done + [f], cols))
  {
    FirstOccurrencesMembers(Histories(done, cols));
    FeaturesSnoc(done, f, cols);
    FirstOccurrencesSnoc(Histories(done, cols), History(f, cols));
  }

  /** Adding one feature's hectares to its history's total keeps every total equal to its group's area. */
  lemma AreaStep(done: seq<Feature>, f: Feature, cols: seq<string>,
                 before: map<seq<Value>, real>, totals: map<seq<Value>, real>)
    requires forall h :: h in before <==> h in Histories(done, cols)
    requires forall h :: h in before ==> before[h] == AreaWith(done, cols, h)
    requires var h := History(f, cols);
      totals == if h in before then before[h := before[h] + Hectares(f)] else before[h := Hectares(f)]
    ensures forall h :: h in totals ==> totals[h] == AreaWith(done + [f], cols, h)
  {
    var history := History(f, cols);
    FeaturesSnoc(done, f, cols);
    forall h | h in totals ensures totals[h] == AreaWith(done + [f], cols, h) {
      if h != history {
        assert totals[h] == before[h];
      } else if history in before {
        assert totals[h] == before[h] + Hectares(f);
      } else {
        AreaWithAbsent(done, cols, h);
      }
    }
  }

  /** What one more feature adds to the histories, the total and each group's area. */
  lemma FeaturesSnoc(fs: seq<Feature>, f: Feature, cols: seq<string>)
    ensures Histories(fs + [f], cols) == Histories(fs, cols) + [History(f, cols)]
    ensures TotalHectares(fs + [f]) == TotalHectares(fs) + Hectares(f)
    ensures forall h :: AreaWith(fs + [f], cols, h)
              == AreaWith(fs, cols, h) + (if History(f, cols) == h then Hectares(f) else 0.0)
  {
    assert (fs + [f])[..|fs|] == fs;
  }

  /** One more history is a new key exactly when it has not occurred before. */
  lemma FirstOccurrencesSnoc(s: seq<seq<Value>>, x: seq<Value>)
    ensures FirstOccurrences(s + [x]) == FirstOccurrences(s) + (if x in FirstOccurrences(s) then [] else [x])
  {
    assert (s + [x])[..|s|] == s;
  }

  // ---------------------------------------------------------------------------
  // Conservation of area

  /** The hectares of all groups with the keys `keys`. */
  function SumAreas(keys: seq<seq<Value>>, fs: seq<Feature>, cols: seq<string>): real {
    if keys == [] then 0.0
    else SumAreas(keys[..|keys| - 1], fs, cols) + AreaWith(fs, cols, keys[|keys| - 1])
  }

  lemma {:induction false} SumAreasSnoc(keys: seq<seq<Value>>, fs: seq<Feature>, f: Feature, cols: seq<string>)
    requires Distinct(keys)
    ensures SumAreas(keys, fs + [f], cols)
              == SumAreas(keys, fs, cols) + (if History(f, cols) in keys then Hectares(f) else 0.0)
  {
    assert (fs + [f])[..|fs|] == fs;
    if keys != [] {
      var init := keys[..|keys| - 1];
      SumAreasSnoc(init, fs, f, cols);
      assert keys == init + [keys[|keys| - 1]];
      assert History(f, cols) in keys <==> History(f, cols) in init || History(f, cols) == keys[|keys| - 1];
      assert keys[|keys| - 1] !in init;
    }
  }

  lemma {:induction false} AreaWithAbsent(fs: seq<Feature>, cols: seq<string>, h: seq<Value>)
    requires h !in Histories(fs, cols)
    ensures AreaWith(fs, cols, h) == 0.0
  {
    if fs != [] {
      var init := fs[..|fs| - 1];
      assert Histories(fs, cols) == Histories(init, cols) + [History(fs[|fs| - 1], cols)];
      AreaWithAbsent(init, cols, h);
    }
  }

  /** No area is lost or counted twice: the groups' hectares add up to the hectares of all features. */
  lemma {:induction false} AreaConserved(fs: seq<Feature>, cols: seq<string>)
    ensures SumAreas(FirstOccurrences(Histories(fs, cols)), fs, cols) == TotalHectares(fs)
  {
    if fs != [] {
      var init := fs[..|fs| - 1];
      var f := fs[|fs| - 1];
      assert fs == init + [f];
      var h := History(f, cols);
      var d := FirstOccurrences(Histories(init, cols));
      AreaConserved(init, cols);
      FeaturesSnoc(init, f, cols);
      FirstOccurrencesSnoc(Histories(init, cols), h);
      FirstOccurrencesDistinct(Histories(init, cols));
      SumAreasSnoc(d, init, f, cols);
      if h !in d {
        assert (d + [h])[..|d|] == d;
        FirstOccurrencesMembers(Histories(init, cols));
        AreaWithAbsent(init, cols, h);
        assert FirstOccurrences(Histories(fs, cols)) == d + [h];
        assert SumAreas(d + [h], fs, cols) == SumAreas(d, fs, cols) + AreaWith(fs, cols, h);
        assert SumAreas(d, fs, cols) == SumAreas(d, init, cols);
        assert AreaWith(fs, cols, h) == Hectares(f);
      } else {
        assert FirstOccurrences(Histories(fs, cols)) == d;
      }
    }
  }

  // ---------------------------------------------------------------------------
  // The CSV table

  /** The rows written: the header, then one row per key. */
  datatype CsvTable = CsvTable(header: seq<string>, rows: seq<seq<Value>>)

  /** Reference definition of the table: `campos_classe + ['area_ha']`, then each history with its rounded area. */
  function CsvFor(cols: seq<string>, fs: seq<Feature>, round4: real -> real): CsvTable {
    var keys := FirstOccurrences(Histories(fs, cols));
    CsvTable(cols + [AreaColumn],
      seq(|keys|, i requires 0 <= i < |keys| => keys[i] + [RealValue(round4(AreaWith(fs, cols, keys[i])))]))
  }

  /** Every history held by a feature has one entry per class column. */
  lemma {:induction false} HistoriesWidth(fs: seq<Feature>, cols: seq<string>)
    ensures forall h :: h in Histories(fs, cols) ==> |h| == |cols|
  {
    if fs != [] {
      HistoriesWidth(fs[..|fs| - 1], cols);
    }
  }

  /** Row `i` of the table: the `i`-th distinct history, as wide as the header, then its rounded hectares. */
  lemma CsvRow(cols: seq<string>, fs: seq<Feature>, round4: real -> real, i: nat)
    requires i < |FirstOccurrences(Histories(fs, cols))|
    ensures var t := CsvFor(cols, fs, round4);
      var key := FirstOccurrences(Histories(fs, cols))[i];
      && i < |t.rows|
      && |t.rows[i]| == |t.header|
      && t.rows[i][..|cols|] == key
      && t.rows[i][|cols|] == RealValue(round4(AreaWith(fs, cols, key)))
  {
    var keys := FirstOccurrences(Histories(fs, cols));
    HistoriesWidth(fs, cols);
    FirstOccurrencesMembers(Histories(fs, cols));
    assert keys[i] in Histories(fs, cols);
  }

  /**
   * The table has the class columns and `area_ha` as header and one row per
   * distinct history, no two alike; every row is as wide as the header and
   * ends with the (rounded) hectares of its history, and those hectares,
   * before rounding, add up to the area of all features.
   */
  lemma CsvContract(cols: seq<string>, fs: seq<Feature>, round4: real -> real)
    ensures var t := CsvFor(cols, fs, round4);
      && t.header == cols + ["area_ha"]
      && (forall i :: 0 <= i < |t.rows| ==>
            && |t.rows[i]| == |t.header|
            && t.rows[i][..|cols|] in Histories(fs, cols)
            && t.rows[i][|cols|] == RealValue(round4(AreaWith(fs, cols, t.rows[i][..|cols|]))))
      && (forall i, j :: 0 <= i < j < |t.rows| ==> t.rows[i][..|cols|] != t.rows[j][..|cols|])
      && (forall h :: h in Histories(fs, cols) ==> exists i :: 0 <= i < |t.rows| && t.rows[i][..|cols|] == h)
      && SumAreas(FirstOccurrences(Histories(fs, cols)), fs, cols) == TotalHectares(fs)
  {
    var t := CsvFor(cols, fs, round4);
    var keys := FirstOccurrences(Histories(fs, cols));
    forall i | 0 <= i < |t.rows|
      ensures |t.rows[i]| == |t.header|
      ensures t.rows[i][..|cols|] == keys[i]
      ensures t.rows[i][|cols|] == RealValue(round4(AreaWith(fs, cols, keys[i])))
    {
      CsvRow(cols, fs, round4, i);
    }
    FirstOccurrencesMembers(Histories(fs, cols));
    forall h | h in Histories(fs, cols) ensures exists i :: 0 <= i < |t.rows| && t.rows[i][..|cols|] == h {
      var i :| 0 <= i < |keys| && keys[i] == h;
      CsvRow(cols, fs, round4, i);
    }
    FirstOccurrencesDistinct(Histories(fs, cols));
    AreaConserved(fs, cols);
  }

  /** The products of one sector: the shapefile and CSV paths, and the CSV table. */
  datatype ExportReport = ExportReport(shpPath: string, csvPath: string, table: CsvTable)

  /** Reference definition of `exportar_produtos_finais(layer, baseName)`. */
  function ExportFor(layer: MapLayer, baseName: string, round4: real -> real): ExportReport {
    ExportReport(
      PathJoin(BaseFolder, baseName + ".shp"),
      PathJoin(BaseFolder, baseName + ".csv"),
      CsvFor(ClassColumns(layer.fields), layer.features, round4))
  }

  /** `exportar_produtos_finais`: paths, class columns, grouping, and the row loop over the dict's items. */
  method ExportProducts(layer: MapLayer, baseName: string, round4: real -> real) returns (report: ExportReport)
    ensures report == ExportFor(layer, baseName, round4)
  {
    var shpPath := PathJoin(BaseFolder, baseName + ".shp");
    var csvPath := PathJoin(BaseFolder, baseName + ".csv");
    var cols := ClassColumns(layer.fields);
    var keys, totals := GroupByHistory(layer.features, cols);
    var header := cols + [AreaColumn];
    var rows := WriteRows(keys, totals, round4);
    ghost var t := CsvFor(cols, layer.features, round4);
    assert |rows| == |t.rows|;
    assert forall k :: 0 <= k < |rows| ==> rows[k] == t.rows[k];
    return ExportReport(shpPath, csvPath, CsvTable(header, rows));
  }

  /** The row loop: each key followed by its rounded total, in key order. */
  method WriteRows(keys: seq<seq<Value>>, totals: map<seq<Value>, real>, round4: real -> real)
    returns (rows: seq<seq<Value>>)
    requires forall k :: 0 <= k < |keys| ==> keys[k] in totals
    ensures |rows| == |keys|
    ensures forall k :: 0 <= k < |keys| ==> rows[k] == keys[k] + [RealValue(round4(totals[keys[k]]))]
  {
    rows := [];
    var i := 0;
    while i < |keys|
      invariant 0 <= i <= |keys|
      invariant |rows| == i
      invariant forall k :: 0 <= k < i ==> rows[k] == keys[k] + [RealValue(round4(totals[keys[k]]))]
    {
      var history := keys[i];
      rows := rows + [history + [RealValue(round4(totals[history]))]];
      i := i + 1;
    }
  }

  /**
   * With no class column, every feature has the empty history, so the table
   * collapses to the header `area_ha` and at most one row with the total area.
   */
  lemma NoClassColumns(layer: MapLayer, round4: real -> real)
    requires forall i :: 0 <= i < |layer.fields| ==> !StartsWith(layer.fields[i].name, ClassPrefix)
    ensures ClassColumns(layer.fields) == []
    ensures CsvFor([], layer.features, round4)
              == CsvTable([AreaColumn], if layer.features == [] then [] else [[RealValue(round4(TotalHectares(layer.features)))]])
  {
    NoneSelected(layer.fields);
    SingleRow(layer.features, round4);
  }

  lemma NoneSelected(fields: seq<Field>)
    requires forall i :: 0 <= i < |fields| ==> !StartsWith(fields[i].name, ClassPrefix)
    ensures ClassColumns(fields) == []
  {
    WithPrefixNone(FieldNames(fields), ClassPrefix);
    assert |multiset(ClassColumns(fields))| == 0;
  }

  lemma SingleRow(fs: seq<Feature>, round4: real -> real)
    ensures CsvFor([], fs, round4)
              == CsvTable([AreaColumn], if fs == [] then [] else [[RealValue(round4(TotalHectares(fs)))]])
  {
    EmptyHistoryKeys(fs);
    EmptyHistoryArea(fs);
    var t := CsvFor([], fs, round4);
    if fs != [] {
      var keys := FirstOccurrences(Histories(fs, []));
      assert |t.rows| == 1;
      assert t.rows[0] == keys[0] + [RealValue(round4(AreaWith(fs, [], keys[0])))];
      assert t.rows[0] == [RealValue(round4(TotalHectares(fs)))];
    }
  }

  /** With no class column every feature has the empty history, so there is one key, or none without features. */
  lemma {:induction false} EmptyHistoryKeys(fs: seq<Feature>)
    ensures FirstOccurrences(Histories(fs, [])) == if fs == [] then [] else [[]]
  {
    if fs != [] {
      var init := fs[..|fs| - 1];
      var empty: seq<Value> := [];
      EmptyHistoryKeys(init);
      assert History(fs[|fs| - 1], []) == empty;
      assert Histories(fs, []) == Histories(init, []) + [empty];
      FirstOccurrencesSnoc(Histories(init, []), empty);
      assert init != [] ==> empty in FirstOccurrences(Histories(init, []));
    }
  }

  /** With no class column the empty history's hectares are all the hectares. */
  lemma {:induction false} EmptyHistoryArea(fs: seq<Feature>)
    ensures AreaWith(fs, [], []) == TotalHectares(fs)
  {
    if fs != [] {
      var empty: seq<Value> := [];
      EmptyHistoryArea(fs[..|fs| - 1]);
      assert History(fs[|fs| - 1], []) == empty;
    }
  }
}
