/**
 * Names the wildfire values script gives to what it writes: the intermediate
 * outputs of `erase_by_label` and the filtered layers of `create_kmls`.
 */
module Exports {
  import opened Wrappers
  import opened Strings

  /** How an f-string renders a field: a null field reads "None". */
  function FieldText(f: Field): string {
    match f
    case None => "None"
    case Some(s) => s
  }

  /** Equal strings with a common prefix have equal remainders. */
  lemma PrefixCancel(p: string, a: string, b: string)
    requires p + a == p + b
    ensures a == b
  {
    assert a == (p + a)[|p|..];
    assert b == (p + b)[|p|..];
  }

  /** Equal strings with a common suffix have equal beginnings. */
  lemma SuffixCancel(a: string, b: string, s: string)
    requires a + s == b + s
    ensures a == b
  {
    assert a == (a + s)[..|a|];
    assert b == (b + s)[..|b|];
  }

  /** One selection of `erase_by_label`: the label, its where-clause and the intermediate output it erases into. */
  datatype EraseStep = EraseStep(labelValue: Field, query: string, output: string)

  /** The intermediate output name of the `counter`-th label. */
  function EraseOutput(counter: nat): (name: string)
    ensures |name| > 6 && name[..6] == "erase_"
    ensures AllDigits(name[6..])
  {
    "erase_" + NatToString(counter)
  }

  /** Intermediate outputs of different iterations never share a name. */
  lemma EraseOutputInjective(a: nat, b: nat)
    requires a != b
    ensures EraseOutput(a) != EraseOutput(b)
  {
    NatToStringInjective(a, b);
    if EraseOutput(a) == EraseOutput(b) {
      PrefixCancel("erase_", NatToString(a), NatToString(b));
    }
  }

  /** The labels of a sequence of steps, in order. */
  function LabelsOf(steps: seq<EraseStep>): (labels: seq<Field>)
    ensures |labels| == |steps|
    ensures forall k :: 0 <= k < |steps| ==> labels[k] == steps[k].labelValue
  {
    seq(|steps|, k requires 0 <= k < |steps| => steps[k].labelValue)
  }

  /**
   * The loop of `erase_by_label` over the unique labels of the first
   * feature class, in set order: one step per distinct label, selecting
   * `Value = '<label>'` and erasing into `erase_<counter>`; no two steps
   * share a label or an output name.
   */
  method EraseByLabel(values: seq<Field>) returns (steps: seq<EraseStep>)
    ensures forall v :: v in LabelsOf(steps) <==> v in values
    ensures forall a, b :: 0 <= a < b < |steps| ==> steps[a].labelValue != steps[b].labelValue
    ensures forall k :: 0 <= k < |steps| ==>
              steps[k].query == "Value = '" + FieldText(steps[k].labelValue) + "'"
    ensures forall a, b :: 0 <= a < b < |steps| ==> steps[a].output != steps[b].output
    ensures forall k :: 0 <= k < |steps| ==> steps[k].output == EraseOutput(k)
  {
    var uniqueLabels := set v | v in values;
    var remaining := uniqueLabels;
    steps := [];
    var counter := 0;
    while remaining != {}
      invariant remaining <= uniqueLabels
      invariant counter == |steps|
      invariant forall v :: v in LabelsOf(steps) <==> v in uniqueLabels && v !in remaining
      invariant forall a, b :: 0 <= a < b < |steps| ==> steps[a].labelValue != steps[b].labelValue
      invariant forall k :: 0 <= k < |steps| ==>
                  steps[k].query == "Value = '" + FieldText(steps[k].labelValue) + "'"
      invariant forall k :: 0 <= k < |steps| ==> steps[k].output == EraseOutput(k)
      invariant forall a, b :: 0 <= a < b < |steps| ==> steps[a].output != steps[b].output
      decreases remaining
    {
      var labelValue :| labelValue in remaining;
      var query := "Value = '" + FieldText(labelValue) + "'";
      var tempOutput := EraseOutput(counter);
      forall k | 0 <= k < |steps| ensures steps[k].output != tempOutput {
        EraseOutputInjective(k, counter);
      }
      forall k | 0 <= k < |steps| ensures steps[k].labelValue != labelValue {
        assert LabelsOf(steps)[k] == steps[k].labelValue;
      }
      assert LabelsOf(steps + [EraseStep(labelValue, query, tempOutput)]) == LabelsOf(steps) + [labelValue];
      steps := steps + [EraseStep(labelValue, query, tempOutput)];
      counter := counter + 1;
      remaining := remaining - {labelValue};
    }
  }

  /** The risk levels `create_kmls` exports, in its order. */
  const KmlRiskList: seq<string> := ["High Risk", "Medium Risk", "Low Risk"]

  /** One exported layer: its name, its where-clause and the KMZ file it is written to. */
  datatype KmlLayer = KmlLayer(name: string, whereClause: string, kmzPath: string)

  /** The layer of risk field `field` at level `risk`, named with the date suffix `date`. */
  function LayerFor(field: string, risk: string, date: string, directory: string): (layer: KmlLayer)
    ensures |layer.name| > |field| && layer.name[..|field| + 1] == field + "_"
    ensures layer.kmzPath == directory + "\\" + layer.name + ".kmz"
    ensures layer.whereClause == field + " = '" + risk + "'"
  {
    var name := field + "_" + RemoveChar(risk, ' ') + "_" + date;
    KmlLayer(name, field + " = '" + risk + "'", directory + "\\" + name + ".kmz")
  }

  /** The three layers of one risk field, High, Medium, Low. */
  function FieldLayers(field: string, date: string, directory: string): (layers: seq<KmlLayer>)
    ensures |layers| == |KmlRiskList|
  {
    seq(|KmlRiskList|, j requires 0 <= j < |KmlRiskList| => LayerFor(field, KmlRiskList[j], date, directory))
  }

  /** The exported layers, direction-major: the three layers of each field in turn. */
  function KmlLayers(fields: seq<string>, date: string, directory: string): seq<KmlLayer>
    decreases |fields|
  {
    if fields == [] then []
    else KmlLayers(fields[..|fields| - 1], date, directory) + FieldLayers(fields[|fields| - 1], date, directory)
  }

  /** There are three layers per field. */
  lemma {:induction false} KmlLayersLength(fields: seq<string>, date: string, directory: string)
    ensures |KmlLayers(fields, date, directory)| == 3 * |fields|
    decreases |fields|
  {
    if fields != [] {
      KmlLayersLength(fields[..|fields| - 1], date, directory);
    }
  }

  /** Layer `3 * i + j` is the layer of field `i` at level `j`. */
  lemma {:induction false} KmlLayerAt(fields: seq<string>, date: string, directory: string, i: int, j: int)
    requires 0 <= i < |fields| && 0 <= j < 3
    ensures 3 * i + j < |KmlLayers(fields, date, directory)|
    ensures KmlLayers(fields, date, directory)[3 * i + j] == FieldLayers(fields[i], date, directory)[j]
    decreases |fields|
  {
    var init := fields[..|fields| - 1];
    KmlLayersLength(init, date, directory);
    var front, last := KmlLayers(init, date, directory), FieldLayers(fields[|fields| - 1], date, directory);
    assert KmlLayers(fields, date, directory) == front + last;
    if i < |init| {
      KmlLayerAt(init, date, directory, i, j);
      assert init[i] == fields[i];
    } else {
      assert (front + last)[3 * i + j] == last[j];
    }
  }

  /**
   * There are three layers per field, and layer `3 * i + j` is field `i`
   * at level `j` of High, Medium, Low.
   */
  lemma KmlLayersAt(fields: seq<string>, date: string, directory: string)
    ensures |KmlLayers(fields, date, directory)| == 3 * |fields|
    ensures forall i, j :: 0 <= i < |fields| && 0 <= j < 3 ==>
              KmlLayers(fields, date, directory)[3 * i + j] == LayerFor(fields[i], KmlRiskList[j], date, directory)
  {
    KmlLayersLength(fields, date, directory);
    forall i, j | 0 <= i < |fields| && 0 <= j < 3
      ensures KmlLayers(fields, date, directory)[3 * i + j] == LayerFor(fields[i], KmlRiskList[j], date, directory)
    {
      KmlLayerAt(fields, date, directory, i, j);
    }
  }

  /**
   * The inner loop of `create_kmls` for one field: for each level High,
   * Medium, Low, the where-clause `<field> = '<risk>'` and the layer
   * `<field>_<risk without spaces>_<date>`.
   */
  method FieldKmls(field: string, date: string, directory: string) returns (layers: seq<KmlLayer>)
    ensures layers == FieldLayers(field, date, directory)
  {
    layers := [];
    var j := 0;
    while j < |KmlRiskList|
      invariant 0 <= j <= |KmlRiskList|
      invariant layers == FieldLayers(field, date, directory)[..j]
    {
      var risk := KmlRiskList[j];
      var whereClause := field + " = '" + risk + "'";
      var riskString := RemoveChar(risk, ' ');
      var outputLayer := field + "_" + riskString + "_" + date;
      var layer := KmlLayer(outputLayer, whereClause, directory + "\\" + outputLayer + ".kmz");
      assert layer == LayerFor(field, risk, date, directory);
      layers := layers + [layer];
      j := j + 1;
    }
  }

  /**
   * The loops of `create_kmls(input_fc, fields, output_kmz_directory)`: the
   * three layers of each field in turn.
   */
  method CreateKmls(fields: seq<string>, date: string, directory: string) returns (layers: seq<KmlLayer>)
    ensures layers == KmlLayers(fields, date, directory)
    ensures |layers| == 3 * |fields|
    ensures forall i, j :: 0 <= i < |fields| && 0 <= j < 3 ==> layers[3 * i + j] == LayerFor(fields[i], KmlRiskList[j], date, directory)
  {
    layers := [];
    var i := 0;
    while i < |fields|
      invariant 0 <= i <= |fields|
      invariant layers == KmlLayers(fields[..i], date, directory)
    {
      var fieldLayers := FieldKmls(fields[i], date, directory);
      layers := layers + fieldLayers;
      assert fields[..i + 1][..i] == fields[..i];
      i := i + 1;
    }
    assert fields[..i] == fields;
    KmlLayersAt(fields, date, directory);
  }

  /** The risk infix of a layer name at level `j`: the level's text without its space. */
  lemma KmlRiskInfix(j: int)
    requires 0 <= j < |KmlRiskList|
    ensures RemoveChar(KmlRiskList[j], ' ') == ["HighRisk", "MediumRisk", "LowRisk"][j]
  {
    var word := ["High", "Medium", "Low"][j];
    assert ' ' !in word;
    assert KmlRiskList[j] == word + " Risk";
    RemoveWord(word);
  }

  /** A risk text `"<word> Risk"` whose word has no space loses exactly its one space in a layer name. */
  lemma RemoveWord(word: string)
    requires ' ' !in word
    ensures RemoveChar(word + " Risk", ' ') == word + "Risk"
  {
    assert word + " Risk" == word + (" " + "Risk");
    RemoveCharAppend(word, " " + "Risk", ' ');
    RemoveCharAppend(" ", "Risk", ' ');
    RemoveCharAbsent(word, ' ');
    RemoveCharAbsent("Risk", ' ');
    assert RemoveChar(" ", ' ') == [];
  }

  /** Layers of different fields at the same level never share a name. */
  lemma LayerNamesDifferByField(f1: string, f2: string, risk: string, date: string, directory: string)
    requires f1 != f2
    ensures LayerFor(f1, risk, date, directory).name != LayerFor(f2, risk, date, directory).name
  {
    var infix := "_" + RemoveChar(risk, ' ') + "_";
    assert LayerFor(f1, risk, date, directory).name == f1 + (infix + date);
    assert LayerFor(f2, risk, date, directory).name == f2 + (infix + date);
    if f1 + (infix + date) == f2 + (infix + date) {
      SuffixCancel(f1, f2, infix + date);
    }
  }
}
