/** `dump` (main.py:50-59): the data file `_data/wotc.json`. Every name of the
    class diagram that resolves to a subclass of `X2DataTemplate` contributes
    its instances under its case-folded name; the encoder then makes every
    string in them HTML-safe. */
module Dump {
  import opened Text
  import opened Values
  import opened Encoder

  /** What the store knows about one class name: whether it is a template class
      and its instances. A name the store cannot resolve falls back to `Object`,
      which is not a template class. */
  datatype ClassInfo = ClassInfo(isTemplate: bool, instances: seq<Entry>)

  predicate IsTemplate(classes: map<string, ClassInfo>, name: string) {
    name in classes && classes[name].isTemplate
  }

  /** The `data` dictionary after the loop has seen `diagram`: later names
      overwrite earlier ones that fold to the same key. */
  function Selected(diagram: seq<string>, classes: map<string, ClassInfo>): map<string, seq<Entry>>
    decreases |diagram|
  {
    if diagram == [] then map[]
    else
      var data := Selected(diagram[..|diagram| - 1], classes);
      var name := diagram[|diagram| - 1];
      if IsTemplate(classes, name) then data[Lower(name) := classes[name].instances] else data
  }

  /** The loop of `dump` over the class diagram. */
  method SelectTemplates(diagram: seq<string>, classes: map<string, ClassInfo>)
    returns (data: map<string, seq<Entry>>)
    ensures data == Selected(diagram, classes)
  {
    data := map[];
    for i := 0 to |diagram|
      invariant data == Selected(diagram[..i], classes)
    {
      assert diagram[..i + 1][..i] == diagram[..i];
      var name := diagram[i];
      if name in classes && classes[name].isTemplate {
        data := data[Lower(name) := classes[name].instances];
      }
    }
    assert diagram[..|diagram|] == diagram;
  }

  /** A key is in the data exactly when some template class of the diagram
      folds to it. */
  lemma {:induction false} SelectedKeys(diagram: seq<string>, classes: map<string, ClassInfo>, key: string)
    ensures key in Selected(diagram, classes) <==>
      exists i :: 0 <= i < |diagram| && IsTemplate(classes, diagram[i]) && Lower(diagram[i]) == key
    decreases |diagram|
  {
    if diagram != [] {
      var init := diagram[..|diagram| - 1];
      SelectedKeys(init, classes, key);
      assert forall i :: 0 <= i < |init| ==> init[i] == diagram[i];
    }
  }

  /** When several template classes fold to the same key, the instances of the
      last of them in the diagram are kept. */
  lemma {:induction false} SelectedLastWins(diagram: seq<string>, classes: map<string, ClassInfo>, i: nat)
    requires i < |diagram| && IsTemplate(classes, diagram[i])
    requires forall j :: i < j < |diagram| ==> !(IsTemplate(classes, diagram[j]) && Lower(diagram[j]) == Lower(diagram[i]))
    ensures Lower(diagram[i]) in Selected(diagram, classes)
    ensures Selected(diagram, classes)[Lower(diagram[i])] == classes[diagram[i]].instances
    decreases |diagram|
  {
    if i < |diagram| - 1 {
      var init := diagram[..|diagram| - 1];
      assert init[i] == diagram[i];
      assert forall j :: i < j < |init| ==> init[j] == diagram[j];
      SelectedLastWins(init, classes, i);
    }
  }

  /** The instances of one class as the encoder writes them: each keeps its
      name and field names, and every value is transformed. */
  function EncodeInstances(instances: seq<Entry>): (r: seq<Entry>)
    ensures |r| == |instances|
    ensures forall i :: 0 <= i < |instances| ==>
      r[i].dataname == instances[i].dataname && r[i].fields == TransformFields(instances[i].fields)
  {
    if instances == [] then []
    else [Entry(instances[0].dataname, TransformFields(instances[0].fields))] + EncodeInstances(instances[1..])
  }

  /** Every string in an encoded instance is HTML-safe. */
  predicate EntrySafe(e: Entry) {
    forall k :: 0 <= k < |e.fields| ==> Safe(e.fields[k].value)
  }

  /** The JSON document: the same keys, each holding its class's instances in
      order, with their names and with every field transformed. */
  function Document(data: map<string, seq<Entry>>): (doc: map<string, seq<Entry>>)
    ensures doc.Keys == data.Keys
    ensures forall key :: key in doc ==> |doc[key]| == |data[key]|
    ensures forall key :: key in doc ==> forall i :: 0 <= i < |doc[key]| ==>
      doc[key][i].dataname == data[key][i].dataname
      && doc[key][i].fields == TransformFields(data[key][i].fields)
      && EntrySafe(doc[key][i])
  {
    map key | key in data :: EncodeInstances(data[key])
  }
}
