/**
 * The YAML documents written beside every dbt model: the model's own
 * `models:` entry, and for a step that reads external data the `sources:`
 * entry it reads from. The description is the step's raw JSON in a fenced
 * block; the JSON text itself is the serializer's business.
 */
module Metadata {
  import opened Outcome
  import opened PyText
  import opened Columns
  import opened FlowGraph
  import opened Dbt

  /** One entry of the `columns` list: the column's name, with its data type as description. */
  function ColumnEntry(c: ModelColumn): Yaml
  {
    YMap([("name", YStr(c.name)), ("description", YStr(c.dataType))])
  }

  /** The `columns` list: one entry per column, in set iteration order, and none unless the columns are computed. */
  function ColumnEntries(env: Env, mc: ModelColumns): (r: seq<Yaml>)
    ensures !mc.IsApplicable() ==> r == []
  {
    if mc.IsApplicable() && |mc.cols| > 0 then
      var order := env.order(mc.cols);
      seq(|order|, i requires 0 <= i < |order| => ColumnEntry(order[i]))
    else []
  }

  /** The loop appending one entry per column. */
  method CollectColumnEntries(env: Env, mc: ModelColumns) returns (r: seq<Yaml>)
    ensures r == ColumnEntries(env, mc)
  {
    r := [];
    if mc.IsApplicable() && |mc.cols| > 0 {
      var order := env.order(mc.cols);
      for i := 0 to |order|
        invariant r == seq(i, k requires 0 <= k < i => ColumnEntry(order[k]))
      {
        r := r + [ColumnEntry(order[i])];
      }
    }
  }

  /** When the iteration visits every column once, the list describes exactly the columns. */
  lemma ColumnEntriesExact(env: Env, mc: ModelColumns)
    requires mc.IsApplicable() ==> Enumerates(env.order(mc.cols), mc.cols)
    ensures |ColumnEntries(env, mc)| == |mc.Value()|
    ensures forall c :: c in mc.Value() ==> ColumnEntry(c) in ColumnEntries(env, mc)
    ensures forall e :: e in ColumnEntries(env, mc) ==> exists c :: c in mc.Value() && e == ColumnEntry(c)
  {
    if mc.IsApplicable() {
      var order := env.order(mc.cols);
      var r := ColumnEntries(env, mc);
      forall c | c in mc.Value() ensures ColumnEntry(c) in r {
        var k :| 0 <= k < |order| && order[k] == c;
        assert r[k] == ColumnEntry(c);
      }
      forall e | e in r ensures exists c :: c in mc.Value() && e == ColumnEntry(c) {
        var k :| 0 <= k < |r| && r[k] == e;
        assert order[k] in mc.cols;
      }
    }
  }

  /** The `tags` option as a list: none for the empty option, else its comma-separated pieces. */
  function Tags(option: string): (r: seq<string>)
    ensures r == [] <==> option == ""
  {
    if option == "" then [] else Split(option, ',')
  }

  /** The tag list gives the option back when joined, and no tag holds a comma. */
  lemma TagsRoundTrip(option: string)
    ensures Join(Tags(option), ',') == option
    ensures forall k, j :: 0 <= k < |Tags(option)| && 0 <= j < |Tags(option)[k]| ==> Tags(option)[k][j] != ','
  {
    if option != "" {
      JoinSplit(option, ',');
      SplitPiecesFree(option, ',');
    }
  }

  /** The YAML list of the tags. */
  function TagItems(option: string): seq<Yaml>
  {
    var tags := Tags(option);
    seq(|tags|, i requires 0 <= i < |tags| => YStr(tags[i]))
  }

  /** The description: the step's JSON between two fence lines. */
  function Description(env: Env, node: Node, ensureAscii: bool): (r: string)
    ensures LineSep in r
  {
    var text := "```" + [LineSep] + env.dumpJson(node.raw, ensureAscii) + [LineSep] + "```";
    assert text[3] == LineSep;
    text
  }

  /** The node colour in the docs: the default for computed columns, red otherwise. */
  function NodeColor(mc: ModelColumns): string
  {
    if mc.IsApplicable() then "" else "red"
  }

  /** The value of the first entry with `key` in a mapping; an empty mapping when there is none. */
  function Get(y: Yaml, key: string): Yaml
  {
    if y.YMap? then FirstWith(y.entries, key) else YMap([])
  }

  function FirstWith(entries: seq<(string, Yaml)>, key: string): Yaml
    decreases |entries|
  {
    if entries == [] then YMap([])
    else if entries[0].0 == key then entries[0].1
    else FirstWith(entries[1..], key)
  }

  /** The entry at `i` is the first with its key. */
  lemma {:induction false} FirstWithAt(entries: seq<(string, Yaml)>, key: string, i: nat)
    requires i < |entries| && entries[i].0 == key
    requires forall j :: 0 <= j < i ==> entries[j].0 != key
    ensures FirstWith(entries, key) == entries[i].1
    decreases i
  {
    if i > 0 {
      FirstWithAt(entries[1..], key, i - 1);
    }
  }

  /** The first item of a list; an empty mapping when there is none. */
  function Head(y: Yaml): Yaml
  {
    if y.YList? && |y.items| > 0 then y.items[0] else YMap([])
  }

  /** The items of a list; none for anything else. */
  function Items(y: Yaml): seq<Yaml>
  {
    if y.YList? then y.items else []
  }

  /** The dictionary `generate_model_yml` builds, before normalisation. */
  function ModelDocument(env: Env, node: Node): Yaml
  {
    YMap([("version", YInt(2)), ("models", YList([ModelEntry(env, node)]))])
  }

  /** Its one entry of `models`. */
  function ModelEntry(env: Env, node: Node): Yaml
  {
    YMap([
      ("name", YStr(node.modelName.Value())),
      ("description", YStr(Description(env, node, false))),
      ("columns", YList(ColumnEntries(env, node.modelColumns))),
      ("config", YMap([("tags", YList(TagItems(env.tags)))])),
      ("docs", YMap([("node_color", YStr(NodeColor(node.modelColumns)))]))])
  }

  /** The dictionary `generate_source_yml` builds, before normalisation. */
  function SourceDocument(env: Env, node: Node): Yaml
  {
    YMap([("version", YInt(2)), ("sources", YList([YMap([("name", YStr(env.sourceName)), ("tables", YList([SourceTable(env, node)]))])]))])
  }

  /** Its one table. */
  function SourceTable(env: Env, node: Node): Yaml
  {
    YMap([
      ("name", YStr("source__" + node.modelName.Value())),
      ("description", YStr(Description(env, node, true))),
      ("columns", YList(ColumnEntries(env, node.modelColumns))),
      ("config", YMap([("tags", YList(TagItems(env.tags)))]))])
  }

  /** `generate_model_yml` for the node with id `id`; a key error when it has no data. */
  function ModelYml(env: Env, g: Graph, id: string): (r: Result<Yml>)
    ensures r.Ok? <==> id in g.data
    ensures r.Err? ==> r.IsFatal()
  {
    var node :- NodeById(g, id);
    Ok(NewYml(env, ModelDocument(env, node)))
  }

  /** `generate_source_yml` for the node with id `id`; a key error when it has no data. */
  function SourceYml(env: Env, g: Graph, id: string): (r: Result<Yml>)
    ensures r.Ok? <==> id in g.data
    ensures r.Err? ==> r.IsFatal()
  {
    var node :- NodeById(g, id);
    Ok(NewYml(env, SourceDocument(env, node)))
  }

  /** `generate_model_yml`, with its loop over the columns. */
  method GenerateModelYml(env: Env, g: Graph, id: string) returns (r: Result<Yml>)
    ensures r == ModelYml(env, g, id)
  {
    var node :- NodeById(g, id);
    var columns := CollectColumnEntries(env, node.modelColumns);
    var entry := YMap([
      ("name", YStr(node.modelName.Value())),
      ("description", YStr(Description(env, node, false))),
      ("columns", YList(columns)),
      ("config", YMap([("tags", YList(TagItems(env.tags)))])),
      ("docs", YMap([("node_color", YStr(NodeColor(node.modelColumns)))]))]);
    r := Ok(NewYml(env, YMap([("version", YInt(2)), ("models", YList([entry]))])));
  }

  /** `generate_source_yml`, with its loop over the columns. */
  method GenerateSourceYml(env: Env, g: Graph, id: string) returns (r: Result<Yml>)
    ensures r == SourceYml(env, g, id)
  {
    var node :- NodeById(g, id);
    var columns := CollectColumnEntries(env, node.modelColumns);
    var table := YMap([
      ("name", YStr("source__" + node.modelName.Value())),
      ("description", YStr(Description(env, node, true))),
      ("columns", YList(columns)),
      ("config", YMap([("tags", YList(TagItems(env.tags)))]))]);
    r := Ok(NewYml(env, YMap([("version", YInt(2)), ("sources", YList([YMap([("name", YStr(env.sourceName)), ("tables", YList([table]))])]))])));
  }

  /** Looking a key up commutes with normalising. */
  lemma GetNormalised(env: Env, y: Yaml, key: string)
    ensures Get(Normalise(env, y), key) == Normalise(env, Get(y, key))
  {
    if y.YMap? {
      FirstWithNormalised(env, y.entries, key);
    }
  }

  lemma {:induction false} FirstWithNormalised(env: Env, entries: seq<(string, Yaml)>, key: string)
    ensures FirstWith(Normalise(env, YMap(entries)).entries, key) == Normalise(env, FirstWith(entries, key))
    decreases |entries|
  {
    if entries != [] && entries[0].0 != key {
      FirstWithNormalised(env, entries[1..], key);
      assert Normalise(env, YMap(entries)).entries[1..] == Normalise(env, YMap(entries[1..])).entries;
    }
  }

  /** Taking the first item commutes with normalising. */
  lemma HeadNormalised(env: Env, y: Yaml)
    ensures Head(Normalise(env, y)) == Normalise(env, Head(y))
    ensures |Items(Normalise(env, y))| == |Items(y)|
  {
  }

  /** A string without a line break is written as it is. */
  lemma PlainLeaf(env: Env, text: string)
    requires LineSep !in text
    ensures Normalise(env, YStr(text)) == YStr(text)
  {
  }

  lemma ModelEntryFields(env: Env, node: Node)
    ensures var m := ModelEntry(env, node);
      && Get(m, "name") == YStr(node.modelName.Value())
      && Get(m, "description") == YStr(Description(env, node, false))
      && Get(m, "columns") == YList(ColumnEntries(env, node.modelColumns))
      && Get(m, "config") == YMap([("tags", YList(TagItems(env.tags)))])
      && Get(m, "docs") == YMap([("node_color", YStr(NodeColor(node.modelColumns)))])
  {
    var m := ModelEntry(env, node);
    FirstWithAt(m.entries, "description", 1);
    FirstWithAt(m.entries, "columns", 2);
    FirstWithAt(m.entries, "config", 3);
    FirstWithAt(m.entries, "docs", 4);
  }

  /**
   * The written model document: version 2, one model named after the node,
   * its description as a literal block, one column entry per column, one
   * item per tag, and a red node exactly when the columns are not computed.
   */
  lemma ModelYmlContents(env: Env, node: Node)
    ensures var doc := NewYml(env, ModelDocument(env, node)).raw;
      var model := Head(Get(doc, "models"));
      && Get(doc, "version") == YInt(2)
      && |Items(Get(doc, "models"))| == 1
      && Get(model, "name") == ToLiteral(env, YStr(node.modelName.Value()))
      && Get(model, "description") == YLiteral(env.dedent(Description(env, node, false)))
      && |Items(Get(model, "columns"))| == |ColumnEntries(env, node.modelColumns)|
      && |Items(Get(Get(model, "config"), "tags"))| == |Tags(env.tags)|
      && Get(Get(model, "docs"), "node_color") == YStr(if node.modelColumns.IsApplicable() then "" else "red")
  {
    var raw := ModelDocument(env, node);
    GetNormalised(env, raw, "version");
    GetNormalised(env, raw, "models");
    FirstWithAt(raw.entries, "models", 1);
    HeadNormalised(env, YList([ModelEntry(env, node)]));
    var m := ModelEntry(env, node);
    ModelEntryFields(env, node);
    GetNormalised(env, m, "name");
    GetNormalised(env, m, "description");
    GetNormalised(env, m, "columns");
    HeadNormalised(env, Get(m, "columns"));
    GetNormalised(env, m, "config");
    GetNormalised(env, Get(m, "config"), "tags");
    HeadNormalised(env, Get(Get(m, "config"), "tags"));
    GetNormalised(env, m, "docs");
    GetNormalised(env, Get(m, "docs"), "node_color");
    PlainLeaf(env, NodeColor(node.modelColumns));
  }

  lemma SourceTableFields(env: Env, node: Node)
    ensures var t := SourceTable(env, node);
      && Get(t, "name") == YStr("source__" + node.modelName.Value())
      && Get(t, "description") == YStr(Description(env, node, true))
      && Get(t, "columns") == YList(ColumnEntries(env, node.modelColumns))
  {
    var t := SourceTable(env, node);
    FirstWithAt(t.entries, "description", 1);
    FirstWithAt(t.entries, "columns", 2);
  }

  /** The written source document: the configured source, holding one table `source__<model name>`. */
  lemma SourceYmlContents(env: Env, node: Node)
    ensures var doc := NewYml(env, SourceDocument(env, node)).raw;
      var source := Head(Get(doc, "sources"));
      var table := Head(Get(source, "tables"));
      && Get(doc, "version") == YInt(2)
      && |Items(Get(doc, "sources"))| == 1 && |Items(Get(source, "tables"))| == 1
      && Get(source, "name") == ToLiteral(env, YStr(env.sourceName))
      && Get(table, "name") == ToLiteral(env, YStr("source__" + node.modelName.Value()))
      && Get(table, "description") == YLiteral(env.dedent(Description(env, node, true)))
      && |Items(Get(table, "columns"))| == |ColumnEntries(env, node.modelColumns)|
  {
    var raw := SourceDocument(env, node);
    GetNormalised(env, raw, "version");
    GetNormalised(env, raw, "sources");
    FirstWithAt(raw.entries, "sources", 1);
    var sources := Get(raw, "sources");
    HeadNormalised(env, sources);
    var source := Head(sources);
    GetNormalised(env, source, "name");
    GetNormalised(env, source, "tables");
    FirstWithAt(source.entries, "tables", 1);
    var tables := Get(source, "tables");
    HeadNormalised(env, tables);
    var t := SourceTable(env, node);
    SourceTableFields(env, node);
    GetNormalised(env, t, "name");
    GetNormalised(env, t, "description");
    GetNormalised(env, t, "columns");
    HeadNormalised(env, Get(t, "columns"));
  }
}
