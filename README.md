# prep2dbt translation engine, modelled in Dafny

prep2dbt turns a Tableau Prep flow into a dbt project. The flow file is
JSON: a map of steps ("nodes"), each with a `nodeType`, a display `name`,
the ids of the steps it feeds (`nextNodes`) and step-specific settings,
among them lists of column-level "annotations" applied before or after the
step's own action. The translator runs in four passes over a directed
acyclic graph of steps:

1. **convert_to_graph**: every step is looked up in a converter registry by
   its versioned type tag. Its converter contributes a one-node graph with
   edges to its next steps, and the graphs are composed.
2. **build_model_name**: every node gets a dbt model name, the display name
   without spaces and `/`, numbered within equal raw names, with an optional
   prefix. A flow without steps fails here, since pandas finds no `name`
   column to group by.
3. **calculate_columns**: generation by generation, from the roots down,
   every node whose column definition is not yet computed asks its
   converter for it. A converter derives the node's columns from its
   parents' columns, keyed by the namespace (`Default`, `Left`, `Right`, …)
   under which each parent feeds it. A step's columns read only the step,
   its parents and their data (`Steps.StepColumnsLocal`), and no node of a
   generation feeds another, so every node ends with the columns its
   converter computes from its parents' final columns
   (`CoreServices.UpdateGenerationsEffect`).
4. **generate_dbt_models**: every node's converter produces its dbt
   records: a model with SQL (a chain of CTEs ending in `final`, with parent
   tables turned into `{{ ref(...) }}` or `{{ source(...) }}` tags) and a
   schema yml; a loader step also produces a `source__<model>` source
   record.

A converter that does not recognise a step (its `validate` fails, or it
raises the recoverable "unknown node" exception on the way) falls back to
the unknown-node translation. The node's columns become unknown, and its SQL
selects everything from its parents. Any other error (a missing key, a cycle)
stops the run.

The model follows that structure module by module:

| module | file | models |
|---|---|---|
| `Outcome` | outcome.dfy | results: the recoverable "unknown node" failure versus fatal errors |
| `Flow` | flow.dfy | the flow file's steps and annotations as typed records, with `Option` for optional keys |
| `PyText` | pytext.dfy | the Python string operations the core relies on (`split`, `strip`, `replace`, `endswith`, `str(int)`) |
| `SqlAst` | sqlast.dfy | the SQL the converters build, as a tree; the jinja-tag rewriting of table names |
| `Columns` | columns.dfy | `ModelColumn`, `ModelColumns`, `ModelName`, `Node` (prep2dbt/models/node.py) |
| `FlowGraph` | graph.dfy | the `DAG` class and its queries (prep2dbt/models/graph.py) |
| `Registry` | registry.dfy | the step and annotation converter factories |
| `Annotations` | annotations.dfy | the ten annotation converters and their fallback mixin |
| `NodeMixins` | mixins.dfy | the unknown-node and annotation mixins of the step converters |
| `Steps` | converters.dfy | the step converters: loaders, container, hyper output, join, aggregate, transform |
| `CoreServices` | core_services.dfy | `convert_to_graph`, `build_model_name`, `calculate_columns` |
| `Dbt` | dbt.dfy | `Sql`, `Yml`, `DbtModel`, `DbtModels` |
| `Metadata` | ymlgen.dfy | the yml mixin: model and source schema documents |
| `DbtServices` | dbt_services.dfy | `generate_dbt_models` and the result tally of `print_results` |

Pure code is modelled by functions. Each loop in the source is a method
proved equal to the function that specifies it, and the properties are
lemmas about those functions. The `DAG`, whose methods update it in place,
is a class (`FlowGraph.Dag`). Its methods are specified by the value-level
graph operations (`WithNode`, `WithEdge`, `Compose`, …). Everything foreign
to the core is a parameter gathered in `Dbt.Env`:

- SQLAlchemy's compilation of a statement to text, the rendering of a CAST
  and of an aggregate call;
- `json.dumps` and `textwrap.dedent`;
- the order in which a Python set of columns is iterated;
- `uuid4`;
- the command-line options (prefix, tags, source name).

Where the code and its docstrings differ, the model follows the code:

- The `notInner` join filter ANDs "left IS NULL" and "right IS NULL" over
  every condition, where its docstring says OR (`Steps.JoinVariants`,
  `Steps.NullFiltersShape`).
- The join's guard `not Left in stmts or not Right in stmts and not Left in
  cols or not Right in cols` is modelled as written. `Steps.JoinSqlCases`
  proves that, over the prepared maps, it means "both sides present".
- Keep-only-columns re-adds listed but absent names only in the statement
  it generates, not in the node's columns (`Annotations.KeepOnlyContents`).
- Table names are replaced one after another over the already rewritten
  text, as `str.replace` in a loop does (`SqlAst.Retagged`).

## Model

| member | source | states |
|---|---|---|
| Outcome.Required | prep2dbt/converters/superjoin/converter.py:364-366 | a key read without a guard yields the value exactly when the key is present; otherwise it is the fatal KeyError naming the key |
| Outcome.Recover | prep2dbt/converters/mixins/unknown_node_mixin.py:78-85 | a success passes through; only the recoverable unknown-node failure turns into the fallback value; every other failure survives and stays fatal |
| Outcome.MissingKey | prep2dbt/converters/superjoin/converter.py:364-366 | a missing key is a fatal error |
| Columns.Initialized | prep2dbt/models/node.py:52-55 | the initial state is not applicable, has no columns, and is distinct from unknown |
| Columns.Calculated | prep2dbt/models/node.py:57-63 | applicable exactly when the set is non-empty, unknown otherwise; the columns are the given set |
| Columns.Names | prep2dbt/models/node.py:107-115 | no names unless applicable; every column's name is listed |
| Columns.NamesExact | prep2dbt/models/node.py:107-115 | a name is listed exactly when some column carries it, so nothing else is listed |
| Columns.Add | prep2dbt/models/node.py:75-92 | on an applicable set: the new column is in, it is the only one with its name, every column of another name stays, nothing else comes in, names gain the new name; any other state is returned unchanged |
| Columns.RemoveColumnByName | prep2dbt/models/node.py:129-145 | unchanged when not applicable or the name is absent; otherwise exactly the columns of other names remain, and an emptied set becomes unknown |
| Columns.GetColumnByName | prep2dbt/models/node.py:117-127 | found exactly when the name is present, and the column found is in the set under that name; otherwise a fatal error |
| Columns.Flushed | prep2dbt/models/node.py:157-164 | same names; every (name, type) kept with an empty value, nothing else; applicable exactly when there were columns, unknown otherwise |
| Columns.FlushValues | prep2dbt/models/node.py:157-164 | the loop over the columns computes exactly `Flushed` |
| Columns.Merge | prep2dbt/models/node.py:94-105 | a receiver that is not applicable is returned; an applicable one stays applicable, and when the other set's names are unique the loop of adds yields `Merged` |
| Columns.MergedProperties | prep2dbt/models/node.py:94-105 | the merge has both sides' names, all of the other side's columns, every receiver column whose name the other side lacks, and nothing else |
| Columns.AddReplacesOne | prep2dbt/models/node.py:83-88 | with unique names, adding a column whose name exists swaps exactly that one column |
| Columns.RemoveRemovesOne | prep2dbt/models/node.py:135-143 | with unique names, removing a present name takes out exactly that column, and the rest is recalculated |
| Columns.AddKeepsUnique | prep2dbt/models/node.py:75-92 | add preserves unique column names |
| Columns.RemoveKeepsUnique | prep2dbt/models/node.py:129-145 | remove preserves unique column names |
| Columns.FlushKeepsUnique | prep2dbt/models/node.py:157-164 | flush preserves unique column names |
| Columns.FlushIdempotent | prep2dbt/models/node.py:157-164 | flushing twice equals flushing once |
| Columns.ToItem | prep2dbt/models/node.py:21-27 | the column's expression labelled with its name when labels are asked for and the value is non-empty; the bare column name otherwise |
| Columns.ToItems | prep2dbt/models/node.py:147-155 | `*` exactly when the set is not applicable; otherwise an item for every column |
| Columns.ToItemsExact | prep2dbt/models/node.py:147-155 | every item of the list comes from a column, so with `ToItems` the list holds exactly one item per column and nothing else |
| Columns.ItemsNameColumns | prep2dbt/models/node.py:147-155 | without values, the projection is one plain column per name |
| Columns.Node.CopyWithModelName | prep2dbt/models/node.py:215-219 | only the model name changes |
| Columns.Node.CopyWithModelColumns | prep2dbt/models/node.py:221-225 | only the columns change |
| Columns.Node.ToTable | prep2dbt/models/node.py:227-235 | a table named by the argument, or by the model name when the argument is empty, with the node's plain columns |
| Registry.ByType | prep2dbt/converters/factory.py:40-46 | a tag resolves exactly when registered, to a converter registered under it; otherwise the recoverable not-found failure |
| Registry.FindAllVersions | prep2dbt/converters/factory.py:48-63 | the loop returns the converters whose tag ends with the text after the tag's last `.`, in registration order, and fails when there is none |
| Registry.CandidatesMembers | prep2dbt/converters/factory.py:48-63 | a converter is a candidate exactly when some registered tag ending with the suffix maps to it |
| Registry.LastCandidate | prep2dbt/converters/factory.py:76-78 | the last candidate is registered under a matching tag, and no later tag matches |
| Registry.GetUnknown | prep2dbt/converters/factory.py:65-68 | the converter registered as `unknown` |
| Registry.GetConverterByType | prep2dbt/converters/factory.py:70-83 | the exception-driven lookup computes `Resolve` |
| Registry.ResolveCases | prep2dbt/converters/factory.py:70-83 | an exact tag gives its own converter; else the last suffix candidate in registration order; else the unknown converter: lookup is total |
| Registry.RegistriesWellFormed | prep2dbt/converters/factory.py:19-32 | both registries have distinct tags and an `unknown` entry, so lookup never raises |
| Registry.OtherVersionFound | prep2dbt/converters/factory.py:70-83 | an unregistered version `.v2020_1_1.SuperJoin` resolves to the join converter |
| Registry.ShortSuffixFound | prep2dbt/converters/factory.py:48-63 | `.vX.Sql` matches by suffix only `.v2019_3_1.LoadSql`, and resolves to it |
| Registry.UnmatchedIsUnknown | prep2dbt/converters/factory.py:79-83 | a tag no registered tag ends with resolves to the unknown converter |
| Registry.LastRegisteredWins | prep2dbt/converters/annotations/factory.py:83-87 | `.v2.Column` matches several annotation tags and resolves to the last registered, RenameColumn |
| PyText.LastPieceSuffix | prep2dbt/converters/factory.py:55-57 | the text after the last separator is a suffix of the tag, preceded by the separator when shorter than the tag |
| PyText.LastPieceIsTail | prep2dbt/converters/factory.py:55-57 | `split(sep)[-1]` is a tail of the text free of the separator, preceded by the separator when shorter than the text |
| PyText.JoinSplit | prep2dbt/converters/mixins/yml_mixin.py:40-45 | joining the pieces of a split with the separator gives the text back |
| PyText.SplitJoin | prep2dbt/converters/mixins/yml_mixin.py:40-45 | splitting pieces joined by a separator none of them contains gives the pieces back |
| PyText.StripIsInnerSlice | prep2dbt/converters/annotations/duplicate_column/duplicate_column.py:39 | `strip` keeps a slice whose outside consists only of stripped characters, and whose ends are not stripped characters |
| PyText.ReplaceIntroduces | prep2dbt/sqlalchemy_utils.py:176-181 | replacing a name that occurs leaves the replacement in the text |
| PyText.ReplaceAbsent | prep2dbt/sqlalchemy_utils.py:176-181 | replacing a target that does not occur leaves the text unchanged |
| PyText.RemoveCharLeavesNone | prep2dbt/core_services.py:175-179 | removing a character with `replace(c, "")` leaves no occurrence of it |
| PyText.RemoveCharKeepsOthers | prep2dbt/core_services.py:175-179 | text without the character is left as it is |
| PyText.NatToStringRoundTrip | prep2dbt/core_services.py:175-179 | `str(n)` reads back as n |
| PyText.NatToStringInjective | prep2dbt/core_services.py:175-179 | different numbers have different decimal texts |
| SqlAst.TagFor | prep2dbt/sqlalchemy_utils.py:175-181 | a tag exists exactly for the `model` and `source` tag types |
| SqlAst.ReplaceTableNames | prep2dbt/sqlalchemy_utils.py:168-182 | the loop computes `Retagged`: each name replaced in turn over the text the previous replacements left |
| SqlAst.RetaggedOtherType | prep2dbt/sqlalchemy_utils.py:175-182 | any other tag type leaves the text unchanged |
| SqlAst.RetaggedAbsent | prep2dbt/sqlalchemy_utils.py:174-182 | names that occur nowhere leave the text unchanged |
| SqlAst.RetaggedSingle | prep2dbt/sqlalchemy_utils.py:176-181 | a name that occurs is turned into its ref or source tag |
| FlowGraph.Targets | prep2dbt/models/graph.py:40-45 | no targets without `nextNodes`; otherwise the i-th target is the `nextNodeId` of the i-th entry |
| FlowGraph.WithNodeValid | prep2dbt/models/graph.py:26-30 | adding a node keeps the graph well formed, adds its id, stores it over any earlier data (last writer wins), and changes no edge |
| FlowGraph.WithEdgeValid | prep2dbt/models/graph.py:32-34 | adding an edge adds both ends, keeps the data, and adds exactly that edge |
| FlowGraph.WithEdgesValid | prep2dbt/models/graph.py:40-45 | the edges to a list of targets add every target id and exactly those edges |
| FlowGraph.WithNodeAndEdgesValid | prep2dbt/models/graph.py:36-45 | a node with its `nextNodes` adds its id and every target id, even one without data, and exactly the edges from it to them |
| FlowGraph.ComposeValid | prep2dbt/models/graph.py:47-50 | merging has the union of nodes and of edges, the second graph's data winning |
| FlowGraph.ComposeNodes | prep2dbt/models/graph.py:47-50 | the merged order lists each node of both graphs once, and every node has a parent list |
| FlowGraph.ComposeEdges | prep2dbt/models/graph.py:47-50 | an edge is in the merge exactly when it is in either graph |
| FlowGraph.NodeById | prep2dbt/models/graph.py:58-60 | found exactly when the node has data; otherwise fatal |
| FlowGraph.ParentIds | prep2dbt/models/graph.py:62-64 | exactly the sources of the edges into the node |
| FlowGraph.ModelNamesOf | prep2dbt/models/graph.py:66-77 | one name per parent, in order: its model name when applicable, otherwise its display name; fatal when a parent has no data |
| FlowGraph.FirstListing | prep2dbt/models/graph.py:79-89 | the parent found is the first parent, in the given order, that lists the namespace among its next nodes (none before it does); it is found exactly when some parent lists it, and it raises otherwise |
| FlowGraph.AllParentColumns | prep2dbt/models/graph.py:91-102 | the map always has `Default` |
| FlowGraph.GatherLocal | prep2dbt/models/graph.py:91-102 | gathering reads only the gathered parents' data |
| FlowGraph.GatherConstant | prep2dbt/models/graph.py:91-102 | when the start value and every parent give the same value, every gathered namespace holds it |
| FlowGraph.AllParentColumnsLocal | prep2dbt/models/graph.py:91-102 | the gathered parent columns depend only on the node's parent list and its parents' data |
| FlowGraph.AllParentColumnsContents | prep2dbt/models/graph.py:91-102 | keys are `Default` plus every namespace a parent lists; `Default` is unknown unless a parent supplies it; each listed namespace maps to the columns of a parent that lists it |
| FlowGraph.AllParentAsTableContents | prep2dbt/models/graph.py:104-112 | keys are exactly the listed namespaces, so no `Default` unless supplied; each maps to the table of a parent that lists it |
| FlowGraph.Layers | prep2dbt/models/graph.py:52-56 | fails only with the cycle error |
| FlowGraph.LayersPartition | prep2dbt/models/graph.py:52-56 | every node is in exactly one generation, none empty |
| FlowGraph.LayersForward | prep2dbt/models/graph.py:52-56 | every edge goes from an earlier generation to a later one |
| FlowGraph.LayersStuck | prep2dbt/models/graph.py:52-56 | when no generation can be formed, the graph has a cycle |
| FlowGraph.LayersChained | prep2dbt/models/graph.py:52-56 | each generation holds exactly the remaining nodes whose parents all lie in earlier generations |
| FlowGraph.TopologicalGenerationsCorrect | prep2dbt/models/graph.py:52-56 | the generations partition the nodes with edges going forward and each generation is the nodes whose parents all come earlier; failure only on a cycle |
| FlowGraph.Dag.constructor | prep2dbt/models/graph.py:14-24 | a new DAG is empty |
| FlowGraph.Dag.AddNode | prep2dbt/models/graph.py:26-30 | the new state is `WithNode` of the old, and stays well formed |
| FlowGraph.Dag.AddEdge | prep2dbt/models/graph.py:32-34 | the new state is `WithEdge` of the old |
| FlowGraph.Dag.AddNodeWithEdge | prep2dbt/models/graph.py:36-45 | the new state is the node plus its edges, in order |
| FlowGraph.Dag.Merge | prep2dbt/models/graph.py:47-50 | a fresh DAG holding `Compose` of both |
| FlowGraph.Dag.GetNodeById | prep2dbt/models/graph.py:58-60 | computes `NodeById` |
| FlowGraph.Dag.GetParentIds | prep2dbt/models/graph.py:62-64 | computes `ParentIds` |
| FlowGraph.Dag.GetParentModelNames | prep2dbt/models/graph.py:66-77 | the loop computes the parents' reference names |
| FlowGraph.Dag.GetParentByNamespace | prep2dbt/models/graph.py:79-89 | the nested loop finds the first parent listing the namespace |
| FlowGraph.Dag.GatherLoop | prep2dbt/models/graph.py:91-102 | the nested loops over parents and their next nodes compute `Gather` |
| FlowGraph.Dag.GetAllParentColumns | prep2dbt/models/graph.py:91-102 | computes `AllParentColumns` |
| FlowGraph.Dag.GetAllParentAsTable | prep2dbt/models/graph.py:104-112 | computes `AllParentAsTable` |
| FlowGraph.Dag.NodesPerGeneration | prep2dbt/models/graph.py:52-56 | computes the topological generations |
| Annotations.Renamed | prep2dbt/converters/annotations/rename_column/rename_column.py:36-47 | rename gives `(rename, "string", columnName)` among the columns, drops the old name, keeps other columns; renaming to the same name removes it |
| Annotations.Dropped | prep2dbt/converters/annotations/remove_columns/remove_columns.py:35-43 | exactly the columns of unlisted names remain; not-applicable input unchanged; an emptied set is unknown |
| Annotations.DropStep | prep2dbt/converters/annotations/remove_columns/remove_columns.py:38-41 | one more remove step is dropping one more name |
| Annotations.RemoveListed | prep2dbt/converters/annotations/remove_columns/remove_columns.py:35-43 | the loop of removes computes `Dropped` over the listed names; absent names are ignored |
| Annotations.KeepListed | prep2dbt/converters/annotations/keep_only_columns/keep_only_columns.py:35-45 | the loop removes every present column whose name is not listed |
| Annotations.KeptOnlyListed | prep2dbt/converters/annotations/keep_only_columns/keep_only_columns.py:35-45 | what remains is exactly the listed columns that were present; nothing is added |
| Annotations.AddMissing | prep2dbt/converters/annotations/change_column_type/change_column_type.py:41-49 | each listed name absent from an applicable set comes in as a bare string column; present columns are untouched; other states unchanged |
| Annotations.AddMissingColumns | prep2dbt/converters/annotations/change_column_type/change_column_type.py:41-49 | the loop computes `AddMissing` |
| Annotations.Recast | prep2dbt/converters/annotations/change_column_type/change_column_type.py:50-73 | fails exactly when a field has no type; otherwise the names are the old ones plus the fields' |
| Annotations.RecastCasts | prep2dbt/converters/annotations/change_column_type/change_column_type.py:50-73 | with distinct field names every field ends up as the CAST of itself to its new type |
| Annotations.RecastColumns | prep2dbt/converters/annotations/change_column_type/change_column_type.py:50-73 | the loop computes `Recast` |
| Annotations.RecastFailsOn | prep2dbt/converters/annotations/change_column_type/change_column_type.py:50-73 | a field without `type` stops the run with a KeyError |
| Annotations.CaseArms | prep2dbt/converters/annotations/remap/remap.py:57-63 | a WHEN arm exists exactly for each old value of each bucket, giving that bucket's value, the arms in bucket order and value order |
| Annotations.CaseArmsFirstBucket | prep2dbt/converters/annotations/remap/remap.py:57-66 | the first arm matching a value gives the value of the first bucket listing it, so with overlapping buckets the earlier bucket wins |
| Annotations.BucketArms | prep2dbt/converters/annotations/remap/remap.py:59-63 | one WHEN arm per old value of the bucket, in order, each giving the bucket's new value |
| Annotations.BuildCaseArms | prep2dbt/converters/annotations/remap/remap.py:57-63 | the nested loop builds the arms bucket by bucket, value by value |
| Annotations.PerformColumns | prep2dbt/converters/annotations/add_column/add_column.py:36-44 | filter and remap keep the columns, unknown gives unknown, add and quick-calc put `(columnName, "string", expression)` in, and a set that is not applicable stays as it is |
| Annotations.ColumnsAfter | prep2dbt/converters/annotations/mixins/unknown_annotation_mixin.py:31-39 | an annotation its converter rejects gives unknown columns |
| Annotations.CalculateColumns | prep2dbt/converters/annotations/mixins/unknown_annotation_mixin.py:31-39 | running the converters' loops computes `ColumnsAfter` |
| Annotations.AnnotationCte | prep2dbt/converters/annotations/add_column/add_column.py:46-61 | a CTE named by the annotation id selecting from the previous statement; a missing `name` or `id` is a KeyError |
| Annotations.FallbackComment | prep2dbt/converters/annotations/mixins/unknown_annotation_mixin.py:62-70 | the comment ends with the annotation name when there is one |
| Annotations.Fallback | prep2dbt/converters/annotations/mixins/unknown_annotation_mixin.py:54-77 | the input columns with their expressions, selected from the previous statement, in a CTE named by the id or a fresh name |
| Annotations.StatementsFor | prep2dbt/converters/annotations/mixins/unknown_annotation_mixin.py:48-77 | a rejected or unknown annotation gives the fallback CTE; any failure is fatal |
| Annotations.PerformStatements | prep2dbt/converters/annotations/add_column/add_column.py:46-61 | an accepted annotation's statement fails only fatally |
| Annotations.GenerateStatements | prep2dbt/converters/annotations/mixins/unknown_annotation_mixin.py:48-77 | running the converters' loops computes `StatementsFor` |
| Annotations.RejectedFallsBack | prep2dbt/converters/annotations/unknown/unknown.py:13-43 | a rejected annotation never stops the run: unknown columns and a pass-through CTE |
| Annotations.StatementsSelectColumns | prep2dbt/converters/annotations/filter_operation/filter_operation.py:42-54 | the CTE of add, quick-calc, duplicate, rename, remove and filter projects the columns the same annotation computes, with the filter expression as WHERE for a filter |
| Annotations.MissingNameOrIdIsFatal | prep2dbt/converters/annotations/add_column/add_column.py:46-61 | an accepted annotation without `name` or `id` stops the run |
| Annotations.KeepOnlyContents | prep2dbt/converters/annotations/keep_only_columns/keep_only_columns.py:46-67 | the columns keep only listed names, while the statement re-adds each listed name so it projects exactly the listed names; the statement is the CTE under the annotation's id selecting those columns from the previous statement, with the annotation's name as comment |
| Annotations.ChangeTypeAgrees | prep2dbt/converters/annotations/change_column_type/change_column_type.py:40-71 | the statement's columns have the same names as the computed columns, each field cast to its new type; the statement is the CTE under the annotation's id selecting the recast columns from the previous statement |
| Annotations.RemapReplacesColumn | prep2dbt/converters/annotations/remap/remap.py:49-76 | the statement is the CTE under the annotation's id, over the previous statement, selecting the other columns as they are plus the CASE over the column, labelled with its name, and no other column of that name |
| NodeMixins.StepGraphContents | prep2dbt/converters/mixins/unknown_node_mixin.py:44-60 | a one-node graph holds the node under its id, its target ids, and exactly its outgoing edges |
| NodeMixins.UnknownGraph | prep2dbt/converters/mixins/unknown_node_mixin.py:44-60 | one node marked unknown with unknown columns and an initial name, plus its edges; a KeyError without `name` |
| NodeMixins.GenerateUnknownGraph | prep2dbt/converters/mixins/unknown_node_mixin.py:44-60 | builds a fresh DAG holding `UnknownGraph` |
| NodeMixins.NoParentSql | prep2dbt/converters/mixins/unknown_node_mixin.py:108-133 | `final` selects `*` from `source__<name>` aliased `source`, with the note, through a source tag |
| NodeMixins.SingleParentSql | prep2dbt/converters/mixins/unknown_node_mixin.py:135-155 | `final` selects the parent's columns from the parent aliased `source`, with the note, through a ref tag |
| NodeMixins.MultiParentSql | prep2dbt/converters/mixins/unknown_node_mixin.py:157-177 | `final` is the UNION ALL of `*` over every parent, in order, through ref tags |
| NodeMixins.UnknownSql | prep2dbt/converters/mixins/unknown_node_mixin.py:179-192 | the unknown-node SQL always ends in CTE `final` |
| NodeMixins.UnknownSqlCases | prep2dbt/converters/mixins/unknown_node_mixin.py:179-192 | it succeeds exactly when the node and all its parents have data |
| NodeMixins.NoParentSourceTagged | prep2dbt/converters/mixins/unknown_node_mixin.py:108-133 | with no parent, the stand-in source table is referred to through the configured source |
| NodeMixins.UnknownModels | prep2dbt/converters/mixins/unknown_node_mixin.py:194-221 | two records (the model, then `source__<model>` as a source without SQL) with no parent; one model record otherwise |
| NodeMixins.ColumnChain | prep2dbt/converters/mixins/annotation_mixin.py:64-78 | a non-empty chain over columns that are not applicable ends unknown |
| NodeMixins.FoldByNamespace | prep2dbt/converters/mixins/annotation_mixin.py:47-55 | the fold over namespaced annotations keeps the map's keys; it fails only fatally |
| NodeMixins.FoldByNamespaceFails | prep2dbt/converters/mixins/annotation_mixin.py:51-54 | it succeeds exactly when every annotation's namespace is in the map |
| NodeMixins.FoldByNamespaceSeparate | prep2dbt/converters/mixins/annotation_mixin.py:47-55 | each namespace ends as its own annotations folded over its own start value |
| NodeMixins.ColumnChainIsFold | prep2dbt/converters/mixins/annotation_mixin.py:64-78 | the after-annotation chain is the same fold, one namespace |
| NodeMixins.PreColumnsFrom | prep2dbt/converters/mixins/annotation_mixin.py:47-55 | the before-annotations leave the namespaces as they are; only a KeyError fails |
| NodeMixins.PreColumnsFromFails | prep2dbt/converters/mixins/annotation_mixin.py:51 | an annotation naming a namespace no parent supplies is a KeyError, not the recoverable failure |
| NodeMixins.PreColumns | prep2dbt/converters/mixins/annotation_mixin.py:37-55 | the result has exactly the gathered parent namespaces |
| NodeMixins.PreColumnsPerNamespace | prep2dbt/converters/mixins/annotation_mixin.py:47-55 | each namespace's columns are its own annotations, flushing first, over its parent's columns, in list order |
| NodeMixins.PreStatementsFrom | prep2dbt/converters/mixins/annotation_mixin.py:108-126 | the statements keep their namespaces, and every annotation's namespace was present |
| NodeMixins.SourceCtes | prep2dbt/converters/mixins/annotation_mixin.py:96-100 | each parent table becomes CTE `source_<namespace>` under its namespace |
| NodeMixins.PreStatements | prep2dbt/converters/mixins/annotation_mixin.py:93-126 | the result has exactly the parent tables' namespaces |
| NodeMixins.PreStatementsPerNamespace | prep2dbt/converters/mixins/annotation_mixin.py:108-126 | each namespace's statement is the chain of its own annotations over its source CTE |
| NodeMixins.PreKeysAgree | prep2dbt/converters/mixins/annotation_mixin.py:93-106 | the prepared columns have the statements' namespaces plus `Default` |
| NodeMixins.PostColumns | prep2dbt/converters/mixins/annotation_mixin.py:58-78 | without after-annotations the computed columns are returned |
| NodeMixins.ChainLastStep | prep2dbt/converters/mixins/annotation_mixin.py:70-77 | the chain's result is the last annotation over the chain of the others, so only the last step's expressions survive |
| NodeMixins.FiltersOnlyFlush | prep2dbt/converters/mixins/annotation_mixin.py:70-77 | a chain of filters and remaps leaves the names and types and clears every expression |
| NodeMixins.PostSql | prep2dbt/converters/mixins/annotation_mixin.py:138-165 | `final` selects everything of the after-annotation chain, with parent names as ref tags |
| NodeMixins.Chain | prep2dbt/converters/mixins/annotation_mixin.py:149-160 | a non-empty chain ends in a CTE; it fails only fatally |
| NodeMixins.OnNamespace | prep2dbt/converters/mixins/annotation_mixin.py:108-112 | the annotations listed on one namespace, every one of them taken from an entry on that namespace |
| NodeMixins.RunColumnChain | prep2dbt/converters/mixins/annotation_mixin.py:70-77 | the loop computes `ColumnChain` |
| NodeMixins.RunChain | prep2dbt/converters/mixins/annotation_mixin.py:149-160 | the loop computes `Chain` |
| NodeMixins.PreCalculateColumns | prep2dbt/converters/mixins/annotation_mixin.py:37-55 | the loop computes `PreColumns` |
| NodeMixins.PostCalculateColumns | prep2dbt/converters/mixins/annotation_mixin.py:58-78 | the loop computes `PostColumns` |
| NodeMixins.SourceCteLoop | prep2dbt/converters/mixins/annotation_mixin.py:96-100 | the loop computes `SourceCtes` |
| NodeMixins.PreStatementsLoop | prep2dbt/converters/mixins/annotation_mixin.py:108-126 | the loop computes `PreStatementsFrom` |
| NodeMixins.PreGenerateSql | prep2dbt/converters/mixins/annotation_mixin.py:93-126 | computes `PreStatements` |
| NodeMixins.PostGenerateSql | prep2dbt/converters/mixins/annotation_mixin.py:138-165 | computes `PostSql` |
| Steps.ConvertedGraph | prep2dbt/converters/load_sql/converter.py:59-72 | a KeyError without `name`, a graph otherwise |
| Steps.StepGraph | prep2dbt/converters/mixins/unknown_node_mixin.py:78-85 | one node and its edges, whichever path; a KeyError without `name` |
| Steps.StepGraphNode | prep2dbt/converters/mixins/unknown_node_mixin.py:78-85 | the node is marked unknown with unknown columns exactly when its converter rejects the step; an accepted step waits for its columns |
| Steps.GenerateGraph | prep2dbt/converters/mixins/unknown_node_mixin.py:78-85 | builds a fresh DAG holding `StepGraph` |
| Steps.FieldColumns | prep2dbt/converters/load_sql/converter.py:74-89 | one `(name, type, "")` per field and nothing else; no fields gives unknown |
| Steps.LoaderSql | prep2dbt/converters/load_sql/converter.py:91-104 | `final` selects the node's columns from `source__<model>` aliased `source`, through a source tag |
| Steps.LoaderModels | prep2dbt/converters/load_sql/converter.py:106-122 | exactly the model, then `source__<model>` as a source without SQL, which the model reads |
| Steps.SingleModel | prep2dbt/converters/mixins/annotation_mixin.py:167-179 | one model record with the node's SQL, yml and model name, exactly when the node has data and its SQL was built |
| Steps.ContainerColumns | prep2dbt/converters/container/converter.py:87-110 | the inner annotations in their stored order, flushing first, over the parents' `Default` columns |
| Steps.ContainerNodes | prep2dbt/converters/container/converter.py:98-100 | the container's annotation steps exactly when `loomContainer.nodes` is there; a KeyError otherwise |
| Steps.ContainerWithoutDefault | prep2dbt/converters/container/converter.py:87-110 | a container fed through no `Default` gets unknown columns |
| Steps.ContainerSql | prep2dbt/converters/container/converter.py:112-150 | `final` projects the node's columns over the chain of inner annotations over CTE `source`, through ref tags; without `Default` it falls back |
| Steps.ContainerFallsBack | prep2dbt/converters/container/converter.py:112-150 | the SQL falls back exactly when no parent leads into `Default` |
| Steps.ContainerCalculateColumns | prep2dbt/converters/container/converter.py:87-110 | the loop computes `ContainerColumns` |
| Steps.ContainerGenerateSql | prep2dbt/converters/container/converter.py:112-150 | the loop computes `ContainerSql` |
| Steps.HyperColumns | prep2dbt/converters/write_to_hyper/converter.py:47-59 | the parent `Default` columns when the namespaces are exactly `{Default}`; any other namespace is the recoverable failure |
| Steps.HyperColumnsCases | prep2dbt/converters/write_to_hyper/converter.py:47-59 | a parent fed into another namespace makes the node unknown; no parent gives unknown; a `Default` parent gives its columns |
| Steps.HyperSql | prep2dbt/converters/write_to_hyper/converter.py:61-76 | `final` projects the node's columns from the `Default` parent aliased `source`, through ref tags |
| Steps.JoinedNames | prep2dbt/converters/superjoin/converter.py:146-159 | the join's names are the left names, the right-only names, and `<name>-1` for each shared name |
| Steps.JoinedColumn | prep2dbt/converters/superjoin/converter.py:150-157 | the right column as it is when the left lacks its name, `<name>-1` otherwise |
| Steps.JoinFromNames | prep2dbt/converters/superjoin/converter.py:146-159 | the loop's names are the start's plus the joined name of every right column visited |
| Steps.JoinFromKeeps | prep2dbt/converters/superjoin/converter.py:146-159 | a column no later joined name collides with survives the loop |
| Steps.RightNames | prep2dbt/converters/superjoin/converter.py:146-159 | whatever the visiting order, the joined right names are the right-only names plus `<name>-1` for each shared name |
| Steps.JoinKeepsLeft | prep2dbt/converters/superjoin/converter.py:146-159 | every left column survives unless a renamed right column takes its name |
| Steps.CalculateJoinedColumns | prep2dbt/converters/superjoin/converter.py:146-159 | the loop over the right columns computes `JoinedColumns` |
| Steps.JoinColumns | prep2dbt/converters/superjoin/converter.py:161-183 | recoverable failure without both `Left` and `Right`; unknown unless both sides are applicable; the joined columns otherwise |
| Steps.JoinCondition | prep2dbt/converters/superjoin/converter.py:185-204 | a comparison of the two expressions exactly for a known comparator |
| Steps.JoinConditions | prep2dbt/converters/superjoin/converter.py:185-204 | at most one comparison per condition |
| Steps.JoinConditionsMembers | prep2dbt/converters/superjoin/converter.py:185-204 | the conditions are exactly those of recognised comparators; all are kept when all comparators are known |
| Steps.CalculateConditions | prep2dbt/converters/superjoin/converter.py:185-204 | the loop computes `JoinConditions` |
| Steps.NullFiltersShape | prep2dbt/converters/superjoin/converter.py:306-328 | one IS NULL filter per condition on one side; on both, left then right for every condition, all ANDed |
| Steps.BuildNullFilters | prep2dbt/converters/superjoin/converter.py:225-246 | the filter loops compute `NullFilters` |
| Steps.JoinQuery | prep2dbt/converters/superjoin/converter.py:207-346 | a CTE `joined` with the given projection and the ANDed conditions exactly for the seven join types |
| Steps.JoinVariants | prep2dbt/converters/superjoin/converter.py:207-346 | right is left with the sides swapped; leftOnly, inner and full are left with other flags; rightOnly is right with left IS NULL; notInner is full with both IS NULL |
| Steps.JoinSpec | prep2dbt/converters/superjoin/converter.py:364-366 | the join type and conditions, a KeyError when absent |
| Steps.JoinSql | prep2dbt/converters/superjoin/converter.py:349-401 | the guard as written gives the recoverable failure; a result is the CTE `joined` |
| Steps.JoinSqlCases | prep2dbt/converters/superjoin/converter.py:356-362 | over prepared maps the guard means "a side is missing", and the join succeeds exactly when both sides are there with a known join type |
| Steps.JoinGenerateSql | prep2dbt/converters/superjoin/converter.py:349-401 | the method computes `JoinSql` |
| Steps.AggregateFunctionTable | prep2dbt/converters/superaggregate/converter.py:76-101 | exactly the eleven Tableau aggregations have a SQL function |
| Steps.GroupColumn | prep2dbt/converters/superaggregate/converter.py:112-122 | named by the new name or the column; its value is the column only when renamed |
| Steps.AggregatedColumns | prep2dbt/converters/superaggregate/converter.py:104-140 | an unsupported aggregation is the recoverable failure |
| Steps.AggregatedColumnsContents | prep2dbt/converters/superaggregate/converter.py:104-140 | one column per field, named by its label, all strings, the group-by columns among them, the parents ignored |
| Steps.AggregateSpec | prep2dbt/converters/superaggregate/converter.py:104-110 | the group-by and aggregate fields exactly when `actionNode` holds both; a KeyError otherwise |
| Steps.AggregateColumnList | prep2dbt/converters/superaggregate/converter.py:112-140 | one string column per field, named by its label, the group-by columns first |
| Steps.AggregateItemList | prep2dbt/converters/superaggregate/converter.py:161-195 | one labelled SELECT item per field, named by its label, the group-by items first |
| Steps.AggregateCalculateColumns | prep2dbt/converters/superaggregate/converter.py:104-140 | the loops compute `AggregatedColumns` |
| Steps.AggregateSql | prep2dbt/converters/superaggregate/converter.py:142-195 | recoverable failure exactly with other than one parent statement or an unsupported aggregation |
| Steps.AggregateAgrees | prep2dbt/converters/superaggregate/converter.py:161-195 | the SQL and the columns succeed together; the SELECT labels exactly the computed columns; one GROUP BY item per group-by field, leading the list |
| Steps.AggregateGenerateSql | prep2dbt/converters/superaggregate/converter.py:142-195 | the loops compute `AggregateSql` |
| Steps.TransformPassThrough | prep2dbt/converters/supertransform/converter.py:60-87 | with exactly one prepared namespace, its columns (or statement) passed through; the recoverable failure otherwise |
| Steps.StepColumns | prep2dbt/converters/mixins/unknown_node_mixin.py:100-106 | unknown for a rejected step or one that raises the recoverable failure; the converter's columns otherwise; only fatal errors escape |
| Steps.AnnotatedStagesLocal | prep2dbt/converters/mixins/annotation_mixin.py:37-78 | the before-annotation, action and after-annotation stages read only the step, its parents and their data |
| Steps.PerformStepColumnsLocal | prep2dbt/converters/mixins/unknown_node_mixin.py:100-106 | each converter's column computation reads only the step, its parents and their data |
| Steps.StepColumnsLocal | prep2dbt/converters/mixins/unknown_node_mixin.py:100-106 | a step's columns depend only on the step itself, its parent list and its parents' data, not on the rest of the graph or its own columns |
| Steps.TransformOfUnknown | tests/services/test__core_service.py:269-400 | a transform whose parents all have unknown columns gets unknown columns whenever its computation does not fail fatally, so unknown columns pass down through transforms |
| Steps.AnnotatedModels | prep2dbt/converters/mixins/annotation_mixin.py:167-179 | one model record named after the node, with SQL and the model yml |
| Steps.StepModels | prep2dbt/converters/mixins/unknown_node_mixin.py:227-233 | the unknown-node records for a rejected or failing step; the converter's records otherwise |
| Steps.JoinWithoutBothSides | prep2dbt/converters/superjoin/converter.py:167-172 | a join missing a side gets unknown columns and the unknown-node records |
| Steps.AggregateWithUnsupportedFunction | prep2dbt/converters/superaggregate/converter.py:99-101 | an unsupported aggregation makes the node unknown |
| Steps.TransformPassesThrough | prep2dbt/converters/supertransform/converter.py:61-73 | a transform fed only through `Default` and without annotations passes its parent's columns through |
| CoreServices.MergeSteps | prep2dbt/core_services.py:100-109 | the composition succeeds exactly when every step has a `name` |
| CoreServices.StepMerged | prep2dbt/core_services.py:100-109 | composing one step's graph adds its id and targets, stores its converted node, and adds exactly its edges |
| CoreServices.MergeStepsValid | prep2dbt/core_services.py:100-109 | composing the steps' graphs keeps the graph well formed |
| CoreServices.MergeStepsNodes | prep2dbt/core_services.py:100-109 | the nodes are the start's plus every step id and every target |
| CoreServices.MergeStepsKeys | prep2dbt/core_services.py:100-109 | data exists for the start's nodes and exactly the steps |
| CoreServices.MergeStepsData | prep2dbt/core_services.py:100-109 | each node's data is either the start's or the conversion of a step with that id |
| CoreServices.MergeStepsEdges | prep2dbt/core_services.py:100-109 | an edge exists exactly when it was there or a step lists its end among its next nodes |
| CoreServices.ConvertToGraph | prep2dbt/core_services.py:94-111 | no `nodes` key is the fatal unknown-format error |
| CoreServices.ConvertToGraphNodes | prep2dbt/core_services.py:100-111 | the graph is well formed, its nodes are the steps and their targets, and data exists for exactly the steps |
| CoreServices.ConvertToGraphData | prep2dbt/core_services.py:100-111 | each node's data is its step converted, and the edges are exactly those from `nextNodes` |
| CoreServices.ConvertToGraphLoop | prep2dbt/core_services.py:81-111 | the loop builds a DAG holding `ConvertToGraph` |
| CoreServices.UpdateColumns | prep2dbt/core_services.py:141-153 | a node with applicable columns is left untouched; otherwise only its columns change, to what its converter computes |
| CoreServices.UpdateColumnsOnly | prep2dbt/core_services.py:141-153 | the update changes node columns and nothing else |
| CoreServices.UpdateRejected | prep2dbt/core_services.py:141-153 | a node its converter rejects gets unknown columns |
| CoreServices.UpdateAll | prep2dbt/core_services.py:141-153 | updating the nodes of one generation changes node columns and nothing else; it fails only fatally |
| CoreServices.UpdateAllElsewhere | prep2dbt/core_services.py:141-153 | a node the inner loop does not visit keeps its data |
| CoreServices.UpdateAllSameInputs | prep2dbt/core_services.py:141-153 | when no visited node is a parent of another, a visited node's parents keep their data, and so does its step, so it reads the same inputs after the loop as when it was visited |
| CoreServices.UpdateAllComputes | prep2dbt/core_services.py:141-153 | when no visited node is a parent of another, each visited node whose columns were not computed ends with exactly its converter's columns, read over the graph after the loop |
| CoreServices.UpdateGenerations | prep2dbt/core_services.py:139-153 | updating generation after generation changes node columns and nothing else |
| CoreServices.UpdateGenerationsElsewhere | prep2dbt/core_services.py:139-153 | a node in no generation keeps its data |
| CoreServices.UpdateFirstGeneration | prep2dbt/core_services.py:139-153 | a node of the first generation, with columns not computed, ends with its converter's columns over the final graph: later generations change neither it nor its parents |
| CoreServices.UpdateGenerationsComputes | prep2dbt/core_services.py:139-153 | over disjoint generations whose edges all run forward, every node of any generation, with columns not computed, ends with its converter's columns over the final graph |
| CoreServices.UpdateGenerationsEffect | prep2dbt/core_services.py:114-153 | over the topological generations, with every set visited whole, each node keeps its data when its columns were computed and otherwise holds its converter's columns over the final graph, so each child's columns are computed from its parents' final columns |
| CoreServices.CalculateColumns | prep2dbt/core_services.py:114-153 | only node columns change, generation by generation; a cycle stops the run; when every generation is visited whole, each node keeps already computed columns and otherwise holds its converter's columns over the result, computed from its parents' final columns (tests/services/test__core_service.py:109-267) |
| CoreServices.UpdateGeneration | prep2dbt/core_services.py:141-153 | the inner loop updates the DAG to `UpdateAll` |
| CoreServices.CalculateColumnsLoop | prep2dbt/core_services.py:139-153 | the loops update the DAG to `CalculateColumns` |
| CoreServices.ModelNames | prep2dbt/core_services.py:166-179 | a model name for every node |
| CoreServices.NumberedInjective | prep2dbt/core_services.py:175-179 | the name and the number can be read back from a model name |
| CoreServices.RanksInGroup | prep2dbt/core_services.py:171-173 | the number of a node within its group lies between 1 and the group's size, and two nodes of a group get different numbers |
| CoreServices.ModelNamesDistinct | prep2dbt/core_services.py:166-179 | distinct nodes get distinct model names |
| CoreServices.ModelNamesAsWritten | prep2dbt/core_services.py:171-179 | the numbering as written: ranks counted among equal raw names |
| CoreServices.AsWrittenCollides | prep2dbt/core_services.py:171-179 | "a b" and "ab" both become `ab_1` as written |
| CoreServices.ModelNamesAgreeOnCleanNames | prep2dbt/core_services.py:171-179 | without spaces or `/` in names, the corrected numbering is the one written |
| CoreServices.BuildModelName | prep2dbt/core_services.py:156-192 | fails exactly when a node lacks data or the graph has no nodes; with no nodes the empty table has no `name` column to group by, a KeyError (lines 166-172); each node keeps everything but its model name, which becomes its name numbered by the rule as written |
| CoreServices.BuiltNamesAsWritten | prep2dbt/core_services.py:171-192 | two nodes share a model name only when their raw names differ but clean to the same name |
| CoreServices.NodeNames | prep2dbt/core_services.py:166-169 | every node's display name by id, a KeyError when a node has no data |
| CoreServices.Rename | prep2dbt/core_services.py:187-192 | storing the renamed nodes keeps the graph, its order, its edges and its keys |
| CoreServices.RenameContents | prep2dbt/core_services.py:187-192 | each node keeps everything but its model name, which becomes its computed name when it is renamed |
| CoreServices.BuildModelNameCorrected | prep2dbt/core_services.py:156-192 | the naming pass with numbers counted within equal cleaned names; otherwise the same contract as `BuildModelName`, including the KeyError for a graph without nodes |
| CoreServices.BuiltNamesDistinct | prep2dbt/core_services.py:156-192 | after the corrected pass, distinct nodes have distinct model names |
| CoreServices.BuildModelNameAgreesOnCleanNames | prep2dbt/core_services.py:171-179 | when no display name holds a space or `/`, the pass as written and the corrected pass give the same graph |
| CoreServices.ReadNames | prep2dbt/core_services.py:166-169 | the loop reads every node's display name |
| CoreServices.RenameNodes | prep2dbt/core_services.py:187-192 | the loop updates the DAG to `Rename` |
| CoreServices.BuildModelNameLoop | prep2dbt/core_services.py:156-192 | the method updates the DAG to `BuildModelName`, numbering by the rule as written, and fails with the same error, including the KeyError for a graph without nodes |
| CoreServices.ConvertedColumnsPending | prep2dbt/core_services.py:100-111 | no node of the converted graph has computed columns yet |
| CoreServices.Translate | prep2dbt/core_services.py:81-192 | the passes in the order of prep2dbt/cli.py (names, then columns) keep the converted graph's nodes and display names; each node's model name is the one the naming rule as written gives it; and, when every generation is visited whole, each node's columns are its converter's columns over the translated graph |
| Dbt.ModelReferenceSql | prep2dbt/models/dbt_models.py:29-41 | the statements, their compiled text, and that text with each table as a ref tag |
| Dbt.SourceReferenceSql | prep2dbt/models/dbt_models.py:43-57 | the same with source tags under the configured source |
| Dbt.ReferenceSqlUntouched | prep2dbt/models/dbt_models.py:29-57 | tables that do not occur leave the compiled text as it is |
| Dbt.ReferenceSqlTags | prep2dbt/models/dbt_models.py:29-57 | a table that occurs turns into its tag |
| Dbt.ToLiteral | prep2dbt/models/dbt_models.py:86-93 | only a string containing a line separator changes, to its dedented literal |
| Dbt.NormaliseShape | prep2dbt/models/dbt_models.py:95-125 | normalisation preserves the shape of maps and lists; only such strings change |
| Dbt.NormaliseIdempotent | prep2dbt/models/dbt_models.py:95-125 | normalising twice equals once |
| Dbt.NewYml | prep2dbt/models/dbt_models.py:103-125 | a yml keeps the document's shape, normalised |
| Dbt.AddModel | prep2dbt/models/dbt_models.py:166-169 | the old records, then the new one, at the end |
| Dbt.MergeModels | prep2dbt/models/dbt_models.py:171-174 | the receiver's records, then the other's, in order |
| Dbt.AddIsMerge | prep2dbt/models/dbt_models.py:166-174 | adding is merging a one-record list |
| Dbt.MergeMonoid | prep2dbt/models/dbt_models.py:171-174 | merging is associative with the empty list as identity |
| Metadata.ColumnEntries | prep2dbt/converters/mixins/yml_mixin.py:31-38 | no entry unless the columns are applicable |
| Metadata.CollectColumnEntries | prep2dbt/converters/mixins/yml_mixin.py:31-38 | the loop computes `ColumnEntries` |
| Metadata.ColumnEntriesExact | prep2dbt/converters/mixins/yml_mixin.py:31-38 | exactly one `{name, description: data type}` entry per column |
| Metadata.Tags | prep2dbt/converters/mixins/yml_mixin.py:40-45 | no tags exactly for the empty option |
| Metadata.TagsRoundTrip | prep2dbt/converters/mixins/yml_mixin.py:40-45 | the tags joined by commas give the option back, and none contains a comma |
| Metadata.ModelYml | prep2dbt/converters/mixins/yml_mixin.py:16-67 | a KeyError when the node has no data |
| Metadata.Description | prep2dbt/converters/mixins/yml_mixin.py:22-29 | the description is a multi-line text, so the yml writes it as a literal block |
| Metadata.SourceYml | prep2dbt/converters/mixins/yml_mixin.py:69-120 | a KeyError when the node has no data |
| Metadata.GenerateModelYml | prep2dbt/converters/mixins/yml_mixin.py:16-67 | the loops compute `ModelYml` |
| Metadata.GenerateSourceYml | prep2dbt/converters/mixins/yml_mixin.py:69-120 | the loops compute `SourceYml` |
| Metadata.ModelEntryFields | prep2dbt/converters/mixins/yml_mixin.py:40-66 | name, description, columns, tags and node colour of the model entry |
| Metadata.ModelYmlContents | prep2dbt/converters/mixins/yml_mixin.py:16-67 | version 2, one model named after the node, one column entry per column, one tag per option item, colour red exactly when the columns are not applicable |
| Metadata.SourceTableFields | prep2dbt/converters/mixins/yml_mixin.py:100-118 | the source table is `source__<model name>` with the node's columns |
| Metadata.SourceYmlContents | prep2dbt/converters/mixins/yml_mixin.py:69-120 | version 2, one source under the configured name, one table `source__<model name>` |
| DbtServices.Concatenated | prep2dbt/dbt_services.py:11-20 | the records of each node in turn, failing only fatally |
| DbtServices.NodeModels | prep2dbt/dbt_services.py:15-18 | a node without data fails; only fatal failures escape |
| DbtServices.ModelsFrom | prep2dbt/dbt_services.py:11-20 | the merging loop fails only fatally |
| DbtServices.ModelsFromConcatenates | prep2dbt/dbt_services.py:11-20 | the fold of merges over the nodes is the concatenation of their records, after the start |
| DbtServices.ConcatenatedAppend | prep2dbt/dbt_services.py:11-20 | the records of two lists of nodes are the first's then the second's |
| DbtServices.GenerateDbtModels | prep2dbt/dbt_services.py:11-20 | the concatenation, in node order, of every node's records |
| DbtServices.GenerateDbtModelsLoop | prep2dbt/dbt_services.py:11-20 | the loop computes `GenerateDbtModels` |
| DbtServices.StatusOf | prep2dbt/dbt_services.py:49-66 | failed exactly when unknown; passed exactly when known with applicable columns; warning otherwise |
| DbtServices.TallyCounts | prep2dbt/dbt_services.py:49-66 | each counter grows by the number of nodes with its status, so the total grows by the node count |
| DbtServices.TallyFrom | prep2dbt/dbt_services.py:49-66 | the count fails exactly when some node has no data, and then fatally |
| DbtServices.Count | prep2dbt/dbt_services.py:49-66 | counting one status adds one to the total |
| DbtServices.TallyClean | prep2dbt/dbt_services.py:49-66 | no failure exactly when no node is unknown; no failure or warning exactly when every node passed |
| DbtServices.TallyResults | prep2dbt/dbt_services.py:49-66 | every node is counted exactly once |
| DbtServices.TallyResultsLoop | prep2dbt/dbt_services.py:49-66 | the counting loop computes `TallyResults` |

## Findings

| source | as written | input that shows it | evidently intended | confidence | as-written member | corrected member |
|---|---|---|---|---|---|---|
| prep2dbt/core_services.py:171-180 | model numbers are counted within equal raw names, but spaces and `/` are removed afterwards | two steps named "a b" and "ab" | every node gets its own model name | not executed; follows from the code | CoreServices.AsWrittenCollides | CoreServices.BuiltNamesDistinct |

The translation (`CoreServices.Translate`, `CoreServices.BuildModelName`)
numbers names as the code does, so `CoreServices.BuiltNamesAsWritten` says
exactly when two nodes can share a model name. The corrected pass
`CoreServices.BuildModelNameCorrected` counts within equal cleaned names
(`CoreServices.ModelNames`), and `CoreServices.BuiltNamesDistinct` proves its
names unique. `CoreServices.BuildModelNameAgreesOnCleanNames` shows the two
passes agree whenever no name contains a space or `/`.

## Left out

- Preparing the working directory, copying and unzipping the flow archive, reading the flow file (prep2dbt/core_services.py:15-78), `output_dbt_files` and the file writers `write_raw_sql`, `write_dbt_sql` and `Yml.write`: filesystem I/O.
- prep2dbt/cli.py and prep2dbt/options.py: command-line wiring. The prefix, tags and source name options are fields of `Dbt.Env`.
- SQLAlchemy compilation, the comment patches and the dialect mapping (prep2dbt/sqlalchemy_utils.py:1-165): a foreign library. SQL is the tree in `SqlAst`, and compilation is the uninterpreted `Env.compile`. The text it renders and the order of a projection built from a set are not modelled.
- `Yml.__str__` (ruamel serialisation) and the JSON text of descriptions (`Env.dumpJson`): serializer internals.
- pandas in `build_model_name`: the grouping and numbering are written out as the rule the code computes (`CoreServices.ModelNamesAsWritten`), counted within equal raw names. The number is the rank of the id, in string order, among the group's ids, as pandas' categorical codes give it.
- networkx internals: the graph is the `Graph` value with node order, data and per-node parent lists. `FlowGraph.Layers` computes the generations by peeling off the nodes whose parents are all gone, as networkx does, and `FlowGraph.TopologicalGenerationsCorrect` proves the result is the topological generations (or reports a cycle). The order in which nodes inside a generation are visited is a parameter (`visit`).
- prep2dbt/describe_services.py and prep2dbt/models/metrics.py: a reporting path built on graph statistics in floating point.
- prep2dbt/utils.py: terminal text layout.
- The colouring and echo of `print_results`. Only its tally is modelled.
- `uuid4` names of fallback CTEs: the parameter `Env.freshName`.
- prep2dbt/models/types.py, prep2dbt/protocols/converter.py and prep2dbt/exceptions.py are interfaces. They are not part of this model beyond the `Outcome` failures.
- Columns.Add: removes every column carrying the name, where the code removes the one its loop found last. The two agree whenever names are unique, which every operation preserves (`Columns.AddKeepsUnique`, `Columns.AddReplacesOne`).
- Columns.RemoveColumnByName: removes every column carrying the name, where the code removes the first found. They agree under unique names (`Columns.RemoveRemovesOne`).
- Columns.Merge: its result is stated for another set with unique names. Otherwise the order of its loop decides which same-named column wins, and only applicability is stated.
- Shared mutable sets: `add` and `remove_column_by_name` update the receiver's `value` set in place before wrapping it again (prep2dbt/models/node.py:75-92, 129-145). The model works on values, so it does not capture that aliasing. Every annotation chain calls `calculate_columns` and then `generate_statements` on the same flushed object (prep2dbt/converters/mixins/annotation_mixin.py:111-123, 149-159; prep2dbt/converters/container/converter.py:129-139). When a removal empties that object's set, `remove_column_by_name` returns unknown columns, but the object itself stays applicable with an empty set, and that emptied object is what the statement is built from. Three visible effects follow:
  - Remap: its statement removes the remapped column from the very set it was given (prep2dbt/converters/annotations/remap/remap.py:42-54), so later annotations in the chain see the columns without it.
  - RemoveColumns of [a] over columns {a}: the code's CTE has an empty select list, where the model's selects `*` (prep2dbt/converters/annotations/remove_columns/remove_columns.py:35-58).
  - KeepOnlyColumns of [b] over columns {a}: the code's CTE selects b, where the model's selects `*` (prep2dbt/converters/annotations/keep_only_columns/keep_only_columns.py:35-67).
  - SuperJoin across nodes: the join starts from the Left parent's own column object (prep2dbt/converters/superjoin/converter.py:146-158), which `get_all_parent_columns` hands out unchanged (prep2dbt/models/graph.py:91-102) and the pre-stage passes on when no before-annotation targets Left (prep2dbt/converters/mixins/annotation_mixin.py:37-55). `add` of a name already present replaces the column inside that set (prep2dbt/models/node.py:81-89). So with a loader whose fields are {a, a-1} (a-1 an int) feeding Left and a step with {a} feeding Right, the code rewrites the loader's stored a-1 as `("a-1", "string", "a")`: the loader's SQL then selects `a AS "a-1"` and its two yml files say "string". In the model the loader keeps its field columns.
- NodeMixins.PostSql: the after-annotations differ from the code in the three ways above. After an accepted Remap of column x, `[Remap x, FilterOperation]` over columns {x, y} gives a filter CTE that selects only y in the code and x and y in the model. A RemoveColumns that removes every column gives an empty select list in the code and `*` in the model. A KeepOnlyColumns that keeps none of the columns, only names missing ones, selects those names in the code and `*` in the model (prep2dbt/converters/mixins/annotation_mixin.py:149-159).
- NodeMixins.PreStatementsPerNamespace: the same three differences within one namespace's before-annotations (prep2dbt/converters/mixins/annotation_mixin.py:111-123).
- Steps.ContainerSql: the same three differences in the container's inner chain. After a Remap of x, the code's `final` selects x from a CTE that no longer has it, where the model selects x from a CTE that has it (prep2dbt/converters/container/converter.py:112-150).
- NodeMixins.Chain: the value-level chain that the three members above use. It has the same three differences: after an accepted Remap, after a RemoveColumns that empties the columns, and after a KeepOnlyColumns that keeps none of them.
- CoreServices.CalculateColumns: "a node whose columns were computed keeps its data, and every other node holds its converter's columns" does not hold in the code for a join's Left parent when the join adds a name Left already has: the join rewrites that parent's stored set in place (the SuperJoin bullet of "Shared mutable sets" above). The model leaves the parent as it was.
- CoreServices.Translate: the same difference. A join's Left parent ends, in the code, with the columns the join rewrote, not with its converter's columns; the model promises the converter's columns.
- CoreServices.UpdateFirstGeneration: "later generations change neither it nor its parents" does not hold in the code when a later join rewrites this node's set in place as its Left parent.
- CoreServices.UpdateGenerationsComputes: the same difference for a node of any generation that a later join reads as its Left parent.
- CoreServices.UpdateGenerationsEffect: the same difference; a join's Left parent neither keeps its data nor holds its converter's columns in the code when the join adds a name it already has.
- Flow.Annotation: a `name` given as JSON null is encoded as `Some("")`. SQLAlchemy renders no comment for both, so the statements agree; only the fallback comment differs, ending in "None" in the code and in nothing in the model (prep2dbt/converters/annotations/mixins/unknown_annotation_mixin.py:54-61).
- CoreServices.UpdateAll: its own contract states the frame only: the columns of nodes not yet computed change, and nothing else does. The columns each visited node gets are stated by the lemma `CoreServices.UpdateAllComputes`, and the nodes the loop does not visit by `CoreServices.UpdateAllElsewhere`.
- CoreServices.UpdateGenerations: its own contract states the frame only. The columns every node gets are stated by `CoreServices.UpdateGenerationsComputes` and `CoreServices.UpdateGenerationsEffect`.
- Annotations.PerformStatements: its own contract only says that failures are fatal. The statement each converter builds is stated by the lemmas `Annotations.StatementsSelectColumns`, `Annotations.KeepOnlyContents`, `Annotations.ChangeTypeAgrees` and `Annotations.RemapReplacesColumn`, each of which gives `StatementsFor` for its converter.
