/**
 * The parts of a Tableau Prep flow file that the translator reads.
 *
 * A flow is JSON. Each object the translator looks into becomes a record here;
 * a key that the translator tests with `in` before using it is an `Option`
 * (absent = `None`), a key it reads without testing is a plain field, and keys
 * it never reads are not represented. JSON objects whose key order the
 * translator iterates (`fields` of ChangeColumnType, `values` of Remap, the
 * `nodes` of a container) are sequences in that order.
 */
module Flow {
  import opened Outcome

  /** One entry of a step's `nextNodes`: an edge to another step. */
  datatype NextNode = NextNode(namespace: string, nextNodeId: string, nextNamespace: string)

  /** One entry of ChangeColumnType's `fields`: the field and its optional `type` key. */
  datatype FieldChange = FieldChange(field: string, newType: Option<string>)

  /** One entry of Remap's `values`: the new value and the old values mapped to it. */
  datatype Bucket = Bucket(newValue: string, oldValues: seq<string>)

  /**
   * An annotation node: one column operation of a step or of a container.
   * `None` is an absent key; a `name` given as JSON null is read as `Some("")`,
   * since an empty comment and no comment render alike.
   */
  datatype Annotation = Annotation(
    nodeType: string,
    name: Option<string>,
    id: Option<string>,
    columnName: Option<string>,
    expression: Option<string>,
    rename: Option<string>,
    columnNames: Option<seq<string>>,
    fields: Option<seq<FieldChange>>,
    filterExpression: Option<string>,
    values: Option<seq<Bucket>>)

  /** An entry of `beforeActionAnnotations` / `afterActionAnnotations`. */
  datatype AnnotationRef = AnnotationRef(namespace: string, annotation: Annotation)

  /** A join condition of a SuperJoin's action node. */
  datatype Condition = Condition(leftExpression: string, rightExpression: string, comparator: string)

  /**
   * A group-by or aggregate field of a SuperAggregate's action node: the
   * column, its `function` key (here `aggregation`), and `newColumnName`,
   * which is null when the column keeps its name.
   */
  datatype AggregateField = AggregateField(columnName: string, aggregation: string, newColumnName: Option<string>)

  /** The `actionNode` of a SuperJoin or SuperAggregate step. */
  datatype ActionNode = ActionNode(
    conditions: Option<seq<Condition>>,
    joinType: Option<string>,
    groupByFields: Option<seq<AggregateField>>,
    aggregateFields: Option<seq<AggregateField>>)

  /** The `loomContainer` of a Container step; `nodes` in the order of the JSON object. */
  datatype LoomContainer = LoomContainer(nodes: Option<seq<Annotation>>)

  /** A field of an input step: the column name and its Tableau type. */
  datatype Field = Field(name: string, fieldType: string)

  /** A step (a value of the flow's `nodes` object). */
  datatype Step = Step(
    id: string,
    name: Option<string>,
    nodeType: string,
    nextNodes: Option<seq<NextNode>>,
    beforeActionAnnotations: Option<seq<AnnotationRef>>,
    afterActionAnnotations: Option<seq<AnnotationRef>>,
    actionNode: Option<ActionNode>,
    loomContainer: Option<LoomContainer>,
    fields: Option<seq<Field>>,
    hasConnectionAttributes: bool,
    hasRelation: bool)

  /** A flow file: its `nodes` object, in the order of the JSON object, when the key is present. */
  datatype FlowFile = FlowFile(nodes: Option<seq<Step>>)
}
