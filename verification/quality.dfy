/** The vocabulary of an analysis: quality attribute tags, the quality tree a
    report carries, and the caller's preferences and constraints. The tree is
    built and ranked by collaborators outside this model, so nothing here
    interprets it. */
module Quality {

  /** The 18 attribute tags, in declaration order. */
  datatype QualityAttribute =
    | Quality
    | Comprehension
    | Simplicity
    | Maintainability
    | Reliability
    | Complexity
    | Security
    | CommentRate
    | MethodSize
    | Duplication
    | BugSeverity
    | TechnicalDebtRatio
    | ReliabilityRemediationEffort
    | CyclomaticComplexity
    | CognitiveComplexity
    | VulnerabilitySeverity
    | HotspotPriority
    | SecurityRemediationEffort

  /** One node of a report's quality tree. */
  datatype QualityMetricNode =
    QualityMetricNode(attribute: QualityAttribute, value: real, children: seq<QualityMetricNode>)

  /** A weight the caller puts on an attribute. */
  datatype Preference = Preference(attribute: QualityAttribute, weight: real)

  datatype Operator = Less | LessEqual | Greater | GreaterEqual | Equal

  /** A threshold the caller puts on an attribute. */
  datatype Constraint = Constraint(attribute: QualityAttribute, operator: Operator, threshold: real)
}
