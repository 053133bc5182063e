// crates/montre-query/src/ast.rs: the parsed query.
module Ast {
  import opened Core

  datatype ConstraintOp = IsEq | IsNe

  datatype ConstraintValue = Literal(text: string) | Regex(pattern: string)

  datatype Constraint = Constraint(layer: string, op: ConstraintOp, value: ConstraintValue)

  datatype TokenPattern = TokenPattern(constraints: seq<Constraint>)

  datatype CmpOp = Ge | Gt | Le | Lt | Eq | Ne

  datatype LabelAttr = LabelAttr(name: string, attr: string)

  datatype GlobalConstraint =
    | SameAttr(left: LabelAttr, right: LabelAttr)
    | DifferentAttr(left: LabelAttr, right: LabelAttr)
    | Distance(from: string, to: string, op: CmpOp, value: nat)

  datatype Query =
    | Token(pattern: TokenPattern)
    | Sequence(parts: seq<Query>)
    | Repetition(inner: Query, min: nat, max: Option<nat>)
    | Or(alternatives: seq<Query>)
    | Within(inner: Query, spanLayer: string)
    | Capture(name: string, inner: Query)
    | WithinComponent(inner: Query, components: seq<string>)
    | WithinDocument(inner: Query, documents: seq<string>)
    | Project(inner: Query, alignment: string)
    | Constrained(inner: Query, constraints: seq<GlobalConstraint>)
}
