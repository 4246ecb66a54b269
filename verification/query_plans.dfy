/**
 * A read query against the legacy store, as a value: what Doctrine's
 * `QueryBuilder` accumulates, without the DQL text. Predicates are given a
 * meaning over one row of the joined result (`Tuple`), so that what a plan
 * selects can be compared with the eligibility rules it is meant to encode.
 */
module QueryPlans {
  import opened Options
  import opened Dates

  /** The alias of the scanned class; every query is built as `createQueryBuilder('o')`. */
  const RootAlias := "o"

  /** The migration marker: the new-store id written back into a legacy row once it is migrated. */
  const MarkerField := "newId"

  /** `alias.field` */
  datatype Column = Column(alias: string, field: string)

  function Marker(alias: string): Column {
    Column(alias, MarkerField)
  }

  /** A column value of one result row; SQL `NULL` is `Null`. */
  datatype Value = Null | Int(i: int) | Text(s: string) | DateValue(d: Date)

  datatype Predicate =
    | IsNull(col: Column)
    | IsNotNull(col: Column)
      /** `col IN (ids)` */
    | InList(col: Column, ids: seq<int>)
      /** `col >= bound`, the bound a calendar day */
    | AtLeast(col: Column, bound: Date)
      /** `col = :param` */
    | EqualsParam(col: Column, param: string)
      /** `col= literal`, the caller's literal spliced in */
    | EqualsLiteral(col: Column, literal: Value)

  /** `INNER JOIN path alias WITH condition` */
  datatype Join = Join(path: Column, alias: string, condition: Predicate)

  datatype Selection =
      /** the whole root entity, the projection `createQueryBuilder('o')` starts with */
    | Root
      /** `count(col)` */
    | Count(col: Column)
      /** `SELECT DISTINCT col as groupId` */
    | GroupKey(col: Column)
      /** the caller's select expression, verbatim */
    | Raw(expr: string)

  /** The filter is the conjunction of `conjuncts`, in the order they were added. */
  datatype QueryPlan = QueryPlan(
    root: string,
    joins: seq<Join>,
    selection: Selection,
    conjuncts: seq<Predicate>,
    maxResults: Option<int>,
    parameters: map<string, Value>)

  /** One row of the joined result, by column; a missing column reads as `NULL`. */
  type Tuple = map<Column, Value>

  function Lookup(t: Tuple, c: Column): Value {
    if c in t then t[c] else Null
  }

  /** SQL truth of a predicate on a row; a comparison with `NULL` is not true. */
  predicate Eval(p: Predicate, params: map<string, Value>, t: Tuple) {
    var v := Lookup(t, p.col);
    match p
    case IsNull(_) => v == Null
    case IsNotNull(_) => v != Null
    case InList(_, ids) => v.Int? && v.i in ids
    case AtLeast(_, bound) => v.DateValue? && !Before(v.d, bound)
    case EqualsParam(_, name) => v != Null && name in params && v == params[name]
    case EqualsLiteral(_, literal) => v != Null && v == literal
  }

  /** The row satisfies every conjunct of the plan's filter. */
  predicate FilterHolds(plan: QueryPlan, t: Tuple) {
    forall i :: 0 <= i < |plan.conjuncts| ==> Eval(plan.conjuncts[i], plan.parameters, t)
  }
}
