/**
 * The query planner (`QueryHelper`): from a class name, an action, an
 * optional row cap, a selection and caller conditions, the plan of the read
 * query against the legacy store.
 *
 * Doctrine's metadata and the new store's answers are parameters: `Metadata`
 * stands for `getClassMetaData`, `Snapshot` for the two repository lookups
 * made while the filter is built.
 */
module QueryHelper {
  import opened Options
  import opened Collections
  import opened PhpSemantics
  import opened Dates
  import opened QueryPlans
  import opened Associations

  const UpdateAction := "update"
  const CountSelection := "count"
  /** The one association whose joined row must itself still be unmigrated. */
  const PontajResourcePontajField := "pontajResourcePontaj"

  /** The legacy store's class metadata. */
  datatype Metadata = Metadata(
    /** `getIdentifier()[0]` of a class */
    firstIdentifier: string -> string,
    /** the field names `getAssociationsByTargetClass(target)` returns for a class, in order */
    associationFields: (string, string) -> seq<string>)

  /** What the new store answered while the filter was built. */
  datatype Snapshot = Snapshot(
    /** `getTaskLogsIds(false)`: ids of task logs not yet validated */
    openTaskLogIds: seq<int>,
    /** `getLatestValidationDate()` */
    latestValidation: Option<DateTime>)

  /** One `property => value` entry of the caller's conditions. */
  datatype CallerCondition = CallerCondition(property: string, value: Value)

  // ---------------------------------------------------------------- joins

  /**
   * A join is an inner join from the root along one of its fields, filtered
   * on the joined row's migration marker: unset for `pontajResourcePontaj`,
   * set for every other field.
   */
  predicate FollowsJoinPolicy(j: Join) {
    && j.path.alias == RootAlias
    && (j.condition == IsNull(Marker(j.alias)) || j.condition == IsNotNull(Marker(j.alias)))
    && (j.condition.IsNull? <==> j.path.field == PontajResourcePontajField)
  }

  /** The aliases the joins introduce, in join order. */
  function JoinAliases(joins: seq<Join>): seq<string> {
    seq(|joins|, i requires 0 <= i < |joins| => joins[i].alias)
  }

  /**
   * The join one table entry contributes, if the metadata knows a field of
   * `cls` that targets the entry's class. The policy is keyed on the first
   * such field, and so is the join path.
   *
   * The source keys its switch on `reset($association)['fieldName']` but
   * builds the path from `$association['fieldName']`, a lookup in the array
   * keyed by field name; see `JoinPathAsWritten` for what that produces.
   */
  function JoinFor(meta: Metadata, cls: string, a: Association): (r: Option<Join>)
    ensures r.Some? <==> |meta.associationFields(cls, a.target)| > 0
    ensures r.Some? ==>
              && r.value.alias == a.alias
              && r.value.path == Column(RootAlias, meta.associationFields(cls, a.target)[0])
              && FollowsJoinPolicy(r.value)
  {
    var fields := meta.associationFields(cls, a.target);
    if |fields| == 0 then None
    else
      var fieldName := fields[0];
      var path := Column(RootAlias, fieldName);
      if fieldName == PontajResourcePontajField then
        Some(Join(path, a.alias, IsNull(Marker(a.alias))))
      else
        Some(Join(path, a.alias, IsNotNull(Marker(a.alias))))
  }

  /** The joins of the `foreach` over the table entries, in table order. */
  function Joins(meta: Metadata, cls: string, assocs: seq<Association>): (r: seq<Join>)
    ensures IsSubsequence(JoinAliases(r), AliasesOf(assocs))
    ensures forall j :: j in r ==> FollowsJoinPolicy(j)
    ensures forall j :: j in r ==> exists a :: a in assocs && JoinFor(meta, cls, a) == Some(j)
    ensures forall a :: a in assocs && JoinFor(meta, cls, a).Some? ==> JoinFor(meta, cls, a).value in r
  {
    if |assocs| == 0 then []
    else
      var rest := Joins(meta, cls, assocs[1..]);
      assert AliasesOf(assocs)[1..] == AliasesOf(assocs[1..]);
      match JoinFor(meta, cls, assocs[0])
      case None => rest
      case Some(j) =>
        assert JoinAliases([j] + rest)[1..] == JoinAliases(rest);
        [j] + rest
  }

  /**
   * `createQueryBuilder`: a scan of `cls` under alias `o`, with one inner
   * join per table entry the metadata resolves, in table order and with
   * distinct aliases. An entry the metadata does not resolve is skipped.
   */
  function CreateQueryBuilder(meta: Metadata, cls: string): (r: QueryPlan)
    ensures r.root == cls && r.selection == Root && r.conjuncts == []
    ensures r.maxResults == None && r.parameters == map[]
    ensures IsSubsequence(JoinAliases(r.joins), AliasesOf(GetAssociations(cls)))
    ensures NoDuplicates(JoinAliases(r.joins))
    ensures forall j :: j in r.joins ==> FollowsJoinPolicy(j)
    ensures forall j :: j in r.joins ==> exists a :: a in GetAssociations(cls) && JoinFor(meta, cls, a) == Some(j)
    ensures forall a :: a in GetAssociations(cls) ==>
              (a.alias in JoinAliases(r.joins) <==> |meta.associationFields(cls, a.target)| > 0)
  {
    var assocs := GetAssociations(cls);
    var joins := Joins(meta, cls, assocs);
    SubsequenceOfDistinct(JoinAliases(joins), AliasesOf(assocs));
    forall a | a in assocs
      ensures a.alias in JoinAliases(joins) <==> |meta.associationFields(cls, a.target)| > 0
    {
      if a.alias in JoinAliases(joins) {
        var i :| 0 <= i < |joins| && JoinAliases(joins)[i] == a.alias;
        var b :| b in assocs && JoinFor(meta, cls, b) == Some(joins[i]);
        AliasDeterminesAssociation(cls, a, b);
      }
      if |meta.associationFields(cls, a.target)| > 0 {
        var j := JoinFor(meta, cls, a).value;
        var i :| 0 <= i < |joins| && joins[i] == j;
        assert JoinAliases(joins)[i] == a.alias;
      }
    }
    QueryPlan(cls, joins, Root, [], None, map[])
  }

  // ------------------------------------------------------------ selection

  /** The arm of `addSelect`'s `switch ($select)` a selection lands in. */
  datatype SelectArm = CountArm | AssociationArm | DefaultArm

  /**
   * The switch compares loosely: its second case label is the boolean
   * `preg_match(...) == 1`, so besides every selection naming an entity, a
   * falsy selection (`null`, `""`, `"0"`) equals the label `false` and also
   * lands in the association arm. The rest fall to the default arm.
   */
  function SwitchArm(select: Option<string>): (arm: SelectArm)
    ensures arm == CountArm <==> select == Some(CountSelection)
    ensures arm == AssociationArm <==> MatchesEntityPattern(select) || !Truthy(select)
    ensures arm == DefaultArm <==>
              Truthy(select) && select != Some(CountSelection) && !MatchesEntityPattern(select)
  {
    EntityMatchIsTruthy(select);
    if select == Some(CountSelection) then CountArm
    else if LooseEqualsBool(select, MatchesEntityPattern(select)) then AssociationArm
    else DefaultArm
  }

  /** The alias of the first entry of `assocs` that joins `target`. */
  function FirstAliasFor(assocs: seq<Association>, target: string): (alias: string)
    requires IsTarget(assocs, target)
    ensures exists i :: 0 <= i < |assocs| && assocs[i].target == target && assocs[i].alias == alias &&
                        forall k :: 0 <= k < i ==> assocs[k].target != target
  {
    if assocs[0].target == target then assocs[0].alias
    else
      assert IsTarget(assocs[1..], target) by {
        var a :| a in assocs && a.target == target;
        assert a in assocs[1..];
      }
      var alias := FirstAliasFor(assocs[1..], target);
      ghost var i :| 0 <= i < |assocs[1..]| && assocs[1..][i].target == target && assocs[1..][i].alias == alias &&
                     forall k :: 0 <= k < i ==> assocs[1..][k].target != target;
      assert assocs[i + 1].target == target && assocs[i + 1].alias == alias;
      assert forall k :: 0 <= k < i + 1 ==> assocs[k].target != target by {
        forall k | 0 <= k < i + 1 ensures assocs[k].target != target {
          if k > 0 {
            assert assocs[k] == assocs[1..][k - 1];
          }
        }
      }
      alias
  }

  /**
   * `getAssociationSelect`: when the selection is the target class of one of
   * `cls`'s table entries, project that class's first identifier through the
   * first alias joining it, as a distinct `groupId`; otherwise the plan is
   * left as it was. `in_array` compares loosely, but the targets are
   * non-numeric, non-empty strings, so only the exact name matches.
   */
  function AssociationSelect(plan: QueryPlan, meta: Metadata, cls: string, select: Option<string>): (r: QueryPlan)
    ensures r == plan.(selection := r.selection)
    ensures select.Some? && IsTarget(GetAssociations(cls), select.value) ==>
              r.selection == GroupKey(Column(FirstAliasFor(GetAssociations(cls), select.value),
                                             meta.firstIdentifier(select.value)))
    ensures !(select.Some? && IsTarget(GetAssociations(cls), select.value)) ==> r == plan
    ensures r.selection != plan.selection ==>
              r.selection.GroupKey? && r.selection.col.alias in AliasesOf(GetAssociations(cls))
  {
    var assocs := GetAssociations(cls);
    if select.Some? && IsTarget(assocs, select.value) then
      var alias := FirstAliasFor(assocs, select.value);
      ghost var i :| 0 <= i < |assocs| && assocs[i].alias == alias;
      assert AliasesOf(assocs)[i] == alias;
      plan.(selection := GroupKey(Column(alias, meta.firstIdentifier(select.value))))
    else
      plan
  }

  /**
   * `addSelect`: a count of the root's first identifier for `"count"`; the
   * group key of a joined entity for a selection naming one of the joined
   * classes; the selection verbatim for any other truthy string. An entity
   * name that is not joined, and a falsy selection, leave the projection as
   * it was. Nothing but the projection changes.
   */
  function AddSelect(plan: QueryPlan, meta: Metadata, cls: string, select: Option<string>): (r: QueryPlan)
    ensures r == plan.(selection := r.selection)
    ensures select == Some(CountSelection) ==>
              r.selection == Count(Column(RootAlias, meta.firstIdentifier(cls)))
    ensures MatchesEntityPattern(select) && IsTarget(GetAssociations(cls), select.value) ==>
              r.selection == GroupKey(Column(FirstAliasFor(GetAssociations(cls), select.value),
                                             meta.firstIdentifier(select.value)))
    ensures (MatchesEntityPattern(select) && !IsTarget(GetAssociations(cls), select.value)) || !Truthy(select) ==>
              r.selection == plan.selection
    ensures Truthy(select) && select != Some(CountSelection) && !MatchesEntityPattern(select) ==>
              r.selection == Raw(select.value)
  {
    match SwitchArm(select)
    case CountArm => plan.(selection := Count(Column(RootAlias, meta.firstIdentifier(cls))))
    case AssociationArm => AssociationSelect(plan, meta, cls, select)
    case DefaultArm => plan.(selection := Raw(select.value))
  }

  // ------------------------------------------------------------- filters

  /** `$qb->andWhere($condition)` */
  function AndWhere(plan: QueryPlan, condition: Predicate): (r: QueryPlan)
    ensures r == plan.(conjuncts := r.conjuncts)
    ensures r.conjuncts == plan.conjuncts + [condition]
  {
    plan.(conjuncts := plan.conjuncts + [condition])
  }

  /** The conjunct `o.<property>= <value>` of one caller condition. */
  function CallerConjunct(c: CallerCondition): Predicate {
    EqualsLiteral(Column(RootAlias, c.property), c.value)
  }

  /**
   * The `foreach` over the caller's conditions: one equality conjunct per
   * condition, appended in order after the conjuncts already present.
   */
  function AddCallerConditions(plan: QueryPlan, conds: seq<CallerCondition>): (r: QueryPlan)
    ensures r == plan.(conjuncts := r.conjuncts)
    ensures |r.conjuncts| == |plan.conjuncts| + |conds|
    ensures r.conjuncts[..|plan.conjuncts|] == plan.conjuncts
    ensures forall i :: 0 <= i < |conds| ==> r.conjuncts[|plan.conjuncts| + i] == CallerConjunct(conds[i])
    decreases |conds|
  {
    if |conds| == 0 then plan
    else
      var next := AndWhere(plan, CallerConjunct(conds[0]));
      var r := AddCallerConditions(next, conds[1..]);
      assert r.conjuncts[..|plan.conjuncts|] == next.conjuncts[..|next.conjuncts|][..|plan.conjuncts|];
      assert forall i :: 1 <= i < |conds| ==> conds[i] == conds[1..][i - 1];
      r
  }

  /**
   * `getTaskLogCondition`: re-scan the rows whose new task log is still
   * open; when none is open, fall back to rows without a task-log reference.
   * The result is never an `IN` over an empty list.
   */
  function TaskLogCondition(openIds: seq<int>): (p: Predicate)
    ensures |openIds| == 0 <==> p == IsNull(Column(RootAlias, "taskLogId"))
    ensures |openIds| > 0 <==> p == InList(Marker(RootAlias), openIds)
    ensures p.InList? ==> |p.ids| > 0
  {
    if |openIds| == 0 then IsNull(Column(RootAlias, "taskLogId"))
    else InList(Marker(RootAlias), openIds)
  }

  /** `o.pontajAdminValid = :valid`, added by the clocking condition before anything else. */
  const AdminValidConjunct := EqualsParam(Column(RootAlias, "pontajAdminValid"), "valid")

  /**
   * `getClockingCondition`: first restricts the plan to administrator-validated
   * clockings (binding `valid` to 1), then returns the date condition: the
   * first-ever migration takes clockings without a reference, later ones take
   * clockings dated on or after the day of the latest validation.
   *
   * The source passes the date to `gte` as its `Y-m-d` text; the model keeps
   * the day itself (the time of day is dropped as the format drops it).
   */
  function ClockingCondition(plan: QueryPlan, latest: Option<DateTime>): (r: (QueryPlan, Predicate))
    ensures r.0 == plan.(conjuncts := plan.conjuncts + [AdminValidConjunct],
                         parameters := plan.parameters["valid" := Int(1)])
    ensures latest.None? <==> r.1 == IsNull(Column(RootAlias, "pontajId"))
    ensures latest.Some? ==> r.1 == AtLeast(Column(RootAlias, "pontajDate"), latest.value.date)
  {
    var qb := AndWhere(plan, AdminValidConjunct).(parameters := plan.parameters["valid" := Int(1)]);
    match latest
    case None => (qb, IsNull(Column(RootAlias, "pontajId")))
    case Some(d) => (qb, AtLeast(Column(RootAlias, "pontajDate"), d.date))
  }

  /**
   * `getUpdateCondition`: TaskLog and Pontaj have their own rules; every
   * other class is updated only once migrated, i.e. with its marker set.
   * Only the clocking rule touches the plan.
   */
  function UpdateCondition(plan: QueryPlan, cls: string, snap: Snapshot): (r: (QueryPlan, Predicate))
    ensures cls == TaskLogClass ==> r == (plan, TaskLogCondition(snap.openTaskLogIds))
    ensures cls == PontajClass ==> r == ClockingCondition(plan, snap.latestValidation)
    ensures cls != TaskLogClass && cls != PontajClass ==> r == (plan, IsNotNull(Marker(RootAlias)))
  {
    if cls == TaskLogClass then (plan, TaskLogCondition(snap.openTaskLogIds))
    else if cls == PontajClass then ClockingCondition(plan, snap.latestValidation)
    else (plan, IsNotNull(Marker(RootAlias)))
  }

  /**
   * The conjuncts an action contributes, read off the branch rules of
   * `addCondition`, `getUpdateCondition`, `getTaskLogCondition` and
   * `getClockingCondition`. No conjunct is an `IN` over an empty list.
   */
  function ActionConjuncts(action: string, cls: string, snap: Snapshot): (ps: seq<Predicate>)
    ensures 1 <= |ps| <= 2
    ensures forall p :: p in ps ==> !(p.InList? && |p.ids| == 0)
  {
    if action != UpdateAction then [IsNull(Marker(RootAlias))]
    else if cls == TaskLogClass then [TaskLogCondition(snap.openTaskLogIds)]
    else if cls == PontajClass then
      match snap.latestValidation
      case None => [AdminValidConjunct, IsNull(Column(RootAlias, "pontajId"))]
      case Some(d) => [AdminValidConjunct, AtLeast(Column(RootAlias, "pontajDate"), d.date)]
    else [IsNotNull(Marker(RootAlias))]
  }

  /**
   * `addCondition`: appends the action's eligibility condition after every
   * conjunct already present. Any action other than `"update"` is a creation
   * and takes exactly the unmigrated rows.
   */
  function AddCondition(plan: QueryPlan, action: string, cls: string, snap: Snapshot): (r: QueryPlan)
    ensures r == plan.(conjuncts := r.conjuncts, parameters := r.parameters)
    ensures |r.conjuncts| > |plan.conjuncts| && r.conjuncts[..|plan.conjuncts|] == plan.conjuncts
    ensures action != UpdateAction ==>
              r.conjuncts == plan.conjuncts + [IsNull(Marker(RootAlias))] && r.parameters == plan.parameters
    ensures action == UpdateAction && cls != TaskLogClass && cls != PontajClass ==>
              r.conjuncts == plan.conjuncts + [IsNotNull(Marker(RootAlias))] && r.parameters == plan.parameters
    ensures action == UpdateAction && cls == TaskLogClass ==>
              r.conjuncts == plan.conjuncts + [TaskLogCondition(snap.openTaskLogIds)] && r.parameters == plan.parameters
    ensures action == UpdateAction && cls == PontajClass ==>
              && r.conjuncts == plan.conjuncts + [AdminValidConjunct, ClockingCondition(plan, snap.latestValidation).1]
              && r.parameters == plan.parameters["valid" := Int(1)]
    ensures r.conjuncts == plan.conjuncts + ActionConjuncts(action, cls, snap)
  {
    var (qb, condition) :=
      if action == UpdateAction then UpdateCondition(plan, cls, snap)
      else (plan, IsNull(Marker(RootAlias)));
    AndWhere(qb, condition)
  }

  // ------------------------------------------------------------- getQuery

  /** `!empty($maxResults)` for an integer or `null` cap. */
  function EffectiveLimit(maxResults: Option<int>): (limit: Option<int>)
    ensures limit.Some? <==> maxResults.Some? && maxResults.value != 0
    ensures limit.Some? ==> limit == maxResults
  {
    if maxResults.Some? && maxResults.value != 0 then maxResults else None
  }

  /**
   * `getQuery`: the joins of `createQueryBuilder`, the projection of
   * `addSelect`, the cap when it is non-empty, then the caller's equalities
   * in order, then the action's condition last. Only the clocking update
   * binds a parameter, and no conjunct is an `IN` over an empty list.
   */
  function GetQuery(meta: Metadata, cls: string, action: string, maxResults: Option<int>,
                    select: Option<string>, conds: seq<CallerCondition>, snap: Snapshot): (r: QueryPlan)
    ensures r.root == cls
    ensures r.joins == CreateQueryBuilder(meta, cls).joins
    ensures r.selection == AddSelect(CreateQueryBuilder(meta, cls), meta, cls, select).selection
    ensures r.maxResults == EffectiveLimit(maxResults)
    ensures |r.conjuncts| == |conds| + |ActionConjuncts(action, cls, snap)|
    ensures forall i :: 0 <= i < |conds| ==> r.conjuncts[i] == CallerConjunct(conds[i])
    ensures r.conjuncts[|conds|..] == ActionConjuncts(action, cls, snap)
    ensures r.parameters == if action == UpdateAction && cls == PontajClass then map["valid" := Int(1)] else map[]
    ensures forall p :: p in r.conjuncts ==> !(p.InList? && |p.ids| == 0)
  {
    var qb := CreateQueryBuilder(meta, cls);
    var qb := AddSelect(qb, meta, cls, select);
    var qb := qb.(maxResults := EffectiveLimit(maxResults));
    var qb := AddCallerConditions(qb, conds);
    var r := AddCondition(qb, action, cls, snap);
    CallersThenAction(r.conjuncts, conds, ActionConjuncts(action, cls, snap));
    r
  }

  lemma CallersThenAction(ps: seq<Predicate>, conds: seq<CallerCondition>, tail: seq<Predicate>)
    requires |ps| == |conds| + |tail|
    requires forall i :: 0 <= i < |conds| ==> ps[i] == CallerConjunct(conds[i])
    requires ps[|conds|..] == tail
    requires forall p :: p in tail ==> !(p.InList? && |p.ids| == 0)
    ensures forall p :: p in ps ==> !(p.InList? && |p.ids| == 0)
  {
    forall p | p in ps ensures !(p.InList? && |p.ids| == 0) {
      var i :| 0 <= i < |ps| && ps[i] == p;
      if i >= |conds| {
        assert p == tail[i - |conds|];
      }
    }
  }

  // ------------------------------------------------- the join path as written

  /**
   * The join path the source actually builds: `o.` followed by the entry
   * `fieldName` of the array `getAssociationsByTargetClass` returns. That
   * array is keyed by field name, so unless a field is literally called
   * `fieldName` the lookup is `null` and the path is `o.`; if one is, the
   * entry is that field's mapping array, which formats as `Array`.
   */
  function JoinPathAsWritten(fields: seq<string>): string {
    if "fieldName" in fields then RootAlias + ".Array" else RootAlias + "."
  }

  /**
   * For any resolved association whose field names are ordinary, the path
   * the source builds does not name the field its switch was keyed on; the
   * `pontajResourcePontaj` join becomes a join on `o.`.
   */
  lemma JoinPathAsWrittenLosesField(fields: seq<string>)
    requires |fields| > 0 && fields[0] != "" && "fieldName" !in fields
    ensures JoinPathAsWritten(fields) != RootAlias + "." + fields[0]
    ensures JoinPathAsWritten([PontajResourcePontajField]) == "o."
  {
    assert |JoinPathAsWritten(fields)| < |RootAlias + "." + fields[0]|;
  }
}
