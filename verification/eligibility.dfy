/**
 * Which rows of the joined result a planned query's WHERE filter keeps,
 * stated row by row and independently of how the planner builds its
 * filter, and the facts that
 * follow: creation and update split the generic classes' rows, a create
 * query finds nothing once every row carries its marker, and the clocking
 * date bound is inclusive.
 */
module Eligibility {
  import opened Options
  import opened Dates
  import opened QueryPlans
  import opened Associations
  import opened QueryHelper

  /** The row has been migrated: its marker holds a new-store id. */
  predicate Migrated(t: Tuple) {
    Lookup(t, Marker(RootAlias)) != Null
  }

  /**
   * The eligibility rule of each class and action, on one row:
   * - a creation takes the rows not migrated yet;
   * - a TaskLog update takes the rows whose new task log is still open, or,
   *   when none is open, the rows without a task-log reference;
   * - a Pontaj update takes administrator-validated clockings without a
   *   clocking reference when nothing was validated yet, and otherwise those
   *   dated on or after the day of the latest validation;
   * - any other update takes the migrated rows.
   */
  predicate Eligible(cls: string, action: string, snap: Snapshot, t: Tuple) {
    if action != UpdateAction then
      !Migrated(t)
    else if cls == TaskLogClass then
      if |snap.openTaskLogIds| == 0 then Lookup(t, Column(RootAlias, "taskLogId")) == Null
      else Lookup(t, Marker(RootAlias)).Int? && Lookup(t, Marker(RootAlias)).i in snap.openTaskLogIds
    else if cls == PontajClass then
      && Lookup(t, Column(RootAlias, "pontajAdminValid")) == Int(1)
      && match snap.latestValidation
         case None => Lookup(t, Column(RootAlias, "pontajId")) == Null
         case Some(v) =>
           var date := Lookup(t, Column(RootAlias, "pontajDate"));
           date.DateValue? && (date.d == v.date || Before(v.date, date.d))
    else
      Migrated(t)
  }

  /** The row matches every caller condition `property => value`. */
  predicate MatchesCallerConditions(conds: seq<CallerCondition>, t: Tuple) {
    forall i :: 0 <= i < |conds| ==>
      Lookup(t, Column(RootAlias, conds[i].property)) != Null &&
      Lookup(t, Column(RootAlias, conds[i].property)) == conds[i].value
  }

  lemma ActionConjunctsMeanEligible(cls: string, action: string, snap: Snapshot, params: map<string, Value>, t: Tuple)
    requires action == UpdateAction && cls == PontajClass ==> params == map["valid" := Int(1)]
    ensures (forall p :: p in ActionConjuncts(action, cls, snap) ==> Eval(p, params, t)) <==> Eligible(cls, action, snap, t)
  {
    var ps := ActionConjuncts(action, cls, snap);
    if action == UpdateAction && cls == PontajClass {
      assert ps[0] in ps && ps[1] in ps;
      if snap.latestValidation.Some? {
        var d := Lookup(t, Column(RootAlias, "pontajDate"));
        if d.DateValue? {
          var v := snap.latestValidation.value.date;
          assert !Before(d.d, v) <==> (d.d == v || Before(v, d.d));
        }
      }
    } else {
      assert ps[0] in ps;
    }
  }

  /**
   * The WHERE filter of a query from `getQuery` holds on a row of the joined
   * result exactly when the row matches every caller condition and is
   * eligible for the action: the filter is the conjunction of the caller's
   * equalities and the action's rule, and nothing else. The joins' own
   * conditions are not part of this statement.
   */
  lemma GetQueryFilter(meta: Metadata, cls: string, action: string, maxResults: Option<int>,
                       select: Option<string>, conds: seq<CallerCondition>, snap: Snapshot, t: Tuple)
    ensures FilterHolds(GetQuery(meta, cls, action, maxResults, select, conds, snap), t) <==>
              MatchesCallerConditions(conds, t) && Eligible(cls, action, snap, t)
  {
    var r := GetQuery(meta, cls, action, maxResults, select, conds, snap);
    FilterSplits(r, conds, ActionConjuncts(action, cls, snap), t);
    ActionConjunctsMeanEligible(cls, action, snap, r.parameters, t);
  }

  /** A filter of caller equalities followed by `tail` holds when both parts hold. */
  lemma FilterSplits(r: QueryPlan, conds: seq<CallerCondition>, tail: seq<Predicate>, t: Tuple)
    requires |r.conjuncts| == |conds| + |tail|
    requires forall i :: 0 <= i < |conds| ==> r.conjuncts[i] == CallerConjunct(conds[i])
    requires r.conjuncts[|conds|..] == tail
    ensures FilterHolds(r, t) <==>
              MatchesCallerConditions(conds, t) && forall p :: p in tail ==> Eval(p, r.parameters, t)
  {
    assert forall i :: 0 <= i < |conds| ==>
      (Eval(r.conjuncts[i], r.parameters, t) <==>
         Lookup(t, Column(RootAlias, conds[i].property)) != Null &&
         Lookup(t, Column(RootAlias, conds[i].property)) == conds[i].value);
    forall p | p in tail ensures exists i :: |conds| <= i < |r.conjuncts| && r.conjuncts[i] == p {
      var k :| 0 <= k < |tail| && tail[k] == p;
      assert r.conjuncts[|conds| + k] == p;
    }
    forall i | |conds| <= i < |r.conjuncts| ensures r.conjuncts[i] in tail {
      assert r.conjuncts[i] == tail[i - |conds|];
    }
  }

  /**
   * For a class without a special update rule and with no caller
   * conditions, on every row of the joined result exactly one of the
   * creation filter and the update filter holds, whatever the new store
   * answers.
   */
  lemma CreateOrUpdateExclusive(meta: Metadata, cls: string, maxResults: Option<int>, select: Option<string>,
                                snap: Snapshot, t: Tuple)
    requires cls != TaskLogClass && cls != PontajClass
    ensures FilterHolds(GetQuery(meta, cls, "create", maxResults, select, [], snap), t) !=
            FilterHolds(GetQuery(meta, cls, UpdateAction, maxResults, select, [], snap), t)
  {
    GetQueryFilter(meta, cls, "create", maxResults, select, [], snap, t);
    GetQueryFilter(meta, cls, UpdateAction, maxResults, select, [], snap, t);
  }

  /**
   * A row that fails one of the caller conditions is kept by no query,
   * whatever the class and action; so with caller conditions, the split of
   * `CreateOrUpdateExclusive` covers only the rows that match them.
   */
  lemma CallerMismatchKeepsNothing(meta: Metadata, cls: string, action: string, maxResults: Option<int>,
                                   select: Option<string>, conds: seq<CallerCondition>, snap: Snapshot, t: Tuple)
    requires !MatchesCallerConditions(conds, t)
    ensures !FilterHolds(GetQuery(meta, cls, action, maxResults, select, conds, snap), t)
  {
    GetQueryFilter(meta, cls, action, maxResults, select, conds, snap, t);
  }

  /**
   * Idempotence of creation: once a row carries its marker, no creation
   * query selects it, whatever the class, selection and caller conditions.
   */
  lemma CreateSkipsMigratedRows(meta: Metadata, cls: string, action: string, maxResults: Option<int>,
                                select: Option<string>, conds: seq<CallerCondition>, snap: Snapshot, t: Tuple)
    requires action != UpdateAction
    requires Migrated(t)
    ensures !FilterHolds(GetQuery(meta, cls, action, maxResults, select, conds, snap), t)
  {
    GetQueryFilter(meta, cls, action, maxResults, select, conds, snap, t);
  }

  /**
   * The clocking update bound is inclusive: with latest validation on day
   * `D`, a validated clocking dated `D` is selected and one dated the day
   * before is not.
   */
  lemma ClockingBoundInclusive(meta: Metadata, maxResults: Option<int>, select: Option<string>,
                               openIds: seq<int>, latest: DateTime)
    requires Valid(latest.date)
    ensures FilterHolds(GetQuery(meta, PontajClass, UpdateAction, maxResults, select, [], Snapshot(openIds, Some(latest))),
                        map[Column(RootAlias, "pontajAdminValid") := Int(1),
                            Column(RootAlias, "pontajDate") := DateValue(latest.date)])
    ensures !FilterHolds(GetQuery(meta, PontajClass, UpdateAction, maxResults, select, [], Snapshot(openIds, Some(latest))),
                         map[Column(RootAlias, "pontajAdminValid") := Int(1),
                             Column(RootAlias, "pontajDate") := DateValue(DayBefore(latest.date))])
  {
    var snap := Snapshot(openIds, Some(latest));
    var onDay := map[Column(RootAlias, "pontajAdminValid") := Int(1),
                     Column(RootAlias, "pontajDate") := DateValue(latest.date)];
    var dayBefore := map[Column(RootAlias, "pontajAdminValid") := Int(1),
                         Column(RootAlias, "pontajDate") := DateValue(DayBefore(latest.date))];
    GetQueryFilter(meta, PontajClass, UpdateAction, maxResults, select, [], snap, onDay);
    GetQueryFilter(meta, PontajClass, UpdateAction, maxResults, select, [], snap, dayBefore);
    assert Lookup(dayBefore, Column(RootAlias, "pontajDate")) == DateValue(DayBefore(latest.date));
    assert Lookup(dayBefore, Column(RootAlias, "pontajAdminValid")) == Int(1);
  }

  /**
   * With no open task log, a TaskLog update falls back to the rows without a
   * task-log reference; it does not become an `IN` over nothing, which would
   * select no row at all.
   */
  lemma TaskLogFallback(meta: Metadata, maxResults: Option<int>, select: Option<string>,
                        latest: Option<DateTime>, t: Tuple)
    requires Lookup(t, Column(RootAlias, "taskLogId")) == Null
    ensures GetQuery(meta, TaskLogClass, UpdateAction, maxResults, select, [], Snapshot([], latest)).conjuncts ==
            [IsNull(Column(RootAlias, "taskLogId"))]
    ensures FilterHolds(GetQuery(meta, TaskLogClass, UpdateAction, maxResults, select, [], Snapshot([], latest)), t)
  {
    GetQueryFilter(meta, TaskLogClass, UpdateAction, maxResults, select, [], Snapshot([], latest), t);
  }

  /**
   * The two special update rules do not exclude creation: a row with no
   * marker and no task-log reference is selected both by a TaskLog creation
   * and by a TaskLog update while no task log is open.
   */
  lemma TaskLogFallbackOverlapsCreate(meta: Metadata, maxResults: Option<int>, select: Option<string>,
                                      latest: Option<DateTime>)
    ensures FilterHolds(GetQuery(meta, TaskLogClass, "create", maxResults, select, [], Snapshot([], latest)), map[])
    ensures FilterHolds(GetQuery(meta, TaskLogClass, UpdateAction, maxResults, select, [], Snapshot([], latest)), map[])
  {
    GetQueryFilter(meta, TaskLogClass, "create", maxResults, select, [], Snapshot([], latest), map[]);
    GetQueryFilter(meta, TaskLogClass, UpdateAction, maxResults, select, [], Snapshot([], latest), map[]);
  }
}
