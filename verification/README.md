# Legacy-to-new-schema migration: query planner and daily-clocking fan-out

This project models two pieces of decision logic in a migration tool. The tool copies records from a legacy
database (the "old" store) into a new schema (the "new" store).

**The query planner (`QueryHelper`).** It takes an entity class name, an action (`create` or `update`), an
optional row cap, a selection and the caller's equality conditions. From these it builds the read query
against the old store. The model returns that query as a `QueryPlan` value with these parts:
- the root class, scanned under the alias `o`;
- the inner joins, taken from a fixed association table. Each join is filtered on the joined row's
  migration marker (`newId`): `IS NULL` for the `pontajResourcePontaj` association and `IS NOT NULL` for
  every other one;
- the projection: a count, a distinct `groupId` of a joined entity, or the caller's expression verbatim;
- the filter, as an ordered list of conjuncts: the caller's equalities first, then the class- and
  action-specific eligibility rule;
- the row cap and the bound parameters.

Two answers from the new store are parameters (`Snapshot`): the ids of task logs that are not validated yet,
and the latest clocking validation date. The legacy class metadata is a parameter too (`Metadata`). It gives
each class's first identifier and the fields that link one class to another.

Predicates have a row-level meaning (`QueryPlans.Eval`). This lets the model compare the filter `getQuery`
builds with an independent statement of which rows each class and action should select
(`Eligibility.Eligible`).

**The daily-clocking fan-out (`UserDailyClockingAdapter`).** One legacy monthly clocking resource becomes
one new daily clocking record per day listed in its serialized details. Each record has:
- the resolved user;
- the monthly date with its day replaced, using PHP's day-overflow rules;
- a validation timestamp chosen by a three-way rule.

The records are returned as a list, not persisted.

Modules: `Options`, `Collections`, `PhpSemantics` (truthiness, loose `==`, the `/.*?Entity.*?/` match) in
`common.dfy`; `Dates`; `QueryPlans`; `Associations`; `QueryHelper`; `Eligibility`; `UserDailyClocking`.

Points where the code's behaviour is easy to misread:
- The row cap is applied whenever it is non-empty (`!empty`), so a negative cap is applied too. The cap is
  not limited to positive values.
- PHP's `switch` compares loosely, so a selection of `"0"` takes the association arm, just like `null` and
  `""`. It leaves the projection unchanged.
- A selection that is neither `count` nor entity-like is passed through verbatim only when it is truthy.
  `null` never reaches the raw arm.
- If there is no last action, the validation fallback is the monthly date moved one month forward. It keeps
  its day when the following month has that day; otherwise the excess days run on into the month after
  (January 31 gives March 3, or March 2 in a leap year). The method's doc comment calls the result "the
  next month" (UserDailyClockingAdapter.php:41-43), but it is the first of that month only when the monthly
  date is the 1st.
- The WHERE filters of creation and update can both hold on one row in two cases:
  - a TaskLog update while no task log is open (`Eligibility.TaskLogFallbackOverlapsCreate`);
  - a Pontaj update.

  Only for the other classes do the two filters split the rows of the joined result exactly.

## Model

| member | source | states |
|---|---|---|
| Associations.GetAssociations | test.php:241-272 | The association table has unique aliases within each class, and every join target contains `Entity`, as the `/.*?Entity.*?/` match requires. Exactly Holiday, UserProfile, UserUnit, Contact, PontajResource, Project, TaskLog and the fully qualified Task class have joins; every other class has none. |
| Associations.AliasDeterminesAssociation | test.php:245-270 | Within one class's entry, an alias identifies a single association. |
| Associations.TaskEntryKeyedByFullName | test.php:268-269 | The Task entry is keyed by `Pitech\MigrationBundle\Entity\Task`. `PitechMigrationBundle:Task` gets no joins, while the fully qualified name joins Project as `p`. |
| QueryHelper.JoinFor | test.php:75-95 | An association yields a join exactly when the metadata lists a field for it. The join uses the entry's alias and the first field as its path. Its WITH clause is `alias.newId IS NULL` exactly when that field is `pontajResourcePontaj`, and `IS NOT NULL` otherwise. |
| QueryHelper.Joins | test.php:74-97 | The join aliases appear in table order and form a subsequence of the declared aliases. Every join obeys the NULL/NOT NULL policy and comes from a declared entry. Every entry the metadata resolves is joined. |
| QueryHelper.CreateQueryBuilder | test.php:69-100 | The builder starts from a scan of the class under `o` with the root projection, no conjuncts, no cap and no parameters. It has at most one join per alias, in declaration order. A declared alias is joined exactly when its association resolves, so unresolved ones are skipped silently. Every join is the one `JoinFor` gives for a declared entry, so its path and its NULL/NOT NULL condition come from that entry's first metadata field. |
| QueryHelper.SwitchArm | test.php:115-125 | With loose comparison, only `"count"` reaches the count arm. Every entity-like string, and every falsy selection (`null`, `""`, `"0"`), reaches the association arm. Every other string reaches the default arm. |
| QueryHelper.FirstAliasFor | test.php:144-146 | Returns the alias of the first entry whose target is the selected class. |
| QueryHelper.AssociationSelect | test.php:140-150 | If the selection is a join target, the projection becomes `DISTINCT <first alias>.<target's first identifier> as groupId`, and the alias is a declared one. Otherwise the plan is unchanged. |
| QueryHelper.AddSelect | test.php:113-129 | `"count"` projects `count(o.<first identifier>)`. An entity-like join target projects its distinct group key. An entity-like non-target or a falsy selection leaves the projection unchanged. Any other string is selected verbatim. Only the projection changes. |
| QueryHelper.AddCallerConditions | test.php:52-54 | Appends one `o.<property>= <value>` conjunct per caller condition, in order, after the existing conjuncts, which stay as they were. |
| QueryHelper.TaskLogCondition | test.php:206-213 | With no open task log, the condition is `o.taskLogId IS NULL`. Otherwise it is `o.newId IN ids`. It is never `IN` of an empty list. |
| QueryHelper.ClockingCondition | test.php:222-232 | The plan first gets `o.pontajAdminValid = :valid` with `valid = 1`. The returned condition is `o.pontajId IS NULL` when there is no latest validation, and `o.pontajDate >= <day of the latest validation>` otherwise. |
| QueryHelper.UpdateCondition | test.php:183-197 | TaskLog and Pontaj use their own rules. Every other class gets exactly `o.newId IS NOT NULL`, and the plan is untouched. |
| QueryHelper.ActionConjuncts | test.php:161-232 | Gives the one or two conjuncts each action and class contributes. None of them is an empty `IN`. |
| QueryHelper.AddCondition | test.php:161-173 | Appends the action's condition after all existing conjuncts. Any action other than `update` adds exactly `o.newId IS NULL`. An update adds its class's rule, and for Pontaj the admin-valid conjunct and the `valid` parameter come first. |
| QueryHelper.EffectiveLimit | test.php:48-50 | The cap is set exactly when it is given and non-zero (`!empty`). |
| QueryHelper.GetQuery | test.php:43-59 | The plan keeps the joins of `createQueryBuilder` and the projection of `addSelect`. The cap is applied only when non-empty. Next come the caller's equalities in order, then the action's conjuncts. Only a Pontaj update binds a parameter, and no conjunct is an empty `IN`. |
| QueryHelper.JoinPathAsWrittenLosesField | test.php:77-92 | As written, the join path `o.` + `$association['fieldName']` never names the field the switch keys on. The `pontajResourcePontaj` join is built on `o.`. |
| Eligibility.ActionConjunctsMeanEligible | test.php:161-232 | The action's conjuncts hold on a row exactly when the row is eligible under the class's rule. |
| Eligibility.GetQueryFilter | test.php:43-58 | The WHERE filter of a `getQuery` plan holds on a row of the joined result exactly when the row matches every caller condition and is eligible for the action. The filter is the conjunction of these and nothing else. |
| Eligibility.CreateOrUpdateExclusive | test.php:163-196 | For a class without a special rule and with no caller conditions, on each row of the joined result exactly one of the create filter and the update filter holds. |
| Eligibility.CallerMismatchKeepsNothing | test.php:52-54 | A row that fails a caller condition is kept by no query, for any class and action. With caller conditions, the create/update split therefore covers only the matching rows. |
| Eligibility.CreateSkipsMigratedRows | test.php:163-169 | Once a row has its marker set, no create query selects it, whatever the class, selection or caller conditions. |
| Eligibility.ClockingBoundInclusive | test.php:222-232 | For a Pontaj update with latest validation on day D, a validated clocking dated D is selected. One dated the day before is not. |
| Eligibility.TaskLogFallback | test.php:206-213 | With no open task log, a TaskLog update's filter is exactly `o.taskLogId IS NULL` and selects rows without a task-log reference. |
| Eligibility.TaskLogFallbackOverlapsCreate | test.php:163-213 | A row with neither a marker nor a task-log reference is selected both by a TaskLog create and by a TaskLog update while no task log is open. |
| Dates.Normalize | UserDailyClockingAdapter.php:72-77 | `setDate(y, m, d)` always yields a valid date. An in-range day keeps the year and month. A day past the month's end gives a date after the month's last day, and a day below 1 gives a date before the month's first day. |
| Dates.NextMonth | UserDailyClockingAdapter.php:55 | `modify('+1 month')` gives a valid date strictly after the original. When the day fits in the following month, the result is that day of the following month. |
| UserDailyClocking.GetDayAndHoursArray | UserDailyClockingAdapter.php:103-110 | Returns the payload's `hoursWorked` days when present, and no days when the key is missing or the payload is malformed. |
| UserDailyClocking.GetDateOfClocking | UserDailyClockingAdapter.php:70-78 | The record date is valid. For a day that exists in the month, it is the monthly date's year and month with that day. It is never before the first of the month for a positive day. |
| UserDailyClocking.GetValidationDate | UserDailyClockingAdapter.php:49-59 | There is no validation exactly when the month is not admin-validated. If it is validated with a last action, that timestamp is used. Without one, the result is midnight of the monthly date one month later, strictly after it. |
| UserDailyClocking.DailyRecords | UserDailyClockingAdapter.php:16-38 | There are no records when the user does not resolve. Otherwise there is one record per listed day, in order: record i has the user, the monthly date with the i-th listed day, and the shared validation date. |
| UserDailyClocking.Transform | UserDailyClockingAdapter.php:16-38 | Always returns true. If the user does not resolve, there are no records. Otherwise record i has the user, the monthly date with the i-th listed day, and the shared validation date, for exactly as many records as listed days. |
| UserDailyClocking.SharedValidation | UserDailyClockingAdapter.php:28-32 | All records of one call have the same user and the same validation date. |
| UserDailyClocking.DistinctDaysDistinctDates | UserDailyClockingAdapter.php:25-30 | Two distinct in-range days give two distinct record dates, both in the monthly date's year and month. |
| UserDailyClocking.HoursNotCopied | UserDailyClockingAdapter.php:25-33 | The hours do not affect the records: payloads that list the same days produce the same records. |
| UserDailyClocking.FanOutExample | UserDailyClockingAdapter.php:20-34 | Days {3: 8, 15: 4} of a validated March 2023 clocking dated the 1st give two records, dated the 3rd and the 15th, both validated at 2023-04-01. |
| UserDailyClocking.LastActionExample | UserDailyClockingAdapter.php:53-54 | A validated month with last action 2023-03-10 14:00 is validated at exactly that timestamp. |
| UserDailyClocking.NoDaysNoRecords | UserDailyClockingAdapter.php:103-110 | A malformed payload, or one without `hoursWorked`, produces no records. |

## Left out

- Doctrine's `EntityManager` and `QueryBuilder` are not modelled, and neither is DQL text rendering. Joins,
  predicates and projections are datatypes.
- The repository lookups are parameters rather than calls: `getTaskLogsIds(false)`,
  `getLatestValidationDate()`, `getRepository` and `getClassMetaData`.
- The *ClassNotFound* failure for a class without a repository is not modelled: the metadata is total.
- Escaping of caller condition values is not modelled. Each value is a typed literal, not spliced text.
- `action` is taken as a string. The loose `==` of `switch ($action)` against non-string values is not
  modelled.
- QueryHelper.ClockingCondition: the source passes the latest date to `gte` as unquoted `Y-m-d` text. How
  DQL would parse that text is not modelled. The model compares against the date itself, which is the
  intended inclusive bound.
- `unserialize` is not modelled. The decoded payload is an optional input, and its hours are real numbers.
- The per-day `em->persist` calls are not modelled; the records are returned instead.
- The parent adapter's `create` and `getInstance` (user resolution) are not part of this model. The resolved
  user is a parameter, and any fields `create` may set on a record are not modelled.
- Time zones and `DateTime` formatting are not modelled. A monthly date is a calendar day at midnight.
- The inner joins' WITH conditions have no row-level meaning. `FilterHolds` evaluates only the WHERE
  conjuncts on a row of the joined result. A row that a join drops, such as a Holiday row whose User has
  `u.newId IS NULL`, is therefore outside what the eligibility lemmas say.
- UserDailyClocking.Transform: the monthly clocking is a mandatory field of `PontajResource`. In the source
  `getPontajResourcePontaj()` is dereferenced (line 23) before the user check (line 24), so a resource without a monthly
  clocking fails instead of returning true. That failure path is excluded by the type and not modelled.
- `getNewUserFromPontaj` is not modelled, because it only delegates to `getInstance`.

## Findings

| source | as written | input that shows it | evidently intended | confidence | as-written member | corrected member |
|---|---|---|---|---|---|---|
| test.php:81 and test.php:89 | The join path is `sprintf('o.%s', $association['fieldName'])`. `$association` is the array returned by `getAssociationsByTargetClass`, which is keyed by field name, so the lookup finds no `fieldName` key. | A PontajResource whose only association to Pontaj is the field `pontajResourcePontaj`: the switch picks the IS NULL arm, but the join path is `o.` | Join along the same field the switch keyed on: `o.` + `reset($association)['fieldName']` | medium, not executed | QueryHelper.JoinPathAsWritten, QueryHelper.JoinPathAsWrittenLosesField | QueryHelper.JoinFor |
