/**
 * The fixed association table of the planner: for each legacy class, the
 * related classes to inner-join and the alias each join gets.
 */
module Associations {
  import opened Options
  import opened Collections
  import opened PhpSemantics

  const HolidayClass := "PitechMigrationBundle:Holiday"
  const UserProfileClass := "PitechMigrationBundle:UserProfile"
  const UserUnitClass := "PitechMigrationBundle:UserUnit"
  const ContactClass := "PitechMigrationBundle:Contact"
  const PontajResourceClass := "PitechMigrationBundle:PontajResource"
  const ProjectClass := "PitechMigrationBundle:Project"
  const TaskLogClass := "PitechMigrationBundle:TaskLog"
  const PontajClass := "PitechMigrationBundle:Pontaj"
  /** The short name of Task; the table does NOT use it as a key. */
  const TaskClass := "PitechMigrationBundle:Task"

  /** Fully qualified entity class names, the join targets. */
  const UserEntity := "Pitech\\MigrationBundle\\Entity\\User"
  const PontajEntity := "Pitech\\MigrationBundle\\Entity\\Pontaj"
  const CompanyEntity := "Pitech\\MigrationBundle\\Entity\\Company"
  const TaskEntity := "Pitech\\MigrationBundle\\Entity\\Task"
  const ProjectEntity := "Pitech\\MigrationBundle\\Entity\\Project"

  /** The classes with a non-empty entry; Task is keyed by its fully qualified name. */
  const AssociatedClasses: set<string> :=
    {HolidayClass, UserProfileClass, UserUnitClass, ContactClass,
     PontajResourceClass, ProjectClass, TaskLogClass, TaskEntity}

  /** One `alias => related class` entry. */
  datatype Association = Association(alias: string, target: string)

  function AliasesOf(assocs: seq<Association>): (aliases: seq<string>)
    ensures |aliases| == |assocs|
    ensures forall i :: 0 <= i < |assocs| ==> aliases[i] == assocs[i].alias
  {
    if |assocs| == 0 then [] else [assocs[0].alias] + AliasesOf(assocs[1..])
  }

  /** Some entry of `assocs` joins `target`. */
  predicate IsTarget(assocs: seq<Association>, target: string) {
    exists a :: a in assocs && a.target == target
  }

  /** Every join target is a fully qualified `...\Entity\...` name. */
  lemma TargetsAreEntityNames()
    ensures MatchesEntityPattern(Some(UserEntity))
    ensures MatchesEntityPattern(Some(PontajEntity))
    ensures MatchesEntityPattern(Some(CompanyEntity))
    ensures MatchesEntityPattern(Some(TaskEntity))
    ensures MatchesEntityPattern(Some(ProjectEntity))
  {
    assert OccursAt(UserEntity, "Entity", 23);
    assert OccursAt(PontajEntity, "Entity", 23);
    assert OccursAt(CompanyEntity, "Entity", 23);
    assert OccursAt(TaskEntity, "Entity", 23);
    assert OccursAt(ProjectEntity, "Entity", 23);
  }

  /**
   * The association table. Aliases are unique within an entry, every target
   * is an entity name the selection heuristic recognises, and exactly the
   * listed classes have joins; any other class, the short Task name among
   * them, gets none.
   */
  function GetAssociations(cls: string): (r: seq<Association>)
    ensures NoDuplicates(AliasesOf(r))
    ensures forall a :: a in r ==> MatchesEntityPattern(Some(a.target))
    ensures r != [] <==> cls in AssociatedClasses
    ensures 1 <= |r| <= 2 || r == []
  {
    TargetsAreEntityNames();
    if cls == HolidayClass || cls == UserProfileClass || cls == UserUnitClass || cls == ContactClass then
      [Association("u", UserEntity)]
    else if cls == PontajResourceClass then
      [Association("t", PontajEntity)]
    else if cls == ProjectClass then
      [Association("u", UserEntity), Association("c", CompanyEntity)]
    else if cls == TaskLogClass then
      [Association("u", UserEntity), Association("t", TaskEntity)]
    else if cls == TaskEntity then
      [Association("p", ProjectEntity)]
    else
      []
  }

  /** Within one entry, an alias names a single association. */
  lemma AliasDeterminesAssociation(cls: string, a: Association, b: Association)
    requires a in GetAssociations(cls) && b in GetAssociations(cls)
    requires a.alias == b.alias
    ensures a == b
  {
    var r := GetAssociations(cls);
    var i :| 0 <= i < |r| && r[i] == a;
    var j :| 0 <= j < |r| && r[j] == b;
    assert AliasesOf(r)[i] == AliasesOf(r)[j];
  }

  /**
   * The Task entry is reachable only through the fully qualified class name:
   * planning for `PitechMigrationBundle:Task` joins nothing, while the FQCN
   * joins its Project.
   */
  lemma TaskEntryKeyedByFullName()
    ensures GetAssociations(TaskClass) == []
    ensures GetAssociations(TaskEntity) == [Association("p", ProjectEntity)]
  {
  }
}
