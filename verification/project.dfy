/** A project (`Trajectory::Project`): a typed record built from a raw API
    record whose only required attribute is `id`, plus a memo of its stories
    filled on first access (see module `Associations`). */
module ProjectEntity {
  import opened Wrappers
  import opened Errors
  import opened StoryEntity
  import opened StoriesCollection

  /** Every attribute of a project except `id`. */
  datatype ProjectFields = ProjectFields(
    name: string,
    archived: bool,
    createdAt: Timestamp,
    estimatedVelocity: int,
    historicVelocity: seq<int>,
    keyword: string,
    updatedAt: Timestamp,
    completedIterationsCount: int,
    completedStoriesCount: int)

  /** A record as the API delivers it: `id` may be absent. */
  datatype RawProject = RawProject(id: Option<int>, fields: ProjectFields)

  /** A constructed project; `storiesMemo` is the `@stories` instance variable. */
  datatype Project = Project(id: int, fields: ProjectFields, storiesMemo: Option<Stories>)

  /** `Project.new(attributes)`: fails with a missing `id`, keeps every other
      attribute as given, and starts with no stories fetched. */
  function NewProject(raw: RawProject): (r: Result<Project, Error>)
    ensures r.Failure? <==> raw.id.None?
    ensures r.Failure? ==> r.error == MissingAttribute(ProjectKind, IdAttribute)
    ensures r.Success? ==> ToRawProject(r.value) == raw && r.value.storiesMemo.None?
  {
    match raw.id
    case None => Failure(MissingAttribute(ProjectKind, IdAttribute))
    case Some(id) => Success(Project(id, raw.fields, None))
  }

  /** The record a project was built from. */
  function ToRawProject(p: Project): RawProject
  {
    RawProject(Some(p.id), p.fields)
  }

  /** A project whose stories were never fetched is rebuilt exactly from its record. */
  lemma NewProjectRoundTrip(p: Project)
    requires p.storiesMemo.None?
    ensures NewProject(ToRawProject(p)) == Success(p)
  {
  }

  /** Project `==`: two projects are the same project when their ids are equal. */
  predicate SameProject(a: Project, b: Project)
  {
    a.id == b.id
  }

  /** Project `==` ignores every attribute but `id` (the stories memo
      included) and is an equivalence. */
  lemma SameProjectIsIdEquivalence(a: Project, b: Project, c: Project)
    ensures SameProject(a, b) <==> a.id == b.id
    ensures SameProject(a, a)
    ensures SameProject(a, b) ==> SameProject(b, a)
    ensures SameProject(a, b) && SameProject(b, c) ==> SameProject(a, c)
  {
  }

  /** `archived?`. */
  predicate IsArchived(p: Project)
  {
    p.fields.archived
  }
}
