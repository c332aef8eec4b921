/** The data store (`Trajectory::DataStore`): the process-wide mediator
    between the remote API and the typed entities.

    The module-level state is made explicit as a `Store` value threaded
    through every call. Besides the memoised projects collection it counts
    the calls made to the remote API, so that "fetched once" is a statement
    about the state. The remote API is a `Remote` value handed to each call:
    what it lists may differ from one call to the next. */
module DataStore {
  import opened Wrappers
  import opened Errors
  import opened Sequences
  import opened StoryEntity
  import opened StoriesCollection
  import opened ProjectEntity
  import opened ProjectsCollection

  /** The remote API as seen by the store: the raw project records of the
      account, and the raw story records listed for a project id. */
  datatype Remote = Remote(projectRecords: seq<RawProject>, storyRecords: int -> seq<RawStory>)

  /** `@projects` and the number of remote calls made so far. */
  datatype Store = Store(projectsCache: Option<Projects>, remoteCalls: nat)

  /** The state after a call, and what the call returned or raised. */
  datatype Step<T> = Step(store: Store, result: Result<T, Error>)

  /** The store at process start: nothing fetched, nothing cached. */
  const Initial: Store := Store(None, 0)

  /** `projects` (`@projects ||= ...`): the cached collection when there is
      one, with no remote call; otherwise one remote call whose records are
      converted in order into projects with no stories fetched yet. A record
      without an id aborts the conversion, and the cache stays unset. */
  function AllProjects(s: Store, api: Remote): (r: Step<Projects>)
    ensures s.projectsCache.Some? ==> r.store == s && r.result == Success(s.projectsCache.value)
    ensures s.projectsCache.None? ==> r.store.remoteCalls == s.remoteCalls + 1
    ensures s.projectsCache.None? ==>
      (r.result.Success? <==> forall i :: 0 <= i < |api.projectRecords| ==> api.projectRecords[i].id.Some?)
    ensures s.projectsCache.None? && r.result.Success? ==>
      && r.store.projectsCache == Some(r.result.value)
      && |r.result.value.items| == |api.projectRecords|
      && forall i :: 0 <= i < |api.projectRecords| ==>
           && ToRawProject(r.result.value.items[i]) == api.projectRecords[i]
           && r.result.value.items[i].storiesMemo.None?
    ensures r.result.Failure? ==>
      && r.store.projectsCache.None?
      && r.result.error == MissingAttribute(ProjectKind, IdAttribute)
  {
    match s.projectsCache
    case Some(cached) => Step(s, Success(cached))
    case None =>
      var calls := s.remoteCalls + 1;
      match FromJson(api.projectRecords)
      case Success(ps) => Step(Store(Some(ps), calls), Success(ps))
      case Failure(e) => Step(Store(None, calls), Failure(e))
  }

  /** The record with `project_id` overwritten by the given project's id
      (`merge({project_id: project.id})`). */
  function StampProject(raw: RawStory, project: Project): RawStory
  {
    raw.(projectId := Some(project.id))
  }

  /** `stories_for_project`: NOT memoised, every call is a remote call. Each
      story is built from its record with `project_id` replaced by the
      project's id; a record without an id aborts the whole conversion. */
  function StoriesForProject(s: Store, api: Remote, project: Project): (r: Step<Stories>)
    ensures r.store == s.(remoteCalls := s.remoteCalls + 1)
    ensures var records := api.storyRecords(project.id);
      && (r.result.Success? <==> forall i :: 0 <= i < |records| ==> records[i].id.Some?)
      && (r.result.Failure? ==> r.result.error == MissingAttribute(StoryKind, IdAttribute))
      && (r.result.Success? ==> |r.result.value.items| == |records|)
      && (r.result.Success? ==> forall i :: 0 <= i < |records| ==>
            && r.result.value.items[i].id == records[i].id.value
            && r.result.value.items[i].projectId == Some(project.id)
            && r.result.value.items[i].fields == records[i].fields)
  {
    var records := api.storyRecords(project.id);
    var stamped := seq(|records|, i requires 0 <= i < |records| => StampProject(records[i], project));
    var calls := s.(remoteCalls := s.remoteCalls + 1);
    assert forall i :: 0 <= i < |records| ==> stamped[i].id == records[i].id;
    match MapAll(stamped, NewStory)
    case Success(stories) => Step(calls, Success(Stories(stories)))
    case Failure(e) => Step(calls, Failure(e))
  }

  /** `find_project_by_id`: look the id up in `projects`, fetching them first
      when the cache is empty. */
  function FindProjectById(s: Store, api: Remote, id: int): (r: Step<Option<Project>>)
    ensures r.store == AllProjects(s, api).store
    ensures r.result.Failure? <==> AllProjects(s, api).result.Failure?
    ensures r.result.Failure? ==> r.result.error == MissingAttribute(ProjectKind, IdAttribute)
    ensures r.result.Success? ==> r.result.value == FindById(AllProjects(s, api).result.value, id)
    ensures r.result.Success? ==> r.store.projectsCache.Some?
    ensures r.result.Success? && r.result.value.Some? ==> r.result.value.value.id == id
  {
    var fetched := AllProjects(s, api);
    match fetched.result
    case Success(ps) => Step(fetched.store, Success(FindById(ps, id)))
    case Failure(e) => Step(fetched.store, Failure(e))
  }

  // ---------------------------------------------------------------------------
  // Memoisation
  // ---------------------------------------------------------------------------

  /** Once the projects are cached, asking again makes no remote call and
      returns the same collection, whatever the remote API would now list. */
  lemma ProjectsMemoised(s: Store, first: Remote, second: Remote)
    requires AllProjects(s, first).result.Success?
    ensures AllProjects(AllProjects(s, first).store, second) == AllProjects(s, first)
  {
  }

  /** The store after asking for the projects once per remote in `apis`. */
  function RepeatAllProjects(s: Store, apis: seq<Remote>): Store
    decreases |apis|
  {
    if |apis| == 0 then s else RepeatAllProjects(AllProjects(s, apis[0]).store, apis[1..])
  }

  /** A cached store is a fixed point of any number of `projects` calls. */
  lemma {:induction false} CachedStoreIsStable(s: Store, apis: seq<Remote>)
    requires s.projectsCache.Some?
    ensures RepeatAllProjects(s, apis) == s
    decreases |apis|
  {
    if |apis| > 0 {
      CachedStoreIsStable(AllProjects(s, apis[0]).store, apis[1..]);
    }
  }

  /** From a fresh process, a successful first `projects` call is the only
      remote call any number of further calls make, and the cache keeps the
      first result. */
  lemma {:induction false} ProjectsFetchedOnce(apis: seq<Remote>)
    requires |apis| > 0
    requires AllProjects(Initial, apis[0]).result.Success?
    ensures RepeatAllProjects(Initial, apis).remoteCalls == 1
    ensures RepeatAllProjects(Initial, apis).projectsCache == Some(AllProjects(Initial, apis[0]).result.value)
  {
    CachedStoreIsStable(AllProjects(Initial, apis[0]).store, apis[1..]);
  }

  /** The store after asking for a project's stories once per remote in `apis`. */
  function RepeatStoriesForProject(s: Store, apis: seq<Remote>, project: Project): Store
    decreases |apis|
  {
    if |apis| == 0 then s
    else RepeatStoriesForProject(StoriesForProject(s, apis[0], project).store, apis[1..], project)
  }

  /** `stories_for_project` caches nothing: n calls are n remote calls, and
      the projects cache is left as it was. */
  lemma {:induction false} StoriesForProjectNotMemoised(s: Store, apis: seq<Remote>, project: Project)
    ensures RepeatStoriesForProject(s, apis, project).remoteCalls == s.remoteCalls + |apis|
    ensures RepeatStoriesForProject(s, apis, project).projectsCache == s.projectsCache
    decreases |apis|
  {
    if |apis| > 0 {
      StoriesForProjectNotMemoised(StoriesForProject(s, apis[0], project).store, apis[1..], project);
    }
  }
}
