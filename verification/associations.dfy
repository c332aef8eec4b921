/** The two relations resolved through the data store: a project's stories
    (`Project#stories`, memoised in the project) and a story's project
    (`Story#project`, looked up by `project_id`). */
module Associations {
  import opened Wrappers
  import opened Errors
  import opened Sequences
  import opened StoryEntity
  import opened StoriesCollection
  import opened ProjectEntity
  import opened ProjectsCollection
  import opened DataStore

  /** The project after the access (its memo possibly filled), the store, and
      the stories returned or the error raised. */
  datatype StoriesAccess = StoriesAccess(project: Project, store: Store, result: Result<Stories, Error>)

  /** `Project#stories` (`@stories ||= DataStore.stories_for_project(self)`):
      the memoised collection with no remote call, or one call to the store
      whose result is memoised on success. The project stays the same
      project. */
  function ProjectStories(p: Project, s: Store, api: Remote): (r: StoriesAccess)
    ensures SameProject(r.project, p) && r.project.fields == p.fields
    ensures p.storiesMemo.Some? ==> r == StoriesAccess(p, s, Success(p.storiesMemo.value))
    ensures p.storiesMemo.None? ==>
      && r.store == StoriesForProject(s, api, p).store
      && r.result == StoriesForProject(s, api, p).result
    ensures p.storiesMemo.None? ==> r.store.remoteCalls == s.remoteCalls + 1
    ensures p.storiesMemo.None? && r.result.Success? ==>
      && r.project.storiesMemo == Some(r.result.value)
      && forall i :: 0 <= i < |r.result.value.items| ==> r.result.value.items[i].projectId == Some(p.id)
    ensures r.result.Failure? ==> r.project == p
  {
    match p.storiesMemo
    case Some(memo) => StoriesAccess(p, s, Success(memo))
    case None =>
      var fetched := StoriesForProject(s, api, p);
      match fetched.result
      case Success(stories) => StoriesAccess(p.(storiesMemo := Some(stories)), fetched.store, Success(stories))
      case Failure(e) => StoriesAccess(p, fetched.store, Failure(e))
  }

  /** The access after reading a project's stories once per remote in `apis`,
      each read on the project and store the previous one left. */
  function RepeatProjectStories(p: Project, s: Store, apis: seq<Remote>): StoriesAccess
    requires |apis| > 0
    decreases |apis|
  {
    var first := ProjectStories(p, s, apis[0]);
    if |apis| == 1 then first else RepeatProjectStories(first.project, first.store, apis[1..])
  }

  /** A project whose stories are memoised answers every later read from the
      memo, with no remote call. */
  lemma {:induction false} MemoisedStoriesAreStable(p: Project, s: Store, apis: seq<Remote>)
    requires |apis| > 0
    requires p.storiesMemo.Some?
    ensures RepeatProjectStories(p, s, apis) == StoriesAccess(p, s, Success(p.storiesMemo.value))
    decreases |apis|
  {
    if |apis| > 1 {
      MemoisedStoriesAreStable(p, s, apis[1..]);
    }
  }

  /** However often a project's stories are read, only the first successful
      read calls the remote API: every read returns the first collection,
      whatever the remote API would list later. */
  lemma {:induction false} StoriesFetchedOnce(p: Project, s: Store, apis: seq<Remote>)
    requires |apis| > 0
    requires p.storiesMemo.None?
    requires ProjectStories(p, s, apis[0]).result.Success?
    ensures RepeatProjectStories(p, s, apis) == ProjectStories(p, s, apis[0])
    ensures RepeatProjectStories(p, s, apis).store.remoteCalls == s.remoteCalls + 1
  {
    var first := ProjectStories(p, s, apis[0]);
    if |apis| > 1 {
      MemoisedStoriesAreStable(first.project, first.store, apis[1..]);
    }
  }

  /** `Project#stories_in_iteration`: the project's stories (memoised as by
      `ProjectStories`) that are `in_iteration?` of the given iteration, in
      order and with their multiplicity. An error raised while reading the
      stories propagates. */
  function StoriesInIteration<I>(p: Project, s: Store, api: Remote, iteration: I,
                                 inIteration: (Story, I) -> bool): (r: (StoriesAccess, Result<seq<Story>, Error>))
    ensures r.0 == ProjectStories(p, s, api)
    ensures r.1.Failure? <==> r.0.result.Failure?
    ensures r.1.Failure? ==> r.1.error == r.0.result.error
    ensures r.1.Success? ==>
      var items := r.0.result.value.items;
      && IsSubsequence(r.1.value, items)
      && (forall i :: 0 <= i < |r.1.value| ==> inIteration(r.1.value[i], iteration))
      && (forall i :: 0 <= i < |items| ==>
            multiset(r.1.value)[items[i]] == if inIteration(items[i], iteration) then multiset(items)[items[i]] else 0)
  {
    var access := ProjectStories(p, s, api);
    match access.result
    case Success(stories) => (access, Success(InIteration(stories, iteration, inIteration)))
    case Failure(e) => (access, Failure(e))
  }

  /** `Story#project`: the first cached project whose id is the story's `project_id`, or
      `None` when there is none (also when `project_id` is absent, since no
      project id is null). Either way the projects are fetched if not cached. */
  function ProjectOfStory(story: Story, s: Store, api: Remote): (r: Step<Option<Project>>)
    ensures story.projectId.Some? ==> r == FindProjectById(s, api, story.projectId.value)
    ensures story.projectId.None? && r.result.Success? ==> r.result.value.None?
    ensures r.store == AllProjects(s, api).store
    ensures r.result.Failure? <==> AllProjects(s, api).result.Failure?
    ensures r.result.Failure? ==> r.result.error == MissingAttribute(ProjectKind, IdAttribute)
    ensures r.result.Success? && r.result.value.Some? ==> story.projectId == Some(r.result.value.value.id)
    ensures r.result.Success? && r.result.value.Some? ==>
      r.result.value == FindById(AllProjects(s, api).result.value, r.result.value.value.id)
    ensures r.result.Success? && r.result.value.None? ==>
      var projects := AllProjects(s, api).result.value.items;
      forall i :: 0 <= i < |projects| ==> story.projectId != Some(projects[i].id)
  {
    match story.projectId
    case Some(id) => FindProjectById(s, api, id)
    case None =>
      var fetched := AllProjects(s, api);
      match fetched.result
      case Success(_) => Step(fetched.store, Success(None))
      case Failure(e) => Step(fetched.store, Failure(e))
  }

  /** The stories a project fetches point back to that project: once its
      projects are cached and contain it, each story's project is found and is
      `==` to it. */
  lemma StoriesPointBackToProject(p: Project, s: Store, api: Remote, storiesApi: Remote, i: nat)
    requires p.storiesMemo.None?
    requires s.projectsCache.Some?
    requires p in s.projectsCache.value.items
    requires ProjectStories(p, s, storiesApi).result.Success?
    requires i < |ProjectStories(p, s, storiesApi).result.value.items|
    ensures var access := ProjectStories(p, s, storiesApi);
            var found := ProjectOfStory(access.result.value.items[i], access.store, api);
            found.result.Success? && found.result.value.Some? && SameProject(found.result.value.value, p)
  {
    var access := ProjectStories(p, s, storiesApi);
    var story := access.result.value.items[i];
    assert story.projectId == Some(p.id);
    var k :| 0 <= k < |s.projectsCache.value.items| && s.projectsCache.value.items[k] == p;
  }
}
