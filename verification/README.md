# Trajectory domain model in Dafny

This project models the domain core of the Trajectory Ruby client, a read-only client for a project-tracking service. It covers these parts:

- The **Project** and **Story** entities. Each is built from a raw API record, `id` is the only required attribute, and equality compares ids only.
- The **Projects** and **Stories** collections. These are ordered wrappers whose queries are `select`, `reject` and `find` over the wrapped array.
- The **metrics** of a project: point totals, completion percentage, day, working-day and iteration projections, and the scans over the velocity history.
- The **DataStore**. It memoises the projects collection, fetches a project's stories on every call and stamps each story with its project's id. The projects' own memo of their stories sits on top of it.
- The **older collection classes**. These are the variants the library entry point loads.

Modules follow the source files:

| module | file | source |
|---|---|---|
| `Wrappers`, `Errors` | wrappers.dfy, errors.dfy | `false` results and the raised errors |
| `Sequences` | sequences.dfy | Ruby `select`, `reject`, `find`, `reverse`, `inject`, raising `map` |
| `StoryEntity` | story.dfy | lib/trajectory/story.rb |
| `StoriesCollection` | stories.dfy | lib/trajectory/domain/stories.rb |
| `ProjectEntity` | project.dfy | lib/trajectory/domain/project.rb (attributes, `==`) |
| `Metrics` | metrics.dfy | lib/trajectory/domain/project.rb (arithmetic) |
| `ProjectsCollection` | projects.dfy | lib/trajectory/domain/projects.rb |
| `DataStore` | data_store.dfy | lib/trajectory/data_store.rb |
| `Associations` | associations.dfy | `Project#stories`, `#stories_in_iteration`, `Story#project` |
| `Enumerable`, `LegacyProjects`, `LegacyStories` | legacy.dfy | lib/trajectory/projects.rb, lib/trajectory/stories.rb |

Modelling choices:

- **DataStore state.** The DataStore's module-level state is an explicit `Store` value: the `@projects` cache plus a count of remote calls. Each operation returns the new store together with its result (`Step`).
- **Remote API.** The remote API is a `Remote` value: a list of raw project records, and the raw story records for each project id. A fresh `Remote` is passed to every call, so the lemmas also show that a cached answer ignores what the remote would list now.
- **Raising code.** A raise becomes a `Result.Failure` carrying an `Errors.Error`. A `false` returned by a lookup becomes `Option.None`.
- **Undefined story predicates.** The Story class does not define `unstarted?`, `completed?`, `not_completed?` or `in_iteration?`. They are function parameters (`isUnstarted`, `isCompleted`, …), so every result about them holds for any meaning they may have.
- **Query results.** The domain queries return plain sequences, not new collections. In the source, `select`/`reject` on the delegated Array returns an Array. For that reason, the idempotence lemmas re-wrap the result before querying it again.
- **Exact arithmetic.** The Float formulas are computed exactly over `real`. `Ceil` and `Round1` model `Float#ceil` and `Float#round(1)`, the latter rounding halves away from zero. The day and iteration counts are proved equal to the integer ceiling division `CeilDiv`. Ruby Integers are unbounded, like Dafny's `int`.

Notable behaviours of the code that the model follows:

- **`percent_complete`** has no guard against a zero total. It is modelled with the precondition `TotalPoints(c) != 0`, not with a division-by-zero error.
- **`remaining_iterations`** has no zero-velocity guard. It is modelled with the precondition `estimatedVelocity != 0`. `remaining_days` and `remaining_working_days` do raise, and they are modelled with that error.
- **Story memoisation.** `DataStore.stories_for_project` is not memoised. The memo lives in each project object (`@stories ||=`).
- **`not_completed`** rejects `completed?`. It does not test against a fixed set of terminal states. `unstarted` uses `unstarted?`, not `state == :unstarted`.
- **Error name.** The error for a project that never had a velocity is `VelocityAlwaysEqualToZero`.

## Model

| member | source | states |
|---|---|---|
| StoryEntity.NewStory | lib/trajectory/story.rb:5-22 | Building a story fails with `MissingAttribute(story, "id")` exactly when the record has no id. Otherwise the story carries every attribute of the record. |
| StoryEntity.NewStoryRoundTrip | lib/trajectory/story.rb:5-22 | Building a story from its own record gives back the same story: no attribute is lost. |
| StoryEntity.SameStoryIsIdEquivalence | lib/trajectory/story.rb:24-26 | Story `==` holds exactly when the ids are equal, whatever the other attributes. It is reflexive, symmetric and transitive. |
| StoriesCollection.Started | lib/trajectory/domain/stories.rb:17-19 | Keeps exactly the stories whose state is `:started` (`started?`, story.rb:32-34), as an order-preserving subsequence that is never longer. Each started story appears as often as in the collection, and no other story appears. |
| StoriesCollection.Unstarted | lib/trajectory/domain/stories.rb:24-26 | Keeps exactly the stories satisfying `unstarted?`, as an order-preserving subsequence in which each of them appears as often as in the collection. |
| StoriesCollection.NotCompleted | lib/trajectory/domain/stories.rb:31-33 | Keeps exactly the stories that are not `completed?`, as an order-preserving subsequence. How often each appears follows from `NotCompletedPartition`. |
| StoriesCollection.InIteration | lib/trajectory/domain/stories.rb:39-43 | Keeps exactly the stories that are `in_iteration?` of the given iteration, as an order-preserving subsequence in which each of them appears as often as in the collection. |
| StoriesCollection.QueriesIdempotent | lib/trajectory/domain/stories.rb:17-43 | Applying any of the four queries to its own result returns that result unchanged. |
| StoriesCollection.NotCompletedPartition | lib/trajectory/domain/stories.rb:31-33 | The not-completed and completed stories together are the collection as a multiset, so their counts add up to its length. |
| ProjectEntity.NewProject | lib/trajectory/domain/project.rb:12-32 | Building a project fails with `MissingAttribute(project, "id")` exactly when the record has no id. Otherwise the project keeps every attribute and has no stories fetched yet. |
| ProjectEntity.NewProjectRoundTrip | lib/trajectory/domain/project.rb:12-32 | A project with no stories fetched is rebuilt exactly from its own record. |
| ProjectEntity.SameProjectIsIdEquivalence | lib/trajectory/domain/project.rb:39-41 | Project `==` holds exactly when the ids are equal, ignoring the other attributes and the stories memo. It is an equivalence. |
| Metrics.TotalPoints | lib/trajectory/domain/project.rb:104-108 | The left-to-right `inject(0)` accumulation of the story points is their sum: 0 for no stories, and never negative when no estimate is negative. |
| Metrics.RemainingPoints | lib/trajectory/domain/project.rb:138-142 | The `inject(0)` accumulation over the `not_completed` stories is their points sum, and adding the points of the completed stories gives the total points. |
| Metrics.AcceptedPoints | lib/trajectory/domain/project.rb:179-181 | Accepted plus remaining points equals total points. Accepted points are exactly the points of the completed stories, and they are non-negative when no story has a negative estimate. |
| Metrics.PointsBounds | lib/trajectory/domain/project.rb:138-142 | When no estimate is negative, 0 ≤ remaining points ≤ total points. |
| Metrics.PercentComplete | lib/trajectory/domain/project.rb:172-174 | For a non-zero total, the result is the multiple of 0.1 nearest to accepted/total·100, with a tie going away from zero (12.25 gives 12.3). It lies in [0, 100] when no estimate is negative, is 100 when nothing remains, and is 0 when nothing is accepted. |
| Metrics.Round1 | lib/trajectory/domain/project.rb:173 | `round(1)` returns the multiple of 0.1 nearest to its input, breaking ties away from zero. |
| Metrics.PercentTieExample | lib/trajectory/domain/project.rb:173 | A percentage of exactly 12.25 (49 of 400 points) rounds to 12.3: the tie goes away from zero. |
| Metrics.EstimatedVelocityPerDay | lib/trajectory/domain/project.rb:147-149 | The per-day velocity times 7 is the estimated velocity. It is zero exactly when the velocity is zero. |
| Metrics.EstimatedVelocityPerWorkingDay | lib/trajectory/domain/project.rb:165-167 | The per-working-day velocity times 5 is the estimated velocity. It is zero exactly when the velocity is zero. |
| Metrics.RemainingDays | lib/trajectory/domain/project.rb:130-133 | Raises `VelocityEqualToZero` exactly when the estimated velocity is 0. Otherwise it returns ⌈7·remaining / velocity⌉. |
| Metrics.RemainingWorkingDays | lib/trajectory/domain/project.rb:157-160 | Raises `VelocityEqualToZero` exactly when the estimated velocity is 0. Otherwise it returns ⌈5·remaining / velocity⌉. |
| Metrics.RemainingIterations | lib/trajectory/domain/project.rb:120-122 | For a non-zero velocity, returns ⌈remaining / velocity⌉. |
| Metrics.CeilOfQuotient | lib/trajectory/domain/project.rb:121 | Rounding up the exact quotient of two integers gives the integer ceiling division. |
| Metrics.ProjectionsOrdered | lib/trajectory/domain/project.rb:120-167 | With a positive velocity and no negative estimates: 0 ≤ iterations ≤ working days ≤ days. The day count is 0 exactly when no points remain. |
| Metrics.ThreeStoriesExample | lib/trajectory/domain/project.rb:104-133 | Stories of 3, 5 and 2 points, none completed, at velocity 14: total 10, remaining 10, 0 % complete, 5 days. |
| Metrics.TenPointsAtVelocitySevenExample | lib/trajectory/domain/project.rb:130-133 | 10 remaining points at velocity 7 take 10 days, not 9. |
| Metrics.HasStarted | lib/trajectory/domain/project.rb:201-205 | True exactly when some historic velocity is non-zero, so false for an empty history. |
| Metrics.LastNonNullVelocity | lib/trajectory/domain/project.rb:189-194 | Raises `VelocityAlwaysEqualToZero` exactly when the project has not started. Otherwise it returns a non-zero historic velocity after which every velocity is zero. |
| Metrics.LastNonNullVelocityExamples | lib/trajectory/domain/project.rb:189-194 | The history [0, 3, 0, 5, 0] gives 5. The history [0, 0, 0] raises. |
| Sequences.FindFirstOfReverseIsLast | lib/trajectory/domain/project.rb:191-193 | The first match in the reversed history is the last match in the history. It exists exactly when some element matches. |
| ProjectsCollection.FromJson | lib/trajectory/domain/projects.rb:17-21 | Gives one project per record, in record order. It fails with `MissingAttribute(project, "id")` exactly when some record lacks an id. |
| ProjectsCollection.FromJsonRoundTrip | lib/trajectory/domain/projects.rb:17-21 | Converting the records of freshly built projects gives back the same collection. |
| ProjectsCollection.FindById | lib/trajectory/domain/projects.rb:28-30 | Returns the first project with the given id. It returns `None` exactly when no project has that id. |
| ProjectsCollection.FindByKeyword | lib/trajectory/domain/projects.rb:37-39 | Returns the first project with the given keyword. It returns `None` exactly when no project has that keyword. |
| ProjectsCollection.Archived | lib/trajectory/domain/projects.rb:44-46 | Keeps exactly the archived projects, as an order-preserving subsequence. |
| ProjectsCollection.Active | lib/trajectory/domain/projects.rb:51-53 | Keeps exactly the projects that are not archived, as an order-preserving subsequence. |
| ProjectsCollection.ArchivedActivePartition | lib/trajectory/domain/projects.rb:44-53 | Archived and active together are the collection as a multiset. Each project is in exactly one of them, and the lengths add up. |
| ProjectsCollection.ArchivedActiveIdempotent | lib/trajectory/domain/projects.rb:44-53 | Re-querying archived or active on its own result returns that result unchanged. |
| DataStore.AllProjects | lib/trajectory/data_store.rb:5-9 | When cached, returns the cache with no remote call. Otherwise it makes exactly one remote call and converts the records in order into projects with no stories fetched yet. A record without an id fails the whole batch and leaves the cache unset. |
| DataStore.ProjectsMemoised | lib/trajectory/data_store.rb:6 | After a successful fetch, another call returns the same collection and the same store, whatever the remote lists now. |
| DataStore.ProjectsFetchedOnce | lib/trajectory/data_store.rb:5-9 | From a fresh store, any number of calls after a successful first one make exactly one remote call in total and keep the first result. |
| DataStore.StoriesForProject | lib/trajectory/data_store.rb:11-16 | Every call is one remote call. Each story keeps its record's id and attributes, but its `project_id` is the given project's id. A record without an id fails the whole batch. |
| DataStore.StoriesForProjectNotMemoised | lib/trajectory/data_store.rb:11-16 | Any n calls make n remote calls and leave the projects cache as it was. |
| DataStore.FindProjectById | lib/trajectory/data_store.rb:18-20 | Equals `find_by_id` on the `projects` collection, filling the cache when it is empty. It fails exactly when `projects` fails, with the same `MissingAttribute(project, "id")` error. |
| Associations.ProjectStories | lib/trajectory/domain/project.rb:46-48 | When memoised, returns the memo with no remote call. Otherwise it returns exactly what `stories_for_project` returns, leaves the store as that call leaves it, and memoises a success. The project stays `==` to itself, and every fetched story points back to it. |
| Associations.StoriesFetchedOnce | lib/trajectory/domain/project.rb:46-48 | However many times the stories are read after a successful first read, every read returns the first collection, and all the reads together make one remote call. |
| Associations.StoriesInIteration | lib/trajectory/domain/project.rb:97-99 | Reads the project's stories as `Project#stories` does. An error from that read propagates. Otherwise it returns the stories in the given iteration, in order and each as often as in the collection. |
| Associations.ProjectOfStory | lib/trajectory/story.rb:28-30 | With a `project_id`, it is exactly `find_project_by_id` of that id: the first project with that id in the (fetched if needed) projects collection, or `None` exactly when no project has it. Without one, it answers `None` after fetching the projects. A failed fetch passes on `MissingAttribute(project, "id")`. |
| Associations.StoriesPointBackToProject | lib/trajectory/data_store.rb:13 | A story fetched for a cached project resolves back to a project `==` to it. |
| LegacyProjects.FindByKeyword | lib/trajectory/projects.rb:11-13 | The older `detect` scan returns the first project with the keyword, or `None` exactly when none has it. Its answer equals the domain `find_by_keyword`. |
| LegacyProjects.Archived | lib/trajectory/projects.rb:15-17 | The older scan keeps exactly the archived projects, in order. Its answer equals the domain `archived`. |
| LegacyProjects.Active | lib/trajectory/projects.rb:19-21 | The older scan keeps exactly the projects that are not archived, in order. Its answer equals the domain `active`. |
| LegacyProjects.ArchivedAndActive | lib/trajectory/projects.rb:15-21 | The older `archived` and `active` are the domain queries: every project in the first is archived and none in the second is. Together they are the collection as a multiset, and their lengths add up. |
| LegacyStories.Started | lib/trajectory/stories.rb:11-13 | The older scan keeps exactly the started stories, in order. Its answer equals the domain `started`. |
| LegacyStories.Unstarted | lib/trajectory/stories.rb:15-17 | The older scan keeps exactly the stories satisfying `unstarted?`. Its answer equals the domain `unstarted`. |
| LegacyStories.NotCompleted | lib/trajectory/stories.rb:19-21 | The older scan is `select(&:not_completed?)`: it keeps exactly the stories satisfying `not_completed?`, in order and with their multiplicity. Where `not_completed?` is the negation of `completed?`, its answer equals the domain `not_completed`. |

## Left out

- **HTTP transport.** `lib/trajectory/api.rb` (HTTParty, the base URI built from environment variables, JSON parsing) is reduced to the `Remote` value. `Api.stories_for_project` does not appear in that file; it is modelled as story records listed by project id.
- **Attribute coercion.** Virtus coercion (text to DateTime, Symbol, Boolean or Integer) and `symbolize_keys!` are not modelled. Records arrive already typed, timestamps stay text and symbols are their names. Only the presence of `id` (and of `project_id` for stories) is modelled, because every other attribute is assumed present.
- **Floating point.** IEEE Float behaviour is not modelled: NaN or Infinity from a zero divisor, and inexact `/ 7.0`, `/ 5.0`, `.ceil` and `.round(1)`. The formulas are computed exactly. The results can differ on ordinary inputs. For 17 remaining points at velocity 17, the IEEE double `17 / (17 / 7.0)` is 7.000000000000001, so the program's `remaining_days` is 8. The model gives the exact 7 (`Metrics.SeventeenPointsAtVelocitySeventeenExample`).
- Metrics.PercentComplete: does not model the NaN or Infinity the source produces for a zero total. That case is excluded by a precondition.
- Metrics.RemainingIterations: does not model the Float error for a zero velocity. That case is excluded by a precondition.
- **Metrics input.** The metrics take the project's resolved stories collection as an argument. In the source they call the memoised `stories` accessor, which `Associations.ProjectStories` models.
- **Wall clock.** `estimated_end_date` and `updates` depend on the wall clock and on date arithmetic.
- **Missing DataStore methods.** `iterations`, `ideas`, `users`, `find_user_by_id` and `find_iteration_by_id` call DataStore methods that are not defined in data_store.rb.
- **Shared objects.** In Ruby, memoising a project's stories mutates the same object that the DataStore cache holds. The functional model returns the updated project but does not write it back into the cached collection.
- **Delegation and concurrency.** The SimpleDelegator pass-through of Array methods is not modelled, because a collection is its `items` sequence. Concurrency is not modelled either: the source uses plain `||=` with no locking.
- **Entry point.** `lib/trajectory.rb` only requires files. It loads the older collection classes, which lack `find_by_id` and `from_json`. The DataStore model uses the domain collection throughout.
