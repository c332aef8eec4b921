/** A story of a project (`Trajectory::Story`): a typed record built from a
    raw API record, whose only required attribute is `id`. */
module StoryEntity {
  import opened Wrappers
  import opened Errors

  /** A date-time attribute, kept as the text the API sent. */
  type Timestamp = string

  /** The name of a Ruby Symbol (`:started` has name "started"). */
  type Symbol = string

  /** The state a story is in while someone works on it. */
  const StartedState: Symbol := "started"

  /** Every attribute of a story except `id` and `project_id`. */
  datatype StoryFields = StoryFields(
    assigneeName: string,
    taskType: string,
    position: int,
    createdAt: Timestamp,
    stateEvents: seq<string>,
    title: string,
    designNeeded: bool,
    updatedAt: Timestamp,
    ideaSubject: string,
    archived: bool,
    points: int,
    developmentNeeded: bool,
    deleted: bool,
    userName: string,
    commentsCount: int,
    state: Symbol)

  /** A record as the API delivers it: `id` and `project_id` may be absent. */
  datatype RawStory = RawStory(id: Option<int>, projectId: Option<int>, fields: StoryFields)

  /** A constructed story: its `id` is always present. */
  datatype Story = Story(id: int, projectId: Option<int>, fields: StoryFields)

  /** `Story.new(attributes)`: fails with a missing `id` and keeps every other
      attribute as given. */
  function NewStory(raw: RawStory): (r: Result<Story, Error>)
    ensures r.Failure? <==> raw.id.None?
    ensures r.Failure? ==> r.error == MissingAttribute(StoryKind, IdAttribute)
    ensures r.Success? ==> ToRawStory(r.value) == raw
  {
    match raw.id
    case None => Failure(MissingAttribute(StoryKind, IdAttribute))
    case Some(id) => Success(Story(id, raw.projectId, raw.fields))
  }

  /** The record a story was built from. */
  function ToRawStory(s: Story): RawStory
  {
    RawStory(Some(s.id), s.projectId, s.fields)
  }

  /** Building a story from its own record gives the story back: no attribute is lost. */
  lemma NewStoryRoundTrip(s: Story)
    ensures NewStory(ToRawStory(s)) == Success(s)
  {
  }

  /** Story `==`: two stories are the same story when their ids are equal. */
  predicate SameStory(a: Story, b: Story)
  {
    a.id == b.id
  }

  /** Story `==` ignores every attribute but `id` and is an equivalence. */
  lemma SameStoryIsIdEquivalence(a: Story, b: Story, c: Story)
    ensures SameStory(a, b) <==> a.id == b.id
    ensures SameStory(a, a)
    ensures SameStory(a, b) ==> SameStory(b, a)
    ensures SameStory(a, b) && SameStory(b, c) ==> SameStory(a, c)
  {
  }

  /** `started?`. */
  predicate IsStarted(s: Story)
  {
    s.fields.state == StartedState
  }

  /** The story's point estimate, summed by the project metrics. */
  function Points(s: Story): int
  {
    s.fields.points
  }
}
