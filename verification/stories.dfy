/** The stories collection (`Trajectory::Stories` in the domain directory): an
    ordered wrapper around the stories of one project.

    Each query is Ruby's `select`/`reject` on the wrapped array, so it returns
    a plain sequence, not a new collection. The story predicates `unstarted?`,
    `completed?` and `in_iteration?` are not defined by the Story class, so
    they are parameters here. */
module StoriesCollection {
  import opened Sequences
  import opened StoryEntity

  datatype Stories = Stories(items: seq<Story>)

  /** `started`: exactly the stories whose state is `:started`, in order and
      with their multiplicity. */
  function Started(c: Stories): (r: seq<Story>)
    ensures forall i :: 0 <= i < |r| ==> r[i] in c.items && r[i].fields.state == StartedState
    ensures forall i :: 0 <= i < |c.items| && c.items[i].fields.state == StartedState ==> c.items[i] in r
    ensures IsSubsequence(r, c.items) && |r| <= |c.items|
    ensures forall i :: 0 <= i < |c.items| ==>
      multiset(r)[c.items[i]] == if c.items[i].fields.state == StartedState then multiset(c.items)[c.items[i]] else 0
  {
    FilterCounts(c.items, IsStarted);
    Filter(c.items, IsStarted)
  }

  /** `unstarted`: exactly the stories satisfying `unstarted?`, in order. */
  function Unstarted(c: Stories, isUnstarted: Story -> bool): (r: seq<Story>)
    ensures forall i :: 0 <= i < |r| ==> r[i] in c.items && isUnstarted(r[i])
    ensures forall i :: 0 <= i < |c.items| && isUnstarted(c.items[i]) ==> c.items[i] in r
    ensures IsSubsequence(r, c.items) && |r| <= |c.items|
    ensures forall i :: 0 <= i < |c.items| ==>
      multiset(r)[c.items[i]] == if isUnstarted(c.items[i]) then multiset(c.items)[c.items[i]] else 0
  {
    FilterCounts(c.items, isUnstarted);
    Filter(c.items, isUnstarted)
  }

  /** `not_completed`: exactly the stories that are not `completed?`, in order. */
  function NotCompleted(c: Stories, isCompleted: Story -> bool): (r: seq<Story>)
    ensures forall i :: 0 <= i < |r| ==> r[i] in c.items && !isCompleted(r[i])
    ensures forall i :: 0 <= i < |c.items| && !isCompleted(c.items[i]) ==> c.items[i] in r
    ensures IsSubsequence(r, c.items) && |r| <= |c.items|
  {
    Reject(c.items, isCompleted)
  }

  /** `in_iteration(iteration)`: exactly the stories that are `in_iteration?`
      of the given iteration, in order. */
  function InIteration<I>(c: Stories, iteration: I, inIteration: (Story, I) -> bool): (r: seq<Story>)
    ensures forall i :: 0 <= i < |r| ==> r[i] in c.items && inIteration(r[i], iteration)
    ensures forall i :: 0 <= i < |c.items| && inIteration(c.items[i], iteration) ==> c.items[i] in r
    ensures IsSubsequence(r, c.items) && |r| <= |c.items|
    ensures forall i :: 0 <= i < |c.items| ==>
      multiset(r)[c.items[i]] == if inIteration(c.items[i], iteration) then multiset(c.items)[c.items[i]] else 0
  {
    FilterCounts(c.items, s => inIteration(s, iteration));
    Filter(c.items, s => inIteration(s, iteration))
  }

  /** The completed stories: the part of the collection `not_completed` leaves out. */
  function Completed(c: Stories, isCompleted: Story -> bool): seq<Story>
  {
    Filter(c.items, isCompleted)
  }

  /** Every query is idempotent: querying its own result again changes nothing. */
  lemma QueriesIdempotent<I>(c: Stories, isUnstarted: Story -> bool, isCompleted: Story -> bool,
                             iteration: I, inIteration: (Story, I) -> bool)
    ensures Started(Stories(Started(c))) == Started(c)
    ensures Unstarted(Stories(Unstarted(c, isUnstarted)), isUnstarted) == Unstarted(c, isUnstarted)
    ensures NotCompleted(Stories(NotCompleted(c, isCompleted)), isCompleted) == NotCompleted(c, isCompleted)
    ensures InIteration(Stories(InIteration(c, iteration, inIteration)), iteration, inIteration)
            == InIteration(c, iteration, inIteration)
  {
    FilterIdempotent(c.items, IsStarted);
    FilterIdempotent(c.items, isUnstarted);
    RejectIdempotent(c.items, isCompleted);
    FilterIdempotent(c.items, s => inIteration(s, iteration));
  }

  /** `not_completed` and the completed stories split the collection: each
      story is in exactly one of them and the counts add up. */
  lemma NotCompletedPartition(c: Stories, isCompleted: Story -> bool)
    ensures multiset(NotCompleted(c, isCompleted)) + multiset(Completed(c, isCompleted)) == multiset(c.items)
    ensures |NotCompleted(c, isCompleted)| + |Completed(c, isCompleted)| == |c.items|
  {
    FilterRejectPartition(c.items, isCompleted);
  }
}
