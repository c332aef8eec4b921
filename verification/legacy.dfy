/** The older collections (`lib/trajectory/projects.rb` and
    `lib/trajectory/stories.rb`, the files the library entry point loads).
    Their queries are Ruby's `select` and `detect` written out as scans over
    the wrapped array; each scan is proved equal to the functional query of
    module `Sequences`, so the older collections agree with the domain ones. */
module Enumerable {
  import opened Wrappers
  import opened Sequences

  /** `select`: scan the array, keeping the elements the block accepts. */
  method Select<T>(s: seq<T>, p: T -> bool) returns (r: seq<T>)
    ensures r == Filter(s, p)
    ensures forall i :: 0 <= i < |r| ==> r[i] in s && p(r[i])
  {
    r := [];
    var i := 0;
    while i < |s|
      invariant 0 <= i <= |s|
      invariant r == Filter(s[..i], p)
    {
      FilterPrefixStep(s, i, p);
      if p(s[i]) {
        r := r + [s[i]];
      }
      i := i + 1;
    }
    assert s[..i] == s;
  }

  /** `detect`: scan the array, stopping at the first element the block accepts. */
  method Detect<T>(s: seq<T>, p: T -> bool) returns (r: Option<T>)
    ensures r == FindFirst(s, p)
    ensures r.None? <==> forall i :: 0 <= i < |s| ==> !p(s[i])
  {
    var i := 0;
    while i < |s|
      invariant 0 <= i <= |s|
      invariant forall j :: 0 <= j < i ==> !p(s[j])
    {
      if p(s[i]) {
        FirstIndexIsFirstMatch(s, p, i);
        return Some(s[i]);
      }
      i := i + 1;
    }
    return None;
  }

  /** Selecting from one more element of a prefix appends that element when it matches. */
  lemma FilterPrefixStep<T>(s: seq<T>, i: nat, p: T -> bool)
    requires i < |s|
    ensures Filter(s[..i + 1], p) == Filter(s[..i], p) + (if p(s[i]) then [s[i]] else [])
  {
    assert s[..i + 1] == s[..i] + [s[i]];
    FilterSnoc(s[..i], s[i], p);
  }

  /** A match with no match before it is the one `FirstIndex` finds. */
  lemma FirstIndexIsFirstMatch<T>(s: seq<T>, p: T -> bool, i: nat)
    requires i < |s| && p(s[i])
    requires forall j :: 0 <= j < i ==> !p(s[j])
    ensures FirstIndex(s, p) == Some(i)
  {
  }
}

module LegacyProjects {
  import opened Wrappers
  import opened ProjectEntity
  import Domain = ProjectsCollection
  import Enumerable

  /** Older `find_by_keyword` (`detect ... || false`): the first project with
      the keyword, `None` exactly when none has it; the same answer as the
      domain `find_by_keyword`. */
  method FindByKeyword(c: Domain.Projects, keyword: string) returns (r: Option<Project>)
    ensures r == Domain.FindByKeyword(c, keyword)
    ensures r.None? <==> forall i :: 0 <= i < |c.items| ==> c.items[i].fields.keyword != keyword
    ensures r.Some? ==> r.value.fields.keyword == keyword
  {
    r := Enumerable.Detect(c.items, (p: Project) => p.fields.keyword == keyword);
  }

  /** Older `archived`: exactly the archived projects, in order; the same as the domain `archived`. */
  method Archived(c: Domain.Projects) returns (r: seq<Project>)
    ensures r == Domain.Archived(c)
    ensures forall i :: 0 <= i < |r| ==> r[i] in c.items && r[i].fields.archived
  {
    r := Enumerable.Select(c.items, IsArchived);
  }

  /** Older `active`: exactly the projects not archived, in order; the same as the domain `active`. */
  method Active(c: Domain.Projects) returns (r: seq<Project>)
    ensures r == Domain.Active(c)
    ensures forall i :: 0 <= i < |r| ==> r[i] in c.items && !r[i].fields.archived
  {
    r := Enumerable.Select(c.items, (p: Project) => !IsArchived(p));
  }

  /** The older `archived` and `active` partition the collection. */
  method ArchivedAndActive(c: Domain.Projects) returns (archived: seq<Project>, active: seq<Project>)
    ensures archived == Domain.Archived(c) && active == Domain.Active(c)
    ensures forall i :: 0 <= i < |archived| ==> archived[i].fields.archived
    ensures forall i :: 0 <= i < |active| ==> !active[i].fields.archived
    ensures multiset(archived) + multiset(active) == multiset(c.items)
    ensures |archived| + |active| == |c.items|
  {
    archived := Archived(c);
    active := Active(c);
    Domain.ArchivedActivePartition(c);
  }
}

module LegacyStories {
  import opened Sequences
  import opened StoryEntity
  import Domain = StoriesCollection
  import Enumerable

  /** Older `started` (`select(&:started?)`): exactly the started stories, in
      order; the same as the domain `started`. */
  method Started(c: Domain.Stories) returns (r: seq<Story>)
    ensures r == Domain.Started(c)
    ensures forall i :: 0 <= i < |r| ==> r[i] in c.items && r[i].fields.state == StartedState
  {
    r := Enumerable.Select(c.items, IsStarted);
  }

  /** Older `unstarted` (`select(&:unstarted?)`): the same as the domain `unstarted`. */
  method Unstarted(c: Domain.Stories, isUnstarted: Story -> bool) returns (r: seq<Story>)
    ensures r == Domain.Unstarted(c, isUnstarted)
    ensures forall i :: 0 <= i < |r| ==> r[i] in c.items && isUnstarted(r[i])
  {
    r := Enumerable.Select(c.items, isUnstarted);
  }

  /** Older `not_completed` (`select(&:not_completed?)`): exactly the stories
      satisfying `not_completed?`, in order and with their multiplicity.
      Where `not_completed?` is the negation of `completed?` on the
      collection, this is the domain `not_completed` (which rejects
      `completed?`). */
  method NotCompleted(c: Domain.Stories, isNotCompleted: Story -> bool, isCompleted: Story -> bool)
    returns (r: seq<Story>)
    ensures r == Filter(c.items, isNotCompleted)
    ensures IsSubsequence(r, c.items)
    ensures forall i :: 0 <= i < |r| ==> r[i] in c.items && isNotCompleted(r[i])
    ensures forall i :: 0 <= i < |c.items| && isNotCompleted(c.items[i]) ==> c.items[i] in r
    ensures (forall i :: 0 <= i < |c.items| ==> isNotCompleted(c.items[i]) == !isCompleted(c.items[i]))
            ==> r == Domain.NotCompleted(c, isCompleted)
  {
    r := Enumerable.Select(c.items, isNotCompleted);
    if forall i :: 0 <= i < |c.items| ==> isNotCompleted(c.items[i]) == !isCompleted(c.items[i]) {
      RejectIsFilterOfComplement(c.items, isCompleted, isNotCompleted);
    }
  }
}
