/** The projects collection (`Trajectory::Projects` in the domain directory):
    an ordered wrapper around the projects of an account.

    Lookups answer `false` when nothing matches, modelled as `None`; the
    `archived`/`active` queries are Ruby `select` on the wrapped array and
    return a plain sequence. */
module ProjectsCollection {
  import opened Wrappers
  import opened Errors
  import opened Sequences
  import opened ProjectEntity

  datatype Projects = Projects(items: seq<Project>)

  /** `Projects.from_json`: one project per record, in record order; a single
      record without an id makes the whole call fail. */
  function FromJson(records: seq<RawProject>): (r: Result<Projects, Error>)
    ensures r.Success? <==> forall i :: 0 <= i < |records| ==> records[i].id.Some?
    ensures r.Failure? ==> r.error == MissingAttribute(ProjectKind, IdAttribute)
    ensures r.Success? ==> |r.value.items| == |records|
    ensures r.Success? ==> forall i :: 0 <= i < |records| ==>
      && ToRawProject(r.value.items[i]) == records[i]
      && r.value.items[i].storiesMemo.None?
  {
    match MapAll(records, NewProject)
    case Success(ps) => Success(Projects(ps))
    case Failure(e) => Failure(e)
  }

  /** The records of a collection, as the API would list them. */
  function ToJson(c: Projects): seq<RawProject>
  {
    seq(|c.items|, i requires 0 <= i < |c.items| => ToRawProject(c.items[i]))
  }

  /** Converting the records of freshly built projects gives the same collection back. */
  lemma FromJsonRoundTrip(c: Projects)
    requires forall i :: 0 <= i < |c.items| ==> c.items[i].storiesMemo.None?
    ensures FromJson(ToJson(c)) == Success(c)
  {
    var records := ToJson(c);
    var r := FromJson(records);
    assert r.Success?;
    forall i | 0 <= i < |c.items|
      ensures r.value.items[i] == c.items[i]
    {
      assert ToRawProject(r.value.items[i]) == records[i] == ToRawProject(c.items[i]);
    }
    assert r.value.items == c.items;
  }

  /** `find_by_id`: the first project with the given id; `None` exactly when
      no project has it. */
  function FindById(c: Projects, id: int): (r: Option<Project>)
    ensures r.None? <==> forall i :: 0 <= i < |c.items| ==> c.items[i].id != id
    ensures r.Some? ==> r.value.id == id
    ensures r.Some? ==>
      exists i :: 0 <= i < |c.items| && c.items[i] == r.value
                  && forall j :: 0 <= j < i ==> c.items[j].id != id
  {
    FindFirst(c.items, (p: Project) => p.id == id)
  }

  /** `find_by_keyword`: the first project with the given keyword; `None`
      exactly when no project has it. */
  function FindByKeyword(c: Projects, keyword: string): (r: Option<Project>)
    ensures r.None? <==> forall i :: 0 <= i < |c.items| ==> c.items[i].fields.keyword != keyword
    ensures r.Some? ==> r.value.fields.keyword == keyword
    ensures r.Some? ==>
      exists i :: 0 <= i < |c.items| && c.items[i] == r.value
                  && forall j :: 0 <= j < i ==> c.items[j].fields.keyword != keyword
  {
    FindFirst(c.items, (p: Project) => p.fields.keyword == keyword)
  }

  /** `archived`: exactly the archived projects, in order. */
  function Archived(c: Projects): (r: seq<Project>)
    ensures forall i :: 0 <= i < |r| ==> r[i] in c.items && r[i].fields.archived
    ensures forall i :: 0 <= i < |c.items| && c.items[i].fields.archived ==> c.items[i] in r
    ensures IsSubsequence(r, c.items) && |r| <= |c.items|
  {
    Filter(c.items, IsArchived)
  }

  /** `active`: exactly the projects that are not archived, in order. */
  function Active(c: Projects): (r: seq<Project>)
    ensures forall i :: 0 <= i < |r| ==> r[i] in c.items && !r[i].fields.archived
    ensures forall i :: 0 <= i < |c.items| && !c.items[i].fields.archived ==> c.items[i] in r
    ensures IsSubsequence(r, c.items) && |r| <= |c.items|
  {
    Filter(c.items, p => !IsArchived(p))
  }

  /** `archived` and `active` partition the collection: as multisets they add
      up to it, so every project is in exactly one and the lengths sum to its
      length. */
  lemma ArchivedActivePartition(c: Projects)
    ensures multiset(Archived(c)) + multiset(Active(c)) == multiset(c.items)
    ensures |Archived(c)| + |Active(c)| == |c.items|
    ensures forall i :: 0 <= i < |c.items| ==> (c.items[i] in Archived(c) <==> c.items[i] !in Active(c))
  {
    FilterRejectPartition(c.items, IsArchived);
    RejectIsFilterOfComplement(c.items, IsArchived, p => !IsArchived(p));
  }

  /** Both queries are idempotent on their own results. */
  lemma ArchivedActiveIdempotent(c: Projects)
    ensures Archived(Projects(Archived(c))) == Archived(c)
    ensures Active(Projects(Active(c))) == Active(c)
  {
    FilterIdempotent(c.items, IsArchived);
    FilterIdempotent(c.items, p => !IsArchived(p));
  }
}
