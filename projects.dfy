/** The Projects page's list filter. */
module Projects {
  import opened Text
  import opened Lists
  import opened People

  datatype Project = Project(
    id: string,
    title: string,
    description: string,
    communityId: string,
    createdBy: Person,
    status: string,
    members: seq<Person>)

  /** The page's filter state: `searchTerm`, `communityFilter`, `statusFilter`, `activeTab`. */
  datatype ProjectQuery = ProjectQuery(search: string, community: string, status: string, tab: string)

  predicate KeepsProject(q: ProjectQuery, p: Project) {
    var matchesSearch := MatchesSearch(p.title, q.search) || MatchesSearch(p.description, q.search);
    var matchesCommunity := q.community == "all" || p.communityId == q.community;
    var matchesStatus := q.status == "all" || p.status == q.status;
    if q.tab == "all" then matchesSearch && matchesCommunity && matchesStatus
    else if q.tab == "my-projects" then
      matchesSearch && matchesCommunity && matchesStatus && exists m :: m in p.members && m.id == "1"
    else matchesSearch && matchesCommunity && matchesStatus
  }

  /** The projects shown: title or description contains the search text
      (ignoring case), community and status are "all" or equal, and the
      "my-projects" tab also wants a member with id "1". */
  function FilterProjects(ps: seq<Project>, q: ProjectQuery): (r: seq<Project>)
    ensures IsSubList(r, ps)
    ensures forall x :: x in r ==> multiset(r)[x] == multiset(ps)[x]
    ensures forall p :: p in r <==>
      p in ps &&
      (MatchesSearch(p.title, q.search) || MatchesSearch(p.description, q.search)) &&
      (q.community == "all" || p.communityId == q.community) &&
      (q.status == "all" || p.status == q.status) &&
      (q.tab == "my-projects" ==> exists m :: m in p.members && m.id == "1")
  {
    Filter(ps, p => KeepsProject(q, p))
  }

  /** Every tab but "my-projects" applies the three base conditions alone. */
  lemma ProjectsOtherTabsAlike(ps: seq<Project>, q: ProjectQuery)
    requires q.tab != "my-projects"
    ensures FilterProjects(ps, q) == FilterProjects(ps, q.(tab := "all"))
  {
    var q' := q.(tab := "all");
    FilterCongruent(ps, p => KeepsProject(q, p), p => KeepsProject(q', p));
  }

  /** With an empty search and both selectors on "all", every project is shown
      on any tab other than "my-projects". */
  lemma ProjectsUnfiltered(ps: seq<Project>, tab: string)
    requires tab != "my-projects"
    ensures FilterProjects(ps, ProjectQuery("", "all", "all", tab)) == ps
  {
    var q := ProjectQuery("", "all", "all", tab);
    forall p | p in ps
      ensures KeepsProject(q, p)
    {
      EmptySearchMatches(p.title);
    }
    FilterKeepsAll(ps, p => KeepsProject(q, p));
  }
}
