/** The Activity page's list filter. */
module Activity {
  import opened Text
  import opened Lists

  /** An activity entry; `community` is the community's name, not an id. */
  datatype ActivityItem = ActivityItem(
    id: string,
    kind: string,
    title: string,
    description: string,
    userName: string,
    community: string)

  /** The page's filter state: `searchTerm`, `typeFilter`, `communityFilter`. */
  datatype ActivityQuery = ActivityQuery(search: string, kind: string, community: string)

  predicate KeepsActivity(q: ActivityQuery, a: ActivityItem) {
    var matchesSearch :=
      MatchesSearch(a.title, q.search) || MatchesSearch(a.description, q.search) ||
      MatchesSearch(a.userName, q.search) || MatchesSearch(a.community, q.search);
    var matchesType := q.kind == "all" || a.kind == q.kind;
    var matchesCommunity := q.community == "all" || a.community == q.community;
    matchesSearch && matchesType && matchesCommunity
  }

  /** The entries shown: the search text occurs (ignoring case) in the title,
      description, user name or community name, and the type and community
      name are "all" or equal. */
  function FilterActivity(items: seq<ActivityItem>, q: ActivityQuery): (r: seq<ActivityItem>)
    ensures IsSubList(r, items)
    ensures forall x :: x in r ==> multiset(r)[x] == multiset(items)[x]
    ensures forall a :: a in r <==>
      a in items &&
      (MatchesSearch(a.title, q.search) || MatchesSearch(a.description, q.search) ||
       MatchesSearch(a.userName, q.search) || MatchesSearch(a.community, q.search)) &&
      (q.kind == "all" || a.kind == q.kind) &&
      (q.community == "all" || a.community == q.community)
  {
    Filter(items, a => KeepsActivity(q, a))
  }

  /** With an empty search and both selectors on "all", every entry is shown. */
  lemma ActivityUnfiltered(items: seq<ActivityItem>)
    ensures FilterActivity(items, ActivityQuery("", "all", "all")) == items
  {
    var q := ActivityQuery("", "all", "all");
    forall a | a in items
      ensures KeepsActivity(q, a)
    {
      EmptySearchMatches(a.title);
    }
    FilterKeepsAll(items, a => KeepsActivity(q, a));
  }
}
