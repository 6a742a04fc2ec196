/** The Communities page's list filter. */
module Communities {
  import opened Text
  import opened Lists

  datatype Community = Community(
    id: string,
    name: string,
    description: string,
    memberCount: nat,
    isPublic: bool)

  /** The page's filter state: `searchTerm` and `activeTab`. */
  datatype CommunityQuery = CommunityQuery(search: string, tab: string)

  predicate KeepsCommunity(q: CommunityQuery, c: Community) {
    var matchesSearch := MatchesSearch(c.name, q.search) || MatchesSearch(c.description, q.search);
    if q.tab == "discover" then matchesSearch && c.isPublic
    else if q.tab == "my-communities" then matchesSearch && (c.id == "1" || c.id == "3")
    else matchesSearch
  }

  /** The communities shown: name or description contains the search text
      (ignoring case); "discover" also wants a public community, and
      "my-communities" the ids "1" and "3". */
  function FilterCommunities(cs: seq<Community>, q: CommunityQuery): (r: seq<Community>)
    ensures IsSubList(r, cs)
    ensures forall x :: x in r ==> multiset(r)[x] == multiset(cs)[x]
    ensures forall c :: c in r <==>
      c in cs &&
      (MatchesSearch(c.name, q.search) || MatchesSearch(c.description, q.search)) &&
      (q.tab == "discover" ==> c.isPublic) &&
      (q.tab == "my-communities" ==> c.id == "1" || c.id == "3")
  {
    Filter(cs, c => KeepsCommunity(q, c))
  }

  /** A private community never appears under "discover". */
  lemma DiscoverHidesPrivate(cs: seq<Community>, search: string)
    ensures forall c :: c in FilterCommunities(cs, CommunityQuery(search, "discover")) ==> c.isPublic
  {
  }

  /** Any other tab applies the search alone: with an empty search it shows
      every community. */
  lemma OtherTabEmptySearchShowsAll(cs: seq<Community>, tab: string)
    requires tab != "discover" && tab != "my-communities"
    ensures FilterCommunities(cs, CommunityQuery("", tab)) == cs
  {
    var q := CommunityQuery("", tab);
    forall c | c in cs
      ensures KeepsCommunity(q, c)
    {
      EmptySearchMatches(c.name);
    }
    FilterKeepsAll(cs, c => KeepsCommunity(q, c));
  }
}
