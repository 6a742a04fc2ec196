/** The Discussions page's list filter. */
module Discussions {
  import opened Text
  import opened Lists

  datatype Discussion = Discussion(
    id: string,
    title: string,
    body: string,
    authorId: string,
    communityId: string,
    commentCount: nat,
    status: string)

  /** The page's filter state: `searchTerm`, `communityFilter`, `activeTab`. */
  datatype DiscussionQuery = DiscussionQuery(search: string, community: string, tab: string)

  predicate KeepsDiscussion(q: DiscussionQuery, d: Discussion) {
    var matchesSearch := MatchesSearch(d.title, q.search) || MatchesSearch(d.body, q.search);
    var matchesCommunity := q.community == "all" || d.communityId == q.community;
    if q.tab == "all" then matchesSearch && matchesCommunity
    else if q.tab == "my-posts" then
      matchesSearch && matchesCommunity && (d.authorId == "1" || d.authorId == "2")
    else matchesSearch && matchesCommunity
  }

  /** The discussions shown: title or body contains the search text (ignoring
      case), the community is "all" or equal, and the "my-posts" tab also wants
      author "1" or "2". */
  function FilterDiscussions(ds: seq<Discussion>, q: DiscussionQuery): (r: seq<Discussion>)
    ensures IsSubList(r, ds)
    ensures forall x :: x in r ==> multiset(r)[x] == multiset(ds)[x]
    ensures forall d :: d in r <==>
      d in ds &&
      (MatchesSearch(d.title, q.search) || MatchesSearch(d.body, q.search)) &&
      (q.community == "all" || d.communityId == q.community) &&
      (q.tab == "my-posts" ==> d.authorId == "1" || d.authorId == "2")
  {
    Filter(ds, d => KeepsDiscussion(q, d))
  }

  /** Every tab but "my-posts" adds no condition. */
  lemma DiscussionsOtherTabsAlike(ds: seq<Discussion>, q: DiscussionQuery)
    requires q.tab != "my-posts"
    ensures FilterDiscussions(ds, q) == FilterDiscussions(ds, q.(tab := "all"))
  {
    var q' := q.(tab := "all");
    FilterCongruent(ds, d => KeepsDiscussion(q, d), d => KeepsDiscussion(q', d));
  }
}
