/** The Documents page's list filter and contributor label. */
module Documents {
  import opened Text
  import opened Lists
  import opened People

  datatype Document = Document(
    id: string,
    title: string,
    content: string,
    author: Person,
    communityId: string,
    version: nat,
    contributors: seq<Person>)

  /** The page's filter state: `searchTerm`, `communityFilter`, `activeTab`. */
  datatype DocumentQuery = DocumentQuery(search: string, community: string, tab: string)

  predicate KeepsDocument(q: DocumentQuery, d: Document) {
    var matchesSearch := MatchesSearch(d.title, q.search) || MatchesSearch(d.content, q.search);
    var matchesCommunity := q.community == "all" || d.communityId == q.community;
    if q.tab == "all" then matchesSearch && matchesCommunity
    else if q.tab == "my-documents" then
      matchesSearch && matchesCommunity &&
      (d.author.id == "1" || exists c :: c in d.contributors && c.id == "1")
    else matchesSearch && matchesCommunity
  }

  /** The documents shown: title or content contains the search text (ignoring
      case), the community is "all" or equal, and the "my-documents" tab also
      wants author "1" or a contributor "1". */
  function FilterDocuments(ds: seq<Document>, q: DocumentQuery): (r: seq<Document>)
    ensures IsSubList(r, ds)
    ensures forall x :: x in r ==> multiset(r)[x] == multiset(ds)[x]
    ensures forall d :: d in r <==>
      d in ds &&
      (MatchesSearch(d.title, q.search) || MatchesSearch(d.content, q.search)) &&
      (q.community == "all" || d.communityId == q.community) &&
      (q.tab == "my-documents" ==> d.author.id == "1" || exists c :: c in d.contributors && c.id == "1")
  {
    Filter(ds, d => KeepsDocument(q, d))
  }

  /** Every tab but "my-documents" adds no condition. */
  lemma DocumentsOtherTabsAlike(ds: seq<Document>, q: DocumentQuery)
    requires q.tab != "my-documents"
    ensures FilterDocuments(ds, q) == FilterDocuments(ds, q.(tab := "all"))
  {
    var q' := q.(tab := "all");
    FilterCongruent(ds, d => KeepsDocument(q, d), d => KeepsDocument(q', d));
  }

  /** `${n} contributor${n !== 1 ? 's' : ''}`, without the number. */
  function ContributorLabel(n: nat): (word: string)
    ensures word == "contributor" <==> n == 1
    ensures word == "contributor" || word == "contributors"
  {
    "contributor" + (if n != 1 then "s" else "")
  }
}
