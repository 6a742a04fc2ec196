/** The decision list of the Decisions page: the vote tally update of `handleVote`,
    the deadline label of `daysRemaining` and the list filter. Timestamps are
    integer milliseconds and the current time is passed in as `now`. */
module Decisions {
  import opened Wrappers
  import opened Text
  import opened Lists

  datatype VoteMethod = Consent | Majority | RankedChoice

  /** The `votes` record of a decision. Majority decisions keep their "yes" and
      "no" counts in `agree` and `disagree`. */
  datatype Votes = Votes(agree: nat, disagree: nat, abstain: nat, block: nat,
                         total: nat, totalMembers: nat)

  datatype Decision = Decision(
    id: string,
    title: string,
    description: string,
    authorId: string,
    communityId: string,
    createdAt: int,
    closesAt: int,
    voteMethod: VoteMethod,
    status: string,
    votes: Votes)

  // ---------------------------------------------------------------------------
  // Tally update (`handleVote`)
  // ---------------------------------------------------------------------------

  /** The four counters a position can land in. */
  datatype Bucket = Agree | Disagree | Abstain | Block

  /** The counter a position string increments, if any. */
  function BucketOf(position: string): Option<Bucket> {
    if position == "agree" || position == "yes" then Some(Agree)
    else if position == "disagree" || position == "no" then Some(Disagree)
    else if position == "abstain" then Some(Abstain)
    else if position == "block" then Some(Block)
    else None
  }

  function Count(v: Votes, b: Bucket): nat {
    match b
    case Agree => v.agree
    case Disagree => v.disagree
    case Abstain => v.abstain
    case Block => v.block
  }

  /** The tally after one more vote for `position`: the position's counter (if it
      has one) and `total` each rise by one, and nothing else changes. */
  function Tallied(v: Votes, position: string): (r: Votes)
    ensures r.total == v.total + 1
    ensures r.totalMembers == v.totalMembers
    ensures forall b :: Count(r, b) == Count(v, b) + (if BucketOf(position) == Some(b) then 1 else 0)
  {
    var counted := match BucketOf(position)
      case Some(Agree) => v.(agree := v.agree + 1)
      case Some(Disagree) => v.(disagree := v.disagree + 1)
      case Some(Abstain) => v.(abstain := v.abstain + 1)
      case Some(Block) => v.(block := v.block + 1)
      case None => v;
    counted.(total := counted.total + 1)
  }

  /** The increments `handleVote` applies to its copy of a decision's votes. */
  method CountVote(v: Votes, position: string) returns (votes: Votes)
    ensures votes == Tallied(v, position)
  {
    votes := v;
    if position == "agree" || position == "yes" {
      votes := votes.(agree := votes.agree + 1);
    } else if position == "disagree" || position == "no" {
      votes := votes.(disagree := votes.disagree + 1);
    } else if position == "abstain" {
      votes := votes.(abstain := votes.abstain + 1);
    } else if position == "block" {
      votes := votes.(block := votes.block + 1);
    }
    votes := votes.(total := votes.total + 1);
  }

  /** Each recognised position increments exactly its own counter; any other
      string increments `total` alone. */
  lemma TallyByPosition(v: Votes, position: string)
    ensures position == "agree" || position == "yes" ==>
      Tallied(v, position) == v.(agree := v.agree + 1, total := v.total + 1)
    ensures position == "disagree" || position == "no" ==>
      Tallied(v, position) == v.(disagree := v.disagree + 1, total := v.total + 1)
    ensures position == "abstain" ==>
      Tallied(v, position) == v.(abstain := v.abstain + 1, total := v.total + 1)
    ensures position == "block" ==>
      Tallied(v, position) == v.(block := v.block + 1, total := v.total + 1)
    ensures BucketOf(position) == None ==> Tallied(v, position) == v.(total := v.total + 1)
  {
  }

  /** The counters add up to the number of votes cast. */
  predicate Consistent(v: Votes) {
    v.agree + v.disagree + v.abstain + v.block == v.total
  }

  /** A vote for a recognised position keeps the counters adding up. */
  lemma RecognisedVoteKeepsConsistency(v: Votes, position: string)
    requires Consistent(v)
    requires BucketOf(position).Some?
    ensures Consistent(Tallied(v, position))
  {
    var r := Tallied(v, position);
    assert Count(r, Agree) + Count(r, Disagree) + Count(r, Abstain) + Count(r, Block)
        == Count(v, Agree) + Count(v, Disagree) + Count(v, Abstain) + Count(v, Block) + 1;
  }

  /** A vote for an unrecognised position raises `total` without any counter, so
      the counters no longer add up. */
  lemma UnrecognisedVoteBreaksConsistency(v: Votes, position: string)
    requires Consistent(v)
    requires BucketOf(position) == None
    ensures !Consistent(Tallied(v, position))
  {
    var r := Tallied(v, position);
    assert Count(r, Agree) + Count(r, Disagree) + Count(r, Abstain) + Count(r, Block)
        == Count(v, Agree) + Count(v, Disagree) + Count(v, Abstain) + Count(v, Block);
  }

  /** The decision list after a vote on the decision with id `selectedId`: that
      decision's tally is updated, every other decision and the order are kept. */
  function CastVote(ds: seq<Decision>, selectedId: string, position: string): (r: seq<Decision>)
    ensures |r| == |ds|
    ensures forall i :: 0 <= i < |ds| && ds[i].id != selectedId ==> r[i] == ds[i]
    ensures forall i :: 0 <= i < |ds| && ds[i].id == selectedId ==>
              r[i] == ds[i].(votes := Tallied(ds[i].votes, position))
  {
    if ds == [] then []
    else
      var d := ds[0];
      var d' := if d.id == selectedId then d.(votes := Tallied(d.votes, position)) else d;
      [d'] + CastVote(ds[1..], selectedId, position)
  }

  /** After a vote, the voted decision counts one more vote and keeps its
      electorate; its other fields are as before. */
  lemma CastVoteOnSelected(ds: seq<Decision>, selectedId: string, position: string, i: nat)
    requires i < |ds| && ds[i].id == selectedId
    ensures var d := CastVote(ds, selectedId, position)[i];
      d.votes.total == ds[i].votes.total + 1 &&
      d.votes.totalMembers == ds[i].votes.totalMembers &&
      d.(votes := ds[i].votes) == ds[i]
  {
  }

  /** A recognised vote keeps every decision's counters adding up. */
  lemma {:induction false} CastVoteKeepsConsistency(ds: seq<Decision>, selectedId: string, position: string)
    requires forall d :: d in ds ==> Consistent(d.votes)
    requires BucketOf(position).Some?
    ensures forall d :: d in CastVote(ds, selectedId, position) ==> Consistent(d.votes)
  {
    var r := CastVote(ds, selectedId, position);
    forall d | d in r
      ensures Consistent(d.votes)
    {
      var i :| 0 <= i < |r| && r[i] == d;
      if ds[i].id == selectedId {
        RecognisedVoteKeepsConsistency(ds[i].votes, position);
      }
    }
  }

  /** `handleVote` as written: the updated list is computed, then dropped, and
      the page keeps showing the list it had. */
  function DisplayedAfterVoteAsWritten(ds: seq<Decision>, selectedId: string, position: string): (shown: seq<Decision>)
    ensures shown == ds
  {
    var updated := CastVote(ds, selectedId, position);
    ds
  }

  // ---------------------------------------------------------------------------
  // Deadline label (`daysRemaining`)
  // ---------------------------------------------------------------------------

  const DayMs: int := 1000 * 60 * 60 * 24

  /** `Math.ceil(a / b)` for a positive divisor: the least integer `q` with `a <= q * b`. */
  function CeilDiv(a: int, b: int): (q: int)
    requires b > 0
    ensures (q - 1) * b < a <= q * b
  {
    var k := (-a) / b;
    assert -a == k * b + (-a) % b;
    -k
  }

  /** Whole days left until `closesAt`, rounded up. */
  function DaysUntil(closesAt: int, now: int): int {
    CeilDiv(closesAt - now, DayMs)
  }

  datatype Deadline = Closed | ClosingToday | OneDayLeft | DaysLeft(days: int)

  /** `daysRemaining`: a negative day count reads "Closed", zero "Closing today",
      one "1 day left"; a count is shown from two days on. */
  function DaysRemaining(closesAt: int, now: int): (r: Deadline)
    ensures r == Closed <==> DaysUntil(closesAt, now) < 0
    ensures r.DaysLeft? ==> r.days >= 2 && r.days == DaysUntil(closesAt, now)
  {
    var d := DaysUntil(closesAt, now);
    if d < 0 then Closed
    else if d == 0 then ClosingToday
    else if d == 1 then OneDayLeft
    else DaysLeft(d)
  }

  const DaysLeftSuffix: string := " days left"

  /** The text the page shows for a label: a day count is written in decimal
      in front of " days left". */
  function DeadlineText(deadline: Deadline): (text: string)
    ensures deadline.DaysLeft? && deadline.days >= 0 ==>
      |text| > |DaysLeftSuffix| && text[|text| - |DaysLeftSuffix|..] == DaysLeftSuffix &&
      IsDecimal(text[..|text| - |DaysLeftSuffix|]) &&
      DecimalValue(text[..|text| - |DaysLeftSuffix|]) == deadline.days
  {
    match deadline
    case Closed => "Closed"
    case ClosingToday => "Closing today"
    case OneDayLeft => "1 day left"
    case DaysLeft(n) =>
      var digits := DecimalText(if n < 0 then 0 else n);
      var text := digits + DaysLeftSuffix;
      assert text[..|text| - |DaysLeftSuffix|] == digits;
      assert text[|text| - |DaysLeftSuffix|..] == DaysLeftSuffix;
      text
  }

  predicate IsDigit(c: char) {
    '0' <= c <= '9'
  }

  /** Decimal digits without a leading zero, or "0" itself. */
  ghost predicate IsDecimal(s: string) {
    |s| >= 1 && (forall i :: 0 <= i < |s| ==> IsDigit(s[i])) && (s[0] == '0' ==> s == "0")
  }

  /** The number a string of decimal digits denotes. */
  ghost function DecimalValue(s: string): int
    decreases |s|
  {
    if s == [] then 0
    else 10 * DecimalValue(s[..|s| - 1]) + (s[|s| - 1] as int - '0' as int)
  }

  /** `${n}` for a non-negative integer: its decimal digits, no leading zero. */
  function DecimalText(n: nat): (s: string)
    ensures IsDecimal(s)
    ensures DecimalValue(s) == n
    decreases n
  {
    var digit := ['0' + (n % 10) as char];
    if n < 10 then digit
    else
      var front := DecimalText(n / 10);
      var s := front + digit;
      assert s[..|s| - 1] == front;
      s
  }

  /** Different labels of `daysRemaining` read differently: the text alone tells
      which label, and which day count, the page meant. */
  lemma {:induction false} DeadlineTextDistinguishes(closesAt1: int, now1: int, closesAt2: int, now2: int)
    requires DeadlineText(DaysRemaining(closesAt1, now1)) == DeadlineText(DaysRemaining(closesAt2, now2))
    ensures DaysRemaining(closesAt1, now1) == DaysRemaining(closesAt2, now2)
  {
    var l1, l2 := DaysRemaining(closesAt1, now1), DaysRemaining(closesAt2, now2);
    var t := DeadlineText(l1);
    if l1.DaysLeft? && l2.DaysLeft? {
      assert DecimalValue(t[..|t| - |DaysLeftSuffix|]) == l1.days == l2.days;
    } else if l1.DaysLeft? {
      FixedTextsLackSuffix(l2);
    } else if l2.DaysLeft? {
      FixedTextsLackSuffix(l1);
    }
  }

  /** Only a day count ends in " days left": "1 day left" is the suffix's
      length and no longer. */
  lemma FixedTextsLackSuffix(l: Deadline)
    requires !l.DaysLeft?
    ensures var t := DeadlineText(l);
      !(|t| > |DaysLeftSuffix| && t[|t| - |DaysLeftSuffix|..] == DaysLeftSuffix)
  {
    var t := DeadlineText(l);
    if l == ClosingToday {
      assert t[|t| - |DaysLeftSuffix|] == 's' != DaysLeftSuffix[0];
    }
  }

  /** The label in terms of the time left, `closesAt - now` milliseconds:
      a deadline passed by less than a whole day still reads "Closing today". */
  lemma DeadlineLabelByTimeLeft(closesAt: int, now: int)
    ensures DaysRemaining(closesAt, now) == Closed <==> closesAt - now <= -DayMs
    ensures DaysRemaining(closesAt, now) == ClosingToday <==> -DayMs < closesAt - now <= 0
    ensures DaysRemaining(closesAt, now) == OneDayLeft <==> 0 < closesAt - now <= DayMs
    ensures DaysRemaining(closesAt, now).DaysLeft? <==> closesAt - now > DayMs
    ensures DaysRemaining(closesAt, now).DaysLeft? ==>
      var n := DaysRemaining(closesAt, now).days;
      n >= 2 && (n - 1) * DayMs < closesAt - now <= n * DayMs
  {
    var a := closesAt - now;
    var d := DaysUntil(closesAt, now);
    assert (d - 1) * DayMs < a <= d * DayMs;
    if d < 0 {
      assert d * DayMs <= -DayMs;
    } else if d >= 2 {
      assert (d - 1) * DayMs >= DayMs;
    }
  }

  /** A later deadline, seen at the same moment, never has fewer days left. */
  lemma DaysUntilMonotone(closesAt1: int, closesAt2: int, now: int)
    requires closesAt1 <= closesAt2
    ensures DaysUntil(closesAt1, now) <= DaysUntil(closesAt2, now)
  {
    var q1, q2 := DaysUntil(closesAt1, now), DaysUntil(closesAt2, now);
    if q1 > q2 {
      MulMonotone(q2, q1 - 1, DayMs);
      assert false;
    }
  }

  lemma MulMonotone(x: int, y: int, b: int)
    requires x <= y && b > 0
    ensures x * b <= y * b
  {
    assert y * b - x * b == (y - x) * b;
  }

  // ---------------------------------------------------------------------------
  // List filter (`filteredDecisions`)
  // ---------------------------------------------------------------------------

  /** The page's filter state: `searchTerm`, `communityFilter` and `activeTab`. */
  datatype DecisionQuery = DecisionQuery(search: string, community: string, tab: string)

  predicate KeepsDecision(q: DecisionQuery, d: Decision) {
    var matchesSearch := MatchesSearch(d.title, q.search) || MatchesSearch(d.description, q.search);
    var matchesCommunity := q.community == "all" || d.communityId == q.community;
    if q.tab == "active" then matchesSearch && matchesCommunity && d.status == "active"
    else if q.tab == "my-votes" then matchesSearch && matchesCommunity && (d.id == "1" || d.id == "3")
    else matchesSearch && matchesCommunity
  }

  /** The decisions shown: those whose title or description contains the search
      text (ignoring case) and that belong to the selected community; the
      "active" tab also wants status "active", the "my-votes" tab the ids "1" and "3". */
  function FilterDecisions(ds: seq<Decision>, q: DecisionQuery): (r: seq<Decision>)
    ensures IsSubList(r, ds)
    ensures forall x :: x in r ==> multiset(r)[x] == multiset(ds)[x]
    ensures forall d :: d in r <==>
      d in ds &&
      (MatchesSearch(d.title, q.search) || MatchesSearch(d.description, q.search)) &&
      (q.community == "all" || d.communityId == q.community) &&
      (q.tab == "active" ==> d.status == "active") &&
      (q.tab == "my-votes" ==> d.id == "1" || d.id == "3")
  {
    Filter(ds, d => KeepsDecision(q, d))
  }

  /** Tabs other than "active" and "my-votes" add no condition of their own. */
  lemma DecisionsOtherTabsAlike(ds: seq<Decision>, q: DecisionQuery, tab: string)
    requires q.tab != "active" && q.tab != "my-votes"
    requires tab != "active" && tab != "my-votes"
    ensures FilterDecisions(ds, q) == FilterDecisions(ds, q.(tab := tab))
  {
    var q' := q.(tab := tab);
    FilterCongruent(ds, d => KeepsDecision(q, d), d => KeepsDecision(q', d));
  }

  // ---------------------------------------------------------------------------
  // Seeded data
  // ---------------------------------------------------------------------------

  /** The page's five mock decisions, with their timestamps in milliseconds. */
  const SeedDecisions: seq<Decision> := [
    Decision("1", "Solar Panel Installation",
      "Proposal to install solar panels on the community center roof to reduce energy costs.",
      "1", "2", 1714727700000, 1716249599000, Consent, "active", Votes(8, 1, 2, 0, 11, 28)),
    Decision("2", "Greenhouse Construction Proposal",
      "Building a community greenhouse to extend our growing season and increase food production.",
      "3", "1", 1714908600000, 1715817599000, Majority, "active", Votes(17, 6, 3, 0, 26, 45)),
    Decision("3", "Community Workshop Schedule",
      "Setting the calendar for skill-sharing workshops for the next quarter.",
      "4", "3", 1714833900000, 1716076799000, Consent, "active", Votes(15, 0, 5, 0, 20, 34)),
    Decision("4", "New Member Approval: Jane Doe",
      "Voting on accepting Jane Doe as a new community member after her trial period.",
      "5", "1", 1714644000000, 1715558399000, Consent, "active", Votes(29, 0, 3, 1, 33, 45)),
    Decision("5", "Community Guidelines Update",
      "Proposed changes to our community guidelines around quiet hours and shared spaces.",
      "2", "2", 1714581000000, 1715471999000, Majority, "active", Votes(14, 7, 2, 0, 23, 28))
  ]

  /** Every seeded tally adds up. */
  lemma SeedTalliesConsistent()
    ensures forall d :: d in SeedDecisions ==> Consistent(d.votes)
  {
  }

  /** As written, a vote on the first seeded decision leaves its displayed total
      at 11, although the updated list counts 12. */
  lemma VoteLostAsWritten()
    ensures DisplayedAfterVoteAsWritten(SeedDecisions, "1", "agree")[0].votes.total == 11
    ensures CastVote(SeedDecisions, "1", "agree")[0].votes.total == 12
  {
  }
}
