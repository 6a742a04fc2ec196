/** The Members directory: the name search and the fallback initials. */
module Members {
  import opened Text
  import opened Lists

  datatype Member = Member(id: int, name: string, role: string, location: string, email: string)

  /** The members shown: those whose name contains the search text, ignoring
      case; no other field is searched. */
  function FilterMembers(ms: seq<Member>, search: string): (r: seq<Member>)
    ensures IsSubList(r, ms)
    ensures forall x :: x in r ==> multiset(r)[x] == multiset(ms)[x]
    ensures forall m :: m in r <==> m in ms && MatchesSearch(m.name, search)
  {
    Filter(ms, (m: Member) => MatchesSearch(m.name, search))
  }

  /** An empty search shows every member. */
  lemma EmptySearchShowsAllMembers(ms: seq<Member>)
    ensures FilterMembers(ms, "") == ms
  {
    forall m | m in ms
      ensures MatchesSearch(m.name, "")
    {
      EmptySearchMatches(m.name);
    }
    FilterKeepsAll(ms, (m: Member) => MatchesSearch(m.name, ""));
  }

  /** `parts.map(n => n[0]).join("")`: the first character of each part; an
      empty part gives `undefined`, which `join` writes as nothing. */
  function FirstChars(parts: seq<string>): string {
    if parts == [] then []
    else (if parts[0] == [] then [] else [parts[0][0]]) + FirstChars(parts[1..])
  }

  /** `name.split(" ").map(n => n[0]).join("")`. */
  function Initials(name: string): (initials: string)
    ensures ' ' !in initials
    ensures |initials| <= |Split(name, ' ')|
  {
    var parts := Split(name, ' ');
    InitialsShape(parts);
    FirstChars(parts)
  }

  lemma {:induction false} FirstCharsConcat(a: seq<string>, b: seq<string>)
    ensures FirstChars(a + b) == FirstChars(a) + FirstChars(b)
  {
    if a != [] {
      assert (a + b)[0] == a[0];
      assert (a + b)[1..] == a[1..] + b;
      FirstCharsConcat(a[1..], b);
    } else {
      assert a + b == b;
    }
  }

  /** The initials of two names joined by a space are the initials of each, one after the other. */
  lemma InitialsOfJoinedNames(first: string, rest: string)
    ensures Initials(first + " " + rest) == Initials(first) + Initials(rest)
  {
    SplitConcat(first, rest, ' ');
    FirstCharsConcat(Split(first, ' '), Split(rest, ' '));
  }

  /** A name without spaces gives its own first character. */
  lemma InitialOfSingleWord(word: string)
    requires word != [] && ' ' !in word
    ensures Initials(word) == [word[0]]
  {
    SplitWithoutSeparator(word, ' ');
    assert Initials(word) == FirstChars([word]);
    assert [word][1..] == [];
  }

  /** An empty name has no initials: `"".split(" ")` is `[""]`, and `""[0]` is
      `undefined`, which `join` writes as nothing. */
  lemma InitialsOfEmptyName()
    ensures Initials("") == ""
  {
    assert Split("", ' ') == [""];
  }

  /** An empty part adds nothing, so a leading space is ignored. */
  lemma LeadingSpaceIgnored(rest: string)
    ensures Initials(" " + rest) == Initials(rest)
  {
    InitialsOfEmptyName();
    InitialsOfJoinedNames("", rest);
    assert "" + " " + rest == " " + rest;
  }

  /** No initial is a space, and there is at most one per part of the name. */
  lemma {:induction false} InitialsShape(parts: seq<string>)
    requires forall k :: 0 <= k < |parts| ==> ' ' !in parts[k]
    ensures ' ' !in FirstChars(parts)
    ensures |FirstChars(parts)| <= |parts|
  {
    if parts != [] {
      InitialsShape(parts[1..]);
    }
  }

  /** A first and a last name give two letters: "Emma Watson" gives "EW". */
  lemma TwoWordInitials(first: string, last: string)
    requires first != [] && ' ' !in first
    requires last != [] && ' ' !in last
    ensures Initials(first + " " + last) == [first[0], last[0]]
  {
    InitialOfSingleWord(first);
    InitialOfSingleWord(last);
    InitialsOfJoinedNames(first, last);
  }
}
