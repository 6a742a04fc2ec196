/** The profile edit form: the name validator and the save handler that drops
    `undefined` entries before calling the profile mutation. */
module ProfileEditing {
  import opened Wrappers
  import opened Lists

  /** One entry of `Object.entries(values)`; `None` is `undefined`. */
  type Entry = (string, Option<string>)

  const NameTooShort: string := "Name is too short!"

  /** The submit validator: an error for `name` when it has fewer than three
      characters, and for no other field. */
  function FieldErrors(name: string): (errors: map<string, string>)
    ensures errors.Keys <= {"name"}
    ensures "name" in errors <==> |name| < 3
    ensures "name" in errors ==> errors["name"] == NameTooShort
  {
    if |name| < 3 then map["name" := NameTooShort] else map[]
  }

  /** Three characters are enough. */
  lemma NameLengthBoundary()
    ensures "name" in FieldErrors("Al")
    ensures FieldErrors("Ali") == map[]
  {
  }

  predicate IsDefined(e: Entry) {
    e.1.Some?
  }

  /** The defined entries with their values unwrapped. */
  function Unwrap(es: seq<Entry>): (r: seq<(string, string)>)
    requires forall i :: 0 <= i < |es| ==> IsDefined(es[i])
    ensures |r| == |es|
    ensures forall i :: 0 <= i < |es| ==> es[i] == (r[i].0, Some(r[i].1))
  {
    if es == [] then []
    else
      assert IsDefined(es[0]);
      [(es[0].0, es[0].1.value)] + Unwrap(es[1..])
  }

  /** A string-valued entry list viewed as entries again. */
  function Wrap(kvs: seq<(string, string)>): seq<Entry> {
    if kvs == [] then [] else [(kvs[0].0, Some(kvs[0].1))] + Wrap(kvs[1..])
  }

  /** `Object.fromEntries(Object.entries(values).filter(([_, v]) => v !== undefined))`:
      exactly the entries whose value is defined, empty strings included, in
      their original order. */
  function DefinedEntries(values: seq<Entry>): (r: seq<(string, string)>)
    ensures IsSubList(Wrap(r), values)
    ensures forall k, v :: (k, v) in r <==> (k, Some(v)) in values
    ensures forall e :: multiset(Wrap(r))[e] == (if IsDefined(e) then multiset(values)[e] else 0)
  {
    var kept := Filter(values, IsDefined);
    var r := Unwrap(kept);
    WrapUnwrap(kept);
    UnwrapMembers(kept);
    r
  }

  lemma UnwrapMembers(kept: seq<Entry>)
    requires forall i :: 0 <= i < |kept| ==> IsDefined(kept[i])
    ensures forall k, v :: (k, v) in Unwrap(kept) <==> (k, Some(v)) in kept
  {
    var r := Unwrap(kept);
    forall k, v ensures (k, v) in r <==> (k, Some(v)) in kept {
      if (k, v) in r {
        var i :| 0 <= i < |r| && r[i] == (k, v);
        assert kept[i] == (k, Some(v));
      }
      if (k, Some(v)) in kept {
        var i :| 0 <= i < |kept| && kept[i] == (k, Some(v));
        assert r[i] == (k, v);
      }
    }
  }

  lemma {:induction false} WrapUnwrap(es: seq<Entry>)
    requires forall i :: 0 <= i < |es| ==> IsDefined(es[i])
    ensures Wrap(Unwrap(es)) == es
  {
    if es != [] {
      WrapUnwrap(es[1..]);
    }
  }

  /** An entry whose value is the empty string is kept. */
  lemma EmptyStringKept(values: seq<Entry>, key: string)
    requires (key, Some("")) in values
    ensures (key, "") in DefinedEntries(values)
  {
  }

  /** What `handleSave` did: the map sent to the mutation, and the map passed to
      `onSave` (only once the mutation has resolved). */
  datatype SaveEffect = SaveEffect(sent: seq<(string, string)>, saved: Option<seq<(string, string)>>)

  /** `handleSave`; `mutationOk` says whether `mutateAsync` resolves. */
  function HandleSave(values: seq<Entry>, mutationOk: bool): (e: SaveEffect)
    ensures e.sent == DefinedEntries(values)
    ensures mutationOk ==> e.saved == Some(e.sent)
    ensures !mutationOk ==> e.saved == None
  {
    var filtered := DefinedEntries(values);
    if mutationOk then SaveEffect(filtered, Some(filtered)) else SaveEffect(filtered, None)
  }

  /** A submit: the validator runs first, and `onSubmit` (hence `handleSave`)
      runs only when it reports no error. */
  function Submit(name: string, values: seq<Entry>, mutationOk: bool): (r: Result<SaveEffect, map<string, string>>)
    ensures r.Success? <==> |name| >= 3
    ensures r.Failure? ==> r.error.Keys == {"name"}
    ensures r.Success? ==> r.value.sent == DefinedEntries(values)
    ensures r.Success? ==> r.value.saved == (if mutationOk then Some(r.value.sent) else None)
  {
    var errors := FieldErrors(name);
    if errors == map[] then Success(HandleSave(values, mutationOk)) else Failure(errors)
  }
}
