/** The vote dialog of the Decisions page: which positions it offers, when
    "Cast Vote" is enabled, and its two fields of state. */
module VoteDialogs {
  import opened Wrappers
  import opened Decisions

  /** The radio items the dialog renders, in order: consent decisions offer four
      positions, every other method the three of a majority vote. */
  function Offered(m: VoteMethod): (positions: seq<string>)
    ensures "block" in positions <==> m == Consent
    ensures "abstain" in positions
    ensures forall i, j :: 0 <= i < j < |positions| ==> positions[i] != positions[j]
  {
    if m == Consent then ["agree", "disagree", "abstain", "block"]
    else ["yes", "no", "abstain"]
  }

  /** Every offered position lands in a counter of the tally, and "block" is
      offered under consent alone. */
  lemma OfferedPositionsAreCounted(m: VoteMethod, p: string)
    requires p in Offered(m)
    ensures BucketOf(p).Some?
    ensures p == "block" ==> m == Consent
  {
  }

  /** "Cast Vote" is enabled once a position is chosen and, for a block, a
      statement is present; the statement is not trimmed. */
  function CanSubmit(position: string, statement: string): (b: bool)
    ensures position == "" ==> !b
    ensures position != "" && position != "block" ==> b
    ensures position == "block" ==> (b <==> statement != "")
  {
    !(position == "" || (position == "block" && statement == ""))
  }

  /** A statement of spaces alone is enough for a block. */
  lemma WhitespaceStatementEnablesBlock()
    ensures CanSubmit("block", " ")
  {
  }

  /** A position offered under any method other than consent never needs a statement. */
  lemma NonConsentNeverNeedsStatement(m: VoteMethod, p: string, statement: string)
    requires m != Consent && p in Offered(m)
    ensures CanSubmit(p, statement)
  {
  }

  /** The block warning is shown exactly for a chosen block, a position only
      consent decisions offer. */
  function ShowsBlockWarning(position: string): (shown: bool)
    ensures shown ==> position in Offered(Consent) && position !in Offered(Majority)
  {
    position == "block"
  }

  /** Once a position is chosen, the warning is shown exactly when an empty
      statement keeps "Cast Vote" disabled: the label's "but required for
      blocks" and the button agree. */
  lemma WarningIffStatementRequired(position: string)
    requires position != ""
    ensures ShowsBlockWarning(position) <==> !CanSubmit(position, "")
  {
  }

  class VoteDialog {
    /** The `isOpen` prop, which the page's `onClose` handler clears. */
    var isOpen: bool
    /** The voting method of the decision the dialog was opened for. */
    var voteMethod: VoteMethod
    var position: string
    var statement: string

    /** The chosen position, if any, is one the dialog offers. */
    ghost predicate Valid()
      reads this
    {
      position == "" || position in Offered(voteMethod)
    }

    /** The dialog as first mounted for a decision: open, nothing chosen. */
    constructor (m: VoteMethod)
      ensures Valid()
      ensures isOpen && voteMethod == m && position == "" && statement == ""
    {
      isOpen := true;
      voteMethod := m;
      position := "";
      statement := "";
    }

    predicate SubmitEnabled()
      reads this
    {
      CanSubmit(position, statement)
    }

    /** The radio group's `onValueChange`, which only reports offered values. */
    method Choose(p: string)
      requires p in Offered(voteMethod)
      modifies this`position
      ensures Valid() && position == p
    {
      position := p;
    }

    /** The statement text area's `onChange`. */
    method EditStatement(s: string)
      modifies this`statement
      ensures Valid() == old(Valid()) && statement == s
    {
      statement := s;
    }

    /** `handleSubmit`: hands the current position and statement to `onVote`,
        clears both fields and closes. Reached from the enabled button alone. */
    method Submit() returns (votedPosition: string, votedStatement: string)
      requires SubmitEnabled()
      modifies this`position, this`statement, this`isOpen
      ensures Valid()
      ensures votedPosition == old(position) && votedStatement == old(statement)
      ensures old(Valid()) ==> votedPosition in Offered(voteMethod) && BucketOf(votedPosition).Some?
      ensures position == "" && statement == "" && !isOpen && voteMethod == old(voteMethod)
    {
      if Valid() {
        OfferedPositionsAreCounted(voteMethod, position);
      }
      votedPosition, votedStatement := position, statement;
      position := "";
      statement := "";
      isOpen := false;
    }

    /** Cancel, or closing the dialog otherwise: `onClose` alone, so the
        fields keep what was entered. */
    method Cancel()
      modifies this`isOpen
      ensures !isOpen
    {
      isOpen := false;
    }

    /** Opening the mounted dialog for another decision, as the page does it:
        the `decision` prop changes while both fields keep their values. */
    method ReopenKeepingFields(m: VoteMethod)
      modifies this`isOpen, this`voteMethod
      ensures isOpen && voteMethod == m
    {
      isOpen := true;
      voteMethod := m;
    }

    /** Opening the dialog for a decision with nothing chosen yet. */
    method OpenFor(m: VoteMethod)
      modifies this
      ensures Valid()
      ensures isOpen && voteMethod == m && position == "" && statement == ""
    {
      isOpen := true;
      voteMethod := m;
      position := "";
      statement := "";
    }
  }

  /** As the page is written, a block chosen on a consent decision and then
      cancelled is still selected when the dialog is opened for a majority
      decision, and is submitted as that decision's vote. */
  method StaleBlockReachesMajorityDecision() returns (votedPosition: string)
    ensures votedPosition == "block"
  {
    var dialog := new VoteDialog(Consent);
    dialog.Choose("block");
    dialog.Cancel();
    dialog.ReopenKeepingFields(Majority);
    assert !dialog.Valid();
    dialog.EditStatement("objection");
    var statement;
    votedPosition, statement := dialog.Submit();
  }

  /** Opened afresh, a majority decision can only be sent one of its own positions. */
  method FreshDialogSendsOfferedPosition(p: string, s: string) returns (votedPosition: string)
    requires p in Offered(Majority)
    ensures votedPosition == p && votedPosition != "block"
  {
    var dialog := new VoteDialog(Consent);
    dialog.OpenFor(Majority);
    dialog.Choose(p);
    dialog.EditStatement(s);
    NonConsentNeverNeedsStatement(Majority, p, s);
    var st;
    votedPosition, st := dialog.Submit();
  }
}
