/** The comment box of a discussion's page: the draft, the "Post Comment"
    guard and the displayed comment count. */
module DiscussionDetails {
  import opened Text

  datatype Comment = Comment(id: string, authorId: string, authorName: string, content: string, createdAt: int)

  class DiscussionPage {
    /** The discussion's comments; posting does not add to them. */
    const comments: seq<Comment>
    /** The `newComment` draft. */
    var newComment: string

    constructor (comments: seq<Comment>)
      ensures this.comments == comments && newComment == ""
    {
      this.comments := comments;
      newComment := "";
    }

    /** The text area's `onChange`. */
    method EditDraft(text: string)
      modifies this`newComment
      ensures newComment == text
    {
      newComment := text;
    }

    /** "Post Comment" is disabled exactly when the draft is whitespace only. */
    function PostDisabled(): (disabled: bool)
      reads this
      ensures disabled <==> forall i :: 0 <= i < |newComment| ==> IsWhitespace(newComment[i])
    {
      BlankIffAllWhitespace(newComment);
      IsBlank(newComment)
    }

    /** `handleSubmitComment`: a blank draft changes nothing; any other draft is
        posted (a toast) and cleared. */
    method HandleSubmitComment() returns (posted: bool)
      modifies this`newComment
      ensures posted <==> !old(PostDisabled())
      ensures posted ==> newComment == ""
      ensures !posted ==> newComment == old(newComment)
    {
      if IsBlank(newComment) {
        return false;
      }
      newComment := "";
      posted := true;
    }
  }
}
