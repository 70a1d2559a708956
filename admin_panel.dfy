/**
 * The administrator's reply panel (`components/AdminPanel.tsx`): a draft reply,
 * the suggestion it is being written for, and sending it, which sets or
 * overwrites the `feedback` of the suggestions with that id and nothing else.
 */
module AdminPanel {
  import opened Wrappers
  import opened Types
  import opened Seqs
  import Resources

  /** One suggestion after a reply `text` to `id`: the reply replaces any earlier one when the id matches. */
  function WithFeedback(s: UserSuggestion, id: string, text: string): (r: UserSuggestion)
    ensures s.id == id ==> r.feedback == Some(text)
    ensures s.id != id ==> r == s
    ensures r.(feedback := s.feedback) == s
  {
    if s.id == id then s.(feedback := Some(text)) else s
  }

  /** The suggestion list after a reply: the same length and order, only the targeted entries changed. */
  function ApplyFeedback(suggestions: seq<UserSuggestion>, id: string, text: string): (r: seq<UserSuggestion>)
    ensures |r| == |suggestions|
    ensures forall i :: 0 <= i < |r| && suggestions[i].id == id ==>
      r[i] == suggestions[i].(feedback := Some(text))
    ensures forall i :: 0 <= i < |r| && suggestions[i].id != id ==> r[i] == suggestions[i]
  {
    Map(suggestions, (s: UserSuggestion) => WithFeedback(s, id, text))
  }

  /** Sending the same reply twice leaves the list as sending it once. */
  lemma ApplyFeedbackIdempotent(suggestions: seq<UserSuggestion>, id: string, text: string)
    ensures ApplyFeedback(ApplyFeedback(suggestions, id, text), id, text) == ApplyFeedback(suggestions, id, text)
  {
    var once := ApplyFeedback(suggestions, id, text);
    var twice := ApplyFeedback(once, id, text);
    assert |twice| == |once|;
    forall i | 0 <= i < |once| ensures twice[i] == once[i] {
      if suggestions[i].id == id {
        assert once[i].id == id;
      }
    }
  }

  /** A non-empty reply leaves every targeted suggestion answered, so its author sees it as replied. */
  lemma NonEmptyReplyIsReplied(suggestions: seq<UserSuggestion>, id: string, text: string)
    requires text != ""
    ensures forall i :: 0 <= i < |suggestions| && suggestions[i].id == id ==>
      HasFeedback(ApplyFeedback(suggestions, id, text)[i]) &&
      Resources.StatusLabel(ApplyFeedback(suggestions, id, text)[i]) == Resources.Replied
  {
  }

  /** A reply changes no suggestion's author, so every user's own list keeps its length. */
  lemma {:induction false} ApplyFeedbackKeepsOwnership(suggestions: seq<UserSuggestion>, id: string, text: string, userId: string)
    ensures |Resources.MySuggestions(ApplyFeedback(suggestions, id, text), userId)|
         == |Resources.MySuggestions(suggestions, userId)|
    decreases |suggestions|
  {
    if suggestions != [] {
      var r := ApplyFeedback(suggestions, id, text);
      assert r[1..] == ApplyFeedback(suggestions[1..], id, text);
      assert r[0].userId == suggestions[0].userId;
      ApplyFeedbackKeepsOwnership(suggestions[1..], id, text, userId);
    }
  }

  /** The state of the mounted panel. */
  class Panel {
    var suggestions: seq<UserSuggestion>
    var replyText: string
    var activeReplyId: Option<string>

    constructor (suggestions: seq<UserSuggestion>)
      ensures this.suggestions == suggestions && replyText == "" && activeReplyId == None
    {
      this.suggestions := suggestions;
      replyText := "";
      activeReplyId := None;
    }

    /** The "reply now" or "edit reply" button of a listed suggestion opens its reply box. */
    method OpenReply(id: string)
      requires exists i :: 0 <= i < |suggestions| && suggestions[i].id == id
      modifies this`activeReplyId
      ensures activeReplyId == Some(id)
    {
      activeReplyId := Some(id);
    }

    /** Typing in an open reply box. */
    method EditReply(text: string)
      requires activeReplyId.Some?
      modifies this`replyText
      ensures replyText == text
    {
      replyText := text;
    }

    /** The cancel button closes the reply box and keeps the draft. */
    method CancelReply()
      modifies this`activeReplyId
      ensures activeReplyId == None
    {
      activeReplyId := None;
    }

    /** Sending the draft to `id`: nothing happens without text; otherwise the reply is stored and the draft and box reset. */
    method HandleSendFeedback(id: string)
      modifies this`suggestions, this`replyText, this`activeReplyId
      ensures old(replyText) == "" ==>
        suggestions == old(suggestions) && replyText == old(replyText) && activeReplyId == old(activeReplyId)
      ensures old(replyText) != "" ==>
        suggestions == ApplyFeedback(old(suggestions), id, old(replyText)) && replyText == "" && activeReplyId == None
    {
      if replyText == "" {
        return;
      }
      suggestions := ApplyFeedback(suggestions, id, replyText);
      replyText := "";
      activeReplyId := None;
    }
  }
}
