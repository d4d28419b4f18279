/**
 * src/components/CommentsPane.tsx: the submit handler of the thread panel. A
 * submit first checks the draft and the `submitting` flag, then awaits `add` on
 * the trimmed draft, clears the draft only on an error-free result and always
 * drops `submitting` at the end. The await splits the handler in two methods:
 * `BeginSubmit` up to the call, `FinishSubmit` from its outcome on.
 */
module CommentsPane {
  import opened Wrappers
  import opened Text
  import opened Comments
  import opened UseComments

  /** How the awaited `add(...)` ended: a result with or without `error`, or an exception. */
  datatype AddOutcome = Returned(failed: bool) | Threw

  /** The draft after the call: cleared on success only. */
  function DraftAfter(draft: string, outcome: AddOutcome): (r: string)
    ensures outcome == Returned(false) ==> r == ""
    ensures outcome != Returned(false) ==> r == draft
  {
    if outcome == Returned(false) then "" else draft
  }

  /**
   * The outcome as the pane is wired: it reads `add` as `data?.add`, but the
   * record `useComments` returns has no `data` field, so `add` is undefined and
   * calling it throws, whatever the hook would have answered.
   */
  function OutcomeAsWritten(reply: AddReply): (o: AddOutcome)
    ensures o.Threw?
  {
    Threw
  }

  /** The outcome with `add` taken from the hook's own fields: its reply, failed when it carries an error. */
  function OutcomeCorrected(reply: AddReply): (o: AddOutcome)
    ensures o == Returned(reply.HasError())
  {
    Returned(reply.HasError())
  }

  /** As wired, a submit the hook would have stored without error still keeps the draft. */
  lemma AsWrittenKeepsDraft(draft: string)
    requires draft != ""
    ensures var stored := Replied(AddResult(None, None));
      !stored.HasError() && DraftAfter(draft, OutcomeAsWritten(stored)) == draft
  {
  }

  /** With the hook's own `add`, the draft is cleared exactly when the hook reports no error. */
  lemma CorrectedClearsOnSuccess(draft: string, reply: AddReply)
    requires draft != ""
    ensures DraftAfter(draft, OutcomeCorrected(reply)) == "" <==> !reply.HasError()
  {
  }

  class CommentsPane {
    var draft: string
    var submitting: bool

    constructor ()
      ensures draft == "" && !submitting
    {
      draft := "";
      submitting := false;
    }

    /** The text area's `onChange`. */
    method SetDraft(text: string)
      modifies this
      ensures draft == text && submitting == old(submitting)
    {
      draft := text;
    }

    /** `handleSubmit` up to the awaited call; `call` is the argument `add` receives, None when it is not called. */
    method BeginSubmit() returns (call: Option<string>)
      modifies this
      ensures AllSpace(old(draft)) || old(submitting) ==>
        call.None? && draft == old(draft) && submitting == old(submitting)
      ensures !AllSpace(old(draft)) && !old(submitting) ==>
        call == Some(Trim(old(draft))) && Trim(old(draft)) != "" && draft == old(draft) && submitting
    {
      if Trim(draft) == "" || submitting {
        return None;
      }
      submitting := true;
      call := Some(Trim(draft));
    }

    /** `handleSubmit` after the call: the draft goes only on success, `submitting` always goes back to false. */
    method FinishSubmit(outcome: AddOutcome)
      modifies this
      ensures draft == DraftAfter(old(draft), outcome) && !submitting
    {
      if outcome == Returned(false) {
        draft := "";
      }
      submitting := false;
    }
  }
}
