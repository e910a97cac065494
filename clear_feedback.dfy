/** The `clear_feedback` management command: delete every feedback row,
    after a confirmation unless `--no-input` is given. */
module ClearFeedback {
  import opened Wrappers
  import opened Text
  import opened Records

  /** What the command reports. `CommandError` is the exception it raises. */
  datatype Outcome =
    | Cancelled(message: string)
    | Deleted(count: nat, message: string)
    | CommandError(message: string)

  /** Deletion goes ahead with `--no-input`, or when the typed answer
      lower-cases to exactly "yes": that is, when it is "yes" in any mix of
      case, with nothing around it. */
  function Confirmed(noInput: bool, answer: string): (ok: bool)
    ensures noInput ==> ok
    ensures !noInput ==>
      (ok <==> |answer| == 3 && (answer[0] == 'y' || answer[0] == 'Y')
               && (answer[1] == 'e' || answer[1] == 'E') && (answer[2] == 's' || answer[2] == 'S'))
  {
    LowerEqualsWord(answer, "yes");
    assert UpperChar('y') == 'Y' && UpperChar('e') == 'E' && UpperChar('s') == 'S';
    noInput || Lower(answer) == "yes"
  }

  lemma ConfirmationExamples()
    ensures Confirmed(false, "yes") && Confirmed(false, "YES") && Confirmed(false, "Yes")
    ensures !Confirmed(false, "y") && !Confirmed(false, " yes") && !Confirmed(false, "yes ")
    ensures !Confirmed(false, "no") && !Confirmed(false, "")
    ensures forall answer :: Confirmed(true, answer)
  {
  }

  const CancelledMessage := "Operation cancelled by user."
  const ErrorPrefix := "Error deleting feedback entries: "

  /** `Command.handle`. `answer` is what the user types at the prompt (read
      only without `--no-input`); `failure` is the text of the database error
      if the delete fails, in which case the delete is rolled back. */
  method Handle(store: FeedbackStore, noInput: bool, answer: string, failure: Option<string>)
    returns (outcome: Outcome)
    requires store.Valid()
    modifies store
    ensures store.Valid() && store.nextId == old(store.nextId)
    ensures outcome.Cancelled? <==> !Confirmed(noInput, answer)
    ensures outcome.CommandError? <==> Confirmed(noInput, answer) && failure.Some?
    ensures outcome.Cancelled? ==> outcome.message == CancelledMessage && store.records == old(store.records)
    ensures outcome.CommandError? ==>
      outcome.message == ErrorPrefix + failure.value && store.records == old(store.records)
    ensures outcome.Deleted? ==>
      && store.records == []
      && outcome.count == |old(store.records)|
      && outcome.message == "Successfully deleted " + NatToDecimal(outcome.count) + " feedback entries."
  {
    if !noInput {
      if Lower(answer) != "yes" {
        return Cancelled(CancelledMessage);
      }
    }
    if failure.Some? {
      return CommandError(ErrorPrefix + failure.value);
    }
    var deleted := store.DeleteAll();
    outcome := Deleted(deleted, "Successfully deleted " + NatToDecimal(deleted) + " feedback entries.");
  }
}
