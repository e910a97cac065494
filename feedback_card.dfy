/** The feedback card: how a record's optional review flag is displayed, and
    what the review checkbox asks for. */
module FeedbackCard {
  import opened Wrappers
  import Records
  import Serializers

  datatype Border = Green | Yellow

  /** Green for an undefined or true flag, yellow for false. */
  function BorderOf(isReviewed: Option<bool>): (b: Border)
    ensures b == Green <==> isReviewed == None || isReviewed == Some(true)
    ensures b == Yellow <==> isReviewed == Some(false)
  {
    match isReviewed
    case None => Green
    case Some(b) => if b then Green else Yellow
  }

  /** `is_reviewed || false`: undefined shows unchecked. */
  function Checked(isReviewed: Option<bool>): (c: bool)
    ensures c <==> isReviewed == Some(true)
  {
    isReviewed.GetOr(false)
  }

  /** The status line: none for an undefined flag. */
  function StatusText(isReviewed: Option<bool>): (s: Option<string>)
    ensures s.None? <==> isReviewed.None?
    ensures s == Some("Reviewed") <==> isReviewed == Some(true)
    ensures s == Some("Pending") <==> isReviewed == Some(false)
  {
    match isReviewed
    case None => None
    case Some(b) => Some(if b then "Reviewed" else "Pending")
  }

  /** The call made when the checkbox changes: `onToggleReview(id,
      !is_reviewed)` if a callback is given, nothing otherwise. */
  function Toggle(id: int, isReviewed: Option<bool>, hasCallback: bool): (call: Option<(int, bool)>)
    ensures call.Some? <==> hasCallback
    ensures call.Some? ==> call.value.0 == id && call.value.1 == !Checked(isReviewed)
    ensures isReviewed == None && hasCallback ==> call == Some((id, true))
  {
    if hasCallback then Some((id, !isReviewed.GetOr(false))) else None
  }

  /** What the card shows; the checkbox, with its checked state, only for an
      admin (an undefined `isAdmin` is false). */
  datatype Card = Card(border: Border, checkbox: Option<bool>, status: Option<string>)

  function View(isReviewed: Option<bool>, isAdmin: bool): (c: Card)
    ensures c.checkbox.Some? <==> isAdmin
    ensures c.checkbox.Some? ==> c.checkbox.value == Checked(isReviewed)
    ensures c.border == BorderOf(isReviewed) && c.status == StatusText(isReviewed)
  {
    Card(BorderOf(isReviewed), if isAdmin then Some(Checked(isReviewed)) else None, StatusText(isReviewed))
  }

  /** For an admin the checkbox and the status line always agree, a yellow
      border means "Pending", and the requested flag is the opposite of what
      the box shows; once saved, the box shows it. */
  lemma AdminCardAgrees(id: int, isReviewed: Option<bool>)
    requires isReviewed.Some?
    ensures View(isReviewed, true).checkbox == Some(true) <==> View(isReviewed, true).status == Some("Reviewed")
    ensures View(isReviewed, true).border == Yellow <==> View(isReviewed, true).status == Some("Pending")
    ensures var requested := Toggle(id, isReviewed, true).value.1;
      View(Some(requested), true).checkbox == Some(!Checked(isReviewed))
  {
  }

  /** The `is_reviewed` property of a received record, as `JSON.parse`
      leaves it: the last entry under that key wins. Present exactly when
      there is such an entry and the last one holds a boolean, and then it is
      that boolean. */
  function ReviewFlag(o: Serializers.Object): (f: Option<bool>)
    ensures f.Some? <==> exists k :: 0 <= k < |o| && o[k].0 == "is_reviewed" && o[k].1.JBool?
                                    && forall j :: k < j < |o| ==> o[j].0 != "is_reviewed"
    ensures f.Some? ==> exists k :: 0 <= k < |o| && o[k] == ("is_reviewed", Serializers.JBool(f.value))
                                    && forall j :: k < j < |o| ==> o[j].0 != "is_reviewed"
  {
    if o == [] then None
    else if o[|o| - 1].0 == "is_reviewed" then
      if o[|o| - 1].1.JBool? then Some(o[|o| - 1].1.b) else None
    else ReviewFlag(o[..|o| - 1])
  }

  /** A record from the public endpoint has no review flag, so its card is
      green and has no status line, whatever its stored state. */
  lemma PublicRecordCard(r: Records.Feedback, isAdmin: bool)
    ensures ReviewFlag(Serializers.Represent(r)) == None
    ensures View(ReviewFlag(Serializers.Represent(r)), isAdmin).border == Green
    ensures View(ReviewFlag(Serializers.Represent(r)), isAdmin).status == None
  {
  }
}
