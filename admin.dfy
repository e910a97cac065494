/** The two bulk actions that the Django admin offers on selected feedback. */
module Admin {
  import opened Wrappers
  import opened Text
  import opened Records

  /** The table after "mark as reviewed" at time `now`. */
  function Reviewed(rs: seq<Feedback>, selected: set<nat>, now: Timestamp): seq<Feedback> {
    WithReview(rs, selected, true, Some(now))
  }

  /** The table after "mark as unreviewed". */
  function Unreviewed(rs: seq<Feedback>, selected: set<nat>): seq<Feedback> {
    WithReview(rs, selected, false, None)
  }

  /** `mark_as_reviewed`: the clock is read once, so every selected row gets
      the same `reviewed_at`; the admin is told how many rows changed. */
  method MarkAsReviewed(store: FeedbackStore, selected: set<nat>, now: Timestamp)
    returns (updatedCount: nat, message: string)
    requires store.Valid()
    modifies store
    ensures store.Valid() && store.nextId == old(store.nextId)
    ensures store.records == Reviewed(old(store.records), selected, now)
    ensures updatedCount == CountSelected(old(store.records), selected)
    ensures message == NatToDecimal(updatedCount) + " feedback(s) marked as reviewed."
  {
    updatedCount := store.Update(selected, true, Some(now));
    message := NatToDecimal(updatedCount) + " feedback(s) marked as reviewed.";
  }

  /** `mark_as_unreviewed`: selected rows lose their review and its time. */
  method MarkAsUnreviewed(store: FeedbackStore, selected: set<nat>)
    returns (updatedCount: nat, message: string)
    requires store.Valid()
    modifies store
    ensures store.Valid() && store.nextId == old(store.nextId)
    ensures store.records == Unreviewed(old(store.records), selected)
    ensures updatedCount == CountSelected(old(store.records), selected)
    ensures message == NatToDecimal(updatedCount) + " feedback(s) marked as unreviewed."
  {
    updatedCount := store.Update(selected, false, None);
    message := NatToDecimal(updatedCount) + " feedback(s) marked as unreviewed.";
  }

  /** Every selected row is reviewed at `now`, keeps its id, title, content and
      creation time; every other row is untouched. */
  lemma ReviewedRows(rs: seq<Feedback>, selected: set<nat>, now: Timestamp, k: nat)
    requires k < |rs|
    ensures |Reviewed(rs, selected, now)| == |rs|
    ensures var r, r' := rs[k], Reviewed(rs, selected, now)[k];
      && r'.id == r.id && r'.title == r.title && r'.content == r.content && r'.createdAt == r.createdAt
      && (r.id in selected ==> r'.isReviewed && r'.reviewedAt == Some(now))
      && (r.id !in selected ==> r' == r)
  {
  }

  /** Every selected row is pending with no review time afterwards, keeping its
      other fields; every other row is untouched. */
  lemma UnreviewedRows(rs: seq<Feedback>, selected: set<nat>, k: nat)
    requires k < |rs|
    ensures |Unreviewed(rs, selected)| == |rs|
    ensures var r, r' := rs[k], Unreviewed(rs, selected)[k];
      && r'.id == r.id && r'.title == r.title && r'.content == r.content && r'.createdAt == r.createdAt
      && (r.id in selected ==> !r'.isReviewed && r'.reviewedAt == None)
      && (r.id !in selected ==> r' == r)
  {
  }

  /** All rows touched by one "mark as reviewed" share one timestamp. */
  lemma OneTimestampPerAction(rs: seq<Feedback>, selected: set<nat>, now: Timestamp, i: nat, j: nat)
    requires i < |rs| && j < |rs| && rs[i].id in selected && rs[j].id in selected
    ensures Reviewed(rs, selected, now)[i].reviewedAt == Reviewed(rs, selected, now)[j].reviewedAt
  {
  }

  /** Both actions leave every row they touch consistent, and keep a table in
      which every row is consistent that way. */
  lemma ActionsKeepReviewConsistency(rs: seq<Feedback>, selected: set<nat>, now: Timestamp)
    ensures forall k :: 0 <= k < |rs| && rs[k].id in selected ==>
      ReviewConsistent(Reviewed(rs, selected, now)[k]) && ReviewConsistent(Unreviewed(rs, selected)[k])
    ensures (forall r :: r in rs ==> ReviewConsistent(r)) ==>
      (forall r :: r in Reviewed(rs, selected, now) ==> ReviewConsistent(r))
      && (forall r :: r in Unreviewed(rs, selected) ==> ReviewConsistent(r))
  {
    if forall r :: r in rs ==> ReviewConsistent(r) {
      forall r | r in Reviewed(rs, selected, now) ensures ReviewConsistent(r) {
        var k :| 0 <= k < |rs| && Reviewed(rs, selected, now)[k] == r;
        assert rs[k] in rs;
      }
      forall r | r in Unreviewed(rs, selected) ensures ReviewConsistent(r) {
        var k :| 0 <= k < |rs| && Unreviewed(rs, selected)[k] == r;
        assert rs[k] in rs;
      }
    }
  }

  /** Marking unreviewed twice is marking unreviewed once. */
  lemma UnreviewIdempotent(rs: seq<Feedback>, selected: set<nat>)
    ensures Unreviewed(Unreviewed(rs, selected), selected) == Unreviewed(rs, selected)
  {
    var once := Unreviewed(rs, selected);
    assert forall k :: 0 <= k < |rs| ==> once[k].id == rs[k].id;
  }

  /** Marking reviewed again only moves `reviewed_at` to the later time. */
  lemma ReviewAgainMovesOnlyTimestamp(rs: seq<Feedback>, selected: set<nat>, first: Timestamp, second: Timestamp)
    ensures Reviewed(Reviewed(rs, selected, first), selected, second) == Reviewed(rs, selected, second)
    ensures forall k :: 0 <= k < |rs| ==>
      Reviewed(Reviewed(rs, selected, first), selected, second)[k]
        == Reviewed(rs, selected, first)[k].(reviewedAt := Reviewed(rs, selected, second)[k].reviewedAt)
  {
    var once := Reviewed(rs, selected, first);
    assert forall k :: 0 <= k < |rs| ==> once[k].id == rs[k].id;
  }

  /** The reported count is the number of selected ids present in the table,
      so it never exceeds the number of selected ids. */
  lemma UpdatedCountIsSelection(rs: seq<Feedback>, selected: set<nat>)
    requires IdsAscending(rs)
    ensures CountSelected(rs, selected) == |selected * Ids(rs)|
    ensures CountSelected(rs, selected) <= |selected|
  {
    CountSelectedIsMatchedIds(rs, selected);
    var matched, unmatched := selected * Ids(rs), selected - Ids(rs);
    assert selected == matched + unmatched && matched * unmatched == {};
  }
}
