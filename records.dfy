/** The feedback table: the records the server stores and the three ways the
    server code changes it (save one row, delete every row, bulk update of the
    review columns). */
module Records {
  import opened Wrappers

  /** A point in time as `timezone.now()` gives it; only equality matters here. */
  type Timestamp = int

  /** One row of the feedback table. */
  datatype Feedback = Feedback(
    id: nat,
    title: string,
    content: string,
    createdAt: Timestamp,
    isReviewed: bool,
    reviewedAt: Option<Timestamp>)

  /** Rows are kept in insertion order, which is the order of their ids. */
  ghost predicate IdsAscending(rs: seq<Feedback>) {
    forall i, j :: 0 <= i < j < |rs| ==> rs[i].id < rs[j].id
  }

  function Ids(rs: seq<Feedback>): set<nat> {
    set r | r in rs :: r.id
  }

  /** `reviewed_at` is missing exactly when the row is not reviewed. */
  predicate ReviewConsistent(r: Feedback) {
    !r.isReviewed <==> r.reviewedAt == None
  }

  /** One row after `SET is_reviewed = flag, reviewed_at = at` if it is selected. */
  function SetReview(r: Feedback, selected: set<nat>, flag: bool, at: Option<Timestamp>): Feedback {
    if r.id in selected then r.(isReviewed := flag, reviewedAt := at) else r
  }

  /** The table after the bulk update of the selected rows: same rows in the
      same order, every row keeps its id, title, content and creation time,
      each selected row gets the new flag and time, and every other row is
      left as it was. */
  function WithReview(rs: seq<Feedback>, selected: set<nat>, flag: bool, at: Option<Timestamp>): (r: seq<Feedback>)
    ensures |r| == |rs|
    ensures forall k :: 0 <= k < |rs| ==>
      r[k].id == rs[k].id && r[k].title == rs[k].title && r[k].content == rs[k].content
      && r[k].createdAt == rs[k].createdAt
    ensures forall k :: 0 <= k < |rs| && rs[k].id in selected ==> r[k].isReviewed == flag && r[k].reviewedAt == at
    ensures forall k :: 0 <= k < |rs| && rs[k].id !in selected ==> r[k] == rs[k]
  {
    seq(|rs|, k requires 0 <= k < |rs| => SetReview(rs[k], selected, flag, at))
  }

  /** The number of rows whose id is selected, counted from the front: at
      most the number of rows. */
  function CountSelected(rs: seq<Feedback>, selected: set<nat>): (c: nat)
    ensures c <= |rs|
  {
    if rs == [] then 0
    else CountSelected(rs[..|rs| - 1], selected) + (if rs[|rs| - 1].id in selected then 1 else 0)
  }

  /** One more row adds one to the count exactly when it is selected. */
  lemma CountSelectedStep(rs: seq<Feedback>, selected: set<nat>, i: nat)
    requires i < |rs|
    ensures CountSelected(rs[..i + 1], selected)
      == CountSelected(rs[..i], selected) + (if rs[i].id in selected then 1 else 0)
  {
    assert rs[..i + 1][..i] == rs[..i];
  }

  /** The count is zero exactly when no row is selected. */
  lemma {:induction false} CountSelectedZero(rs: seq<Feedback>, selected: set<nat>)
    ensures CountSelected(rs, selected) == 0 <==> forall k :: 0 <= k < |rs| ==> rs[k].id !in selected
  {
    if rs != [] {
      var init := rs[..|rs| - 1];
      CountSelectedZero(init, selected);
      assert forall k :: 0 <= k < |init| ==> init[k] == rs[k];
    }
  }

  /** With distinct ids, the count of selected rows is the number of selected
      ids that exist in the table (ids that match no row update nothing). */
  lemma {:induction false} CountSelectedIsMatchedIds(rs: seq<Feedback>, selected: set<nat>)
    requires IdsAscending(rs)
    ensures CountSelected(rs, selected) == |selected * Ids(rs)|
  {
    if rs != [] {
      var init, last := rs[..|rs| - 1], rs[|rs| - 1];
      IdsAscendingInit(rs);
      CountSelectedIsMatchedIds(init, selected);
      IdsOfSnoc(rs);
      MatchedWithNewId(selected, Ids(init), last.id);
    }
  }

  /** Dropping the last row keeps the ids ascending. */
  lemma IdsAscendingInit(rs: seq<Feedback>)
    requires rs != [] && IdsAscending(rs)
    ensures IdsAscending(rs[..|rs| - 1])
  {
    var init := rs[..|rs| - 1];
    forall i, j | 0 <= i < j < |init| ensures init[i].id < init[j].id {
      assert init[i] == rs[i] && init[j] == rs[j];
    }
  }

  /** A new id adds one matched id when it is selected, none otherwise. */
  lemma MatchedWithNewId(selected: set<nat>, ids: set<nat>, x: nat)
    requires x !in ids
    ensures |selected * (ids + {x})| == |selected * ids| + (if x in selected then 1 else 0)
  {
    if x in selected {
      assert selected * (ids + {x}) == (selected * ids) + {x};
    } else {
      assert selected * (ids + {x}) == selected * ids;
    }
  }

  /** The ids of a table are those of all rows but the last, plus the last one,
      which is new when ids ascend. */
  lemma IdsOfSnoc(rs: seq<Feedback>)
    requires rs != [] && IdsAscending(rs)
    ensures Ids(rs) == Ids(rs[..|rs| - 1]) + {rs[|rs| - 1].id}
    ensures rs[|rs| - 1].id !in Ids(rs[..|rs| - 1])
  {
    var init := rs[..|rs| - 1];
    assert rs == init + [rs[|rs| - 1]];
    assert forall r :: r in init ==> r.id < rs[|rs| - 1].id;
  }

  /** A table updated row by row is the bulk update. */
  lemma RowwiseReview(rs: seq<Feedback>, before: seq<Feedback>, selected: set<nat>, flag: bool, at: Option<Timestamp>)
    requires |rs| == |before|
    requires forall k :: 0 <= k < |rs| ==> rs[k] == SetReview(before[k], selected, flag, at)
    ensures rs == WithReview(before, selected, flag, at)
  {
  }

  /** The table. Ids come from an auto-increment counter that never goes back,
      so a deleted id is not handed out again. */
  class FeedbackStore {
    var records: seq<Feedback>
    var nextId: nat

    ghost predicate Valid()
      reads this
    {
      && IdsAscending(records)
      && (forall k :: 0 <= k < |records| ==> records[k].id < nextId)
    }

    constructor ()
      ensures Valid() && records == [] && nextId == 1
    {
      records := [];
      nextId := 1;
    }

    /** `Model.save()` of a new row: it gets the next id and `reviewed_at` is empty. */
    method Save(title: string, content: string, isReviewed: bool, now: Timestamp) returns (saved: Feedback)
      requires Valid()
      modifies this
      ensures Valid()
      ensures saved == Feedback(old(nextId), title, content, now, isReviewed, None)
      ensures records == old(records) + [saved] && nextId == old(nextId) + 1
    {
      saved := Feedback(nextId, title, content, now, isReviewed, None);
      records := records + [saved];
      nextId := nextId + 1;
    }

    /** `Feedback.objects.all().delete()`; returns the number of rows deleted. */
    method DeleteAll() returns (deleted: nat)
      requires Valid()
      modifies this`records
      ensures Valid()
      ensures records == [] && deleted == |old(records)|
    {
      deleted := |records|;
      records := [];
    }

    /** `queryset.update(is_reviewed=flag, reviewed_at=at)` over the rows whose
        id is selected; returns the number of rows updated. */
    method Update(selected: set<nat>, flag: bool, at: Option<Timestamp>) returns (count: nat)
      requires Valid()
      modifies this`records
      ensures Valid()
      ensures records == WithReview(old(records), selected, flag, at)
      ensures count == CountSelected(old(records), selected)
    {
      ghost var before := records;
      count := 0;
      var i := 0;
      while i < |records|
        invariant 0 <= i <= |records| == |before|
        invariant forall k :: 0 <= k < i ==> records[k] == SetReview(before[k], selected, flag, at)
        invariant forall k :: i <= k < |records| ==> records[k] == before[k]
        invariant count == CountSelected(before[..i], selected)
      {
        if records[i].id in selected {
          records := records[i := records[i].(isReviewed := flag, reviewedAt := at)];
          count := count + 1;
        }
        CountSelectedStep(before, selected, i);
        i := i + 1;
      }
      assert before[..i] == before;
      RowwiseReview(records, before, selected, flag, at);
    }
  }
}
