/** The public feedback endpoint: anyone may list the reviewed feedback or
    submit new feedback. */
module Views {
  import opened Wrappers
  import opened Records
  import opened Serializers

  /** `Feedback.objects.filter(is_reviewed=True)`, in table order. */
  function PublicQueryset(rs: seq<Feedback>): (r: seq<Feedback>)
    ensures |r| <= |rs|
    ensures forall x :: x in r ==> x in rs && x.isReviewed
    ensures forall x :: x in rs && x.isReviewed ==> x in r
  {
    if rs == [] then []
    else
      var last := rs[|rs| - 1];
      PublicQueryset(rs[..|rs| - 1]) + (if last.isReviewed then [last] else [])
  }

  /** The listing keeps the table's order: ids still ascend. */
  lemma {:induction false} PublicQuerysetKeepsOrder(rs: seq<Feedback>)
    requires IdsAscending(rs)
    ensures IdsAscending(PublicQueryset(rs))
  {
    if rs != [] {
      var init, last := rs[..|rs| - 1], rs[|rs| - 1];
      assert IdsAscending(init) by {
        forall i, j | 0 <= i < j < |init| ensures init[i].id < init[j].id {
          assert init[i] == rs[i] && init[j] == rs[j];
        }
      }
      PublicQuerysetKeepsOrder(init);
      var q := PublicQueryset(init);
      forall x | x in q ensures x.id < last.id {
        var k :| 0 <= k < |init| && init[k] == x;
        assert rs[k] == x;
      }
    }
  }

  /** A listing made only of reviewed rows passes the filter unchanged; in
      particular, filtering twice is filtering once. */
  lemma {:induction false} PublicQuerysetOfReviewed(rs: seq<Feedback>)
    requires forall k :: 0 <= k < |rs| ==> rs[k].isReviewed
    ensures PublicQueryset(rs) == rs
  {
    if rs != [] {
      var init := rs[..|rs| - 1];
      PublicQuerysetOfReviewed(init);
      assert rs == init + [rs[|rs| - 1]];
    }
  }

  lemma PublicQuerysetIdempotent(rs: seq<Feedback>)
    ensures PublicQueryset(PublicQueryset(rs)) == PublicQueryset(rs)
  {
    var q := PublicQueryset(rs);
    assert forall k :: 0 <= k < |q| ==> q[k] in q;
    PublicQuerysetOfReviewed(q);
  }

  /** One more row of the table adds that row to the listing when it is
      reviewed, and nothing otherwise. */
  lemma PublicQuerysetStep(rows: seq<Feedback>, i: nat)
    requires i < |rows|
    ensures PublicQueryset(rows[..i + 1])
      == PublicQueryset(rows[..i]) + (if rows[i].isReviewed then [rows[i]] else [])
  {
    assert rows[..i + 1][..i] == rows[..i];
  }

  /** GET: the public representation of every reviewed row, in table order.
      It changes nothing, and needs no authentication. */
  method ListFeedback(store: FeedbackStore) returns (body: seq<Object>)
    ensures |body| == |PublicQueryset(store.records)|
    ensures forall k :: 0 <= k < |body| ==> body[k] == Represent(PublicQueryset(store.records)[k])
  {
    var rows := store.records;
    body := [];
    ghost var shown: seq<Feedback> := [];
    var i := 0;
    while i < |rows|
      invariant 0 <= i <= |rows|
      invariant shown == PublicQueryset(rows[..i])
      invariant |body| == |shown|
      invariant forall k :: 0 <= k < |body| ==> body[k] == Represent(shown[k])
    {
      PublicQuerysetStep(rows, i);
      if rows[i].isReviewed {
        body := body + [Represent(rows[i])];
        shown := shown + [rows[i]];
      }
      i := i + 1;
    }
    assert rows[..i] == rows;
  }

  /** POST: a valid body adds exactly one row, built from the title and
      content alone, not yet reviewed, and answers with its public
      representation; an invalid body changes nothing and answers with the
      field errors. */
  method CreateFeedback(store: FeedbackStore, body: map<string, Json>, now: Timestamp)
    returns (response: Result<Object, FieldErrors>)
    requires store.Valid()
    modifies store
    ensures store.Valid()
    ensures response.Failure? <==> Validate(body).Failure?
    ensures response.Failure? ==>
      response.error == Validate(body).error
      && store.records == old(store.records) && store.nextId == old(store.nextId)
    ensures response.Success? ==>
      var draft := Validate(body).value;
      var saved := Feedback(old(store.nextId), draft.title, draft.content, now, false, None);
      store.records == old(store.records) + [saved] && store.nextId == old(store.nextId) + 1
      && response.value == Represent(saved)
  {
    var validated := Validate(body);
    if validated.Failure? {
      return Failure(validated.error);
    }
    var saved := store.Save(validated.value.title, validated.value.content, false, now);
    response := Success(Represent(saved));
  }
}
