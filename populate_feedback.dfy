/** The `populate_feedback` management command: replace the table with 65
    numbered sample rows whose review state is picked at random. */
module PopulateFeedback {
  import opened Wrappers
  import opened Text
  import opened Records

  const ItemCount: nat := 65

  function ItemTitle(i: nat): string {
    "Feedback Title " + NatToDecimal(i)
  }

  /** The sentence that opens item `i`'s content. */
  function ItemLead(i: nat): string {
    "This is the detailed content for feedback item number " + NatToDecimal(i) + "."
  }

  const Filler :=
    " It provides some example text to simulate real user input. "
    + "Lorem ipsum dolor sit amet, consectetur adipiscing elit, sed do eiusmod tempor incididunt ut labore et dolore magna aliqua. "
    + "Ut enim ad minim veniam, quis nostrud exercitation ullamco laboris nisi ut aliquip ex ea commodo consequat."

  function ItemContent(i: nat): (c: string)
    ensures |ItemLead(i)| <= |c| && c[..|ItemLead(i)|] == ItemLead(i)
  {
    ItemLead(i) + Filler
  }

  /** Different item numbers get different titles. */
  lemma ItemTitlesDistinct(i: nat, j: nat)
    requires ItemTitle(i) == ItemTitle(j)
    ensures i == j
  {
    var prefix := "Feedback Title ";
    assert ItemTitle(i)[|prefix|..] == NatToDecimal(i);
    assert ItemTitle(j)[|prefix|..] == NatToDecimal(j);
    DecimalInjective(i, j);
  }

  /** An unsaved row: title, content and the randomly picked review state. */
  datatype Item = Item(title: string, content: string, isReviewed: bool)

  /** The building loop of `Command.handle`: items 1..65 in order, each with
      `random.choice` over true and false (modelled as an arbitrary choice,
      returned in `picks`). */
  method BuildItems() returns (items: seq<Item>, picks: seq<bool>)
    ensures |items| == ItemCount && |picks| == ItemCount
    ensures forall k :: 0 <= k < ItemCount ==>
      items[k] == Item(ItemTitle(k + 1), ItemContent(k + 1), picks[k])
  {
    items := [];
    picks := [];
    for i := 1 to ItemCount + 1
      invariant |items| == i - 1 && |picks| == i - 1
      invariant forall k :: 0 <= k < |items| ==>
        items[k] == Item(ItemTitle(k + 1), ItemContent(k + 1), picks[k])
    {
      var isReviewed: bool := *;
      items := items + [Item(ItemTitle(i), ItemContent(i), isReviewed)];
      picks := picks + [isReviewed];
    }
  }

  /** The saving loop of `Command.handle`: each item is saved in order at
      `now`, with no review time, and counted. */
  method SaveAll(store: FeedbackStore, items: seq<Item>, now: Timestamp) returns (createdCount: nat)
    requires store.Valid()
    modifies store
    ensures store.Valid() && createdCount == |items|
    ensures |store.records| == |old(store.records)| + |items|
    ensures store.nextId == old(store.nextId) + |items|
    ensures store.records[..|old(store.records)|] == old(store.records)
    ensures forall k :: 0 <= k < |items| ==>
      store.records[|old(store.records)| + k]
        == Feedback(old(store.nextId) + k, items[k].title, items[k].content, now, items[k].isReviewed, None)
  {
    ghost var before := store.records;
    var first := store.nextId;
    createdCount := 0;
    for j := 0 to |items|
      invariant store.Valid() && createdCount == j
      invariant |store.records| == |before| + j && store.nextId == first + j
      invariant store.records[..|before|] == before
      invariant forall k :: 0 <= k < j ==>
        store.records[|before| + k] == Feedback(first + k, items[k].title, items[k].content, now, items[k].isReviewed, None)
    {
      var _ := store.Save(items[j].title, items[j].content, items[j].isReviewed, now);
      createdCount := createdCount + 1;
    }
  }

  /** `Command.handle`. The table is emptied, the items are built, then
      saved in order and counted. */
  method Handle(store: FeedbackStore, now: Timestamp)
    returns (createdCount: nat, picks: seq<bool>, messages: seq<string>)
    requires store.Valid()
    modifies store
    ensures store.Valid()
    ensures createdCount == ItemCount && |picks| == ItemCount && |store.records| == ItemCount
    ensures store.nextId == old(store.nextId) + ItemCount
    ensures forall k :: 0 <= k < ItemCount ==>
      store.records[k] == Feedback(old(store.nextId) + k, ItemTitle(k + 1), ItemContent(k + 1), now, picks[k], None)
    ensures messages == [
      "Starting to populate feedback data...",
      "Existing feedback data cleared.",
      "Successfully populated " + NatToDecimal(createdCount) + " feedback items."]
  {
    messages := ["Starting to populate feedback data..."];
    var _ := store.DeleteAll();
    messages := messages + ["Existing feedback data cleared."];
    var items;
    items, picks := BuildItems();
    createdCount := SaveAll(store, items, now);
    messages := messages + ["Successfully populated " + NatToDecimal(createdCount) + " feedback items."];
  }
}
