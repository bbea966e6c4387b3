/** The read helpers of abstweet/models.py, over a sequence of records that
    stands for the table. */
module Queries {
  import opened Wrappers
  import opened Tweets

  /** `get_created_in_range(start, end)`: the records with
      `start <= created_at < end`, each as often as the store holds it. */
  function CreatedInRange(store: seq<Tweet>, start: Timestamp, end: Timestamp): (r: seq<Tweet>)
    ensures forall t :: multiset(r)[t] == if start <= t.createdAt < end then multiset(store)[t] else 0
    ensures forall t :: t in r <==> t in store && start <= t.createdAt < end
  {
    if store == [] then []
    else
      var rest := CreatedInRange(store[1..], start, end);
      assert store == [store[0]] + store[1..];
      if start <= store[0].createdAt < end then [store[0]] + rest else rest
  }

  /** `get_earliest_created_at()`: `None` on an empty store, otherwise the
      smallest `created_at`. */
  function EarliestCreatedAt(store: seq<Tweet>): (r: Option<Timestamp>)
    ensures r.None? <==> store == []
    ensures r.Some? ==> exists i :: 0 <= i < |store| && store[i].createdAt == r.value
    ensures r.Some? ==> forall i :: 0 <= i < |store| ==> r.value <= store[i].createdAt
  {
    if store == [] then None
    else
      match EarliestCreatedAt(store[1..])
      case None => Some(store[0].createdAt)
      case Some(m) =>
        assert forall i :: 1 <= i < |store| ==> store[i] == store[1..][i - 1];
        if store[0].createdAt <= m then Some(store[0].createdAt) else Some(m)
  }

  /** `get_latest_created_at()`: `None` on an empty store, otherwise the
      largest `created_at`. */
  function LatestCreatedAt(store: seq<Tweet>): (r: Option<Timestamp>)
    ensures r.None? <==> store == []
    ensures r.Some? ==> exists i :: 0 <= i < |store| && store[i].createdAt == r.value
    ensures r.Some? ==> forall i :: 0 <= i < |store| ==> store[i].createdAt <= r.value
  {
    if store == [] then None
    else
      match LatestCreatedAt(store[1..])
      case None => Some(store[0].createdAt)
      case Some(m) =>
        assert forall i :: 1 <= i < |store| ==> store[i] == store[1..][i - 1];
        if m <= store[0].createdAt then Some(store[0].createdAt) else Some(m)
  }

  /** The lower bound is inclusive and the upper bound exclusive. */
  lemma RangeBounds(store: seq<Tweet>, t: Tweet, start: Timestamp, end: Timestamp)
    requires t in store
    ensures t.createdAt == start && start < end ==> t in CreatedInRange(store, start, end)
    ensures t.createdAt == end ==> t !in CreatedInRange(store, start, end)
  {
  }

  /** An empty or inverted range selects nothing. */
  lemma EmptyRange(store: seq<Tweet>, start: Timestamp, end: Timestamp)
    requires end <= start
    ensures CreatedInRange(store, start, end) == []
  {
    if CreatedInRange(store, start, end) != [] {
      assert CreatedInRange(store, start, end)[0] in CreatedInRange(store, start, end);
    }
  }

  /** On a non-empty store the earliest time is at most the latest. */
  lemma EarliestNotAfterLatest(store: seq<Tweet>)
    requires store != []
    ensures EarliestCreatedAt(store).Some? && LatestCreatedAt(store).Some?
    ensures EarliestCreatedAt(store).value <= LatestCreatedAt(store).value
  {
    assert EarliestCreatedAt(store).value <= store[0].createdAt;
  }

  /** The range from the earliest time up to just past the latest holds
      every record of the store, in order. */
  lemma FullRangeIsStore(store: seq<Tweet>, earliest: Timestamp, latest: Timestamp)
    requires EarliestCreatedAt(store) == Some(earliest)
    requires LatestCreatedAt(store) == Some(latest)
    ensures CreatedInRange(store, earliest, latest + 1) == store
  {
    AllInRange(store, earliest, latest + 1);
  }

  lemma {:induction false} AllInRange(store: seq<Tweet>, start: Timestamp, end: Timestamp)
    requires forall i :: 0 <= i < |store| ==> start <= store[i].createdAt < end
    ensures CreatedInRange(store, start, end) == store
  {
    if store != [] {
      AllInRange(store[1..], start, end);
    }
  }
}
