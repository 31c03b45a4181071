/**
 * The bounded enumeration shared by `get_followers_list`, `get_following_list`
 * and the target loop of `mutual_friends_finder`: read the listing in order,
 * stop at exhaustion or once the read index reaches `limit`, and append every
 * username read before that. The index test comes after the read, so when the
 * listing is longer than `limit` one more username is read and dropped. An
 * error on any read aborts the loop; the collectors then return `[]`.
 */
module Collect {
  import opened Source
  import opened Pacing

  /** Seconds slept after each username the loop appends. */
  const ItemPause: real := 2.0

  /** What the loop has appended when it stops: the usernames before the failing read, or the first `Cap` ones. */
  function Taken(s: Listing, limit: int): (r: seq<Username>)
    ensures r <= s.items
    ensures |r| <= Cap(s, limit)
    ensures !FaultWithin(s, Cap(s, limit)) ==> |r| == Cap(s, limit)
    ensures FaultWithin(s, Cap(s, limit)) ==> |r| == s.fault.value
  {
    if FaultWithin(s, Cap(s, limit)) then s.items[..s.fault.value] else s.items[..Cap(s, limit)]
  }

  /**
   * The loop itself. `raised` reports that a read raised; `requests` counts the
   * reads issued, which is always one more than the usernames appended. After
   * each append the loop sleeps `ItemPause` seconds on `clock`.
   */
  method TakeUpTo(s: Listing, limit: int, clock: Clock) returns (names: seq<Username>, raised: bool, ghost requests: nat)
    modifies clock
    ensures raised <==> FaultWithin(s, Cap(s, limit))
    ensures names == Taken(s, limit)
    ensures requests == |names| + 1
    ensures clock.now == old(clock.now) + ItemPause * (|names| as real)
  {
    names, raised, requests := [], false, 0;
    var i := 0;
    var done := false;
    while !done
      invariant 0 <= i <= Cap(s, limit)
      invariant names == s.items[..i]
      invariant s.fault.Some? ==> i <= s.fault.value
      invariant !done ==> !raised
      invariant done ==> (raised <==> s.fault == Some(i))
      invariant done && !raised ==> i == Cap(s, limit)
      invariant requests == i + (if done then 1 else 0)
      invariant clock.now == old(clock.now) + ItemPause * (i as real)
      decreases |s.items| - i, if done then 0 else 1
    {
      var step := Pull(s, i);
      requests := requests + 1;
      match step {
        case Raise =>
          raised, done := true, true;
        case End =>
          done := true;
        case Item(name) =>
          if i >= limit {
            done := true;
          } else {
            names := names + [name];
            clock.Sleep(ItemPause);
            i := i + 1;
          }
      }
    }
  }

  /** What a collector returns once the gate has passed: all of `Taken`, or nothing if a read raised. */
  function Sample(s: Listing, limit: int): (r: seq<Username>)
    ensures r == [] || r == s.items[..Cap(s, limit)]
    ensures r <= s.items
    ensures |r| <= |s.items|
    ensures 0 <= limit ==> |r| <= limit
    ensures limit <= 0 ==> r == []
  {
    if FaultWithin(s, Cap(s, limit)) then [] else Taken(s, limit)
  }

  /** With a source that never raises, the sample is the first `min(limit, n)` usernames in source order. */
  lemma SampleWithoutFault(s: Listing, limit: nat)
    requires s.fault.None?
    ensures |Sample(s, limit)| == Cap(s, limit)
    ensures forall i :: 0 <= i < |Sample(s, limit)| ==> Sample(s, limit)[i] == s.items[i]
  {
  }

  /** An error after `k` usernames were read and appended discards them all. */
  lemma PartialProgressDiscarded(s: Listing, limit: int, k: nat)
    requires s.fault == Some(k) && k <= Cap(s, limit)
    ensures |Taken(s, limit)| == k
    ensures Sample(s, limit) == []
  {
  }

  /**
   * The read past the limit: a listing longer than `limit` that raises exactly
   * on read `limit` yields nothing, although its first `limit` usernames were read.
   */
  lemma ReadPastLimit(s: Listing, limit: nat)
    requires limit < |s.items| && s.fault == Some(limit)
    ensures Taken(s, limit) == s.items[..limit]
    ensures Sample(s, limit) == []
  {
  }

  /** A successful sample under a larger limit extends the sample under a smaller one. */
  lemma SampleLimitMonotone(s: Listing, small: int, large: int)
    requires small <= large
    requires !FaultWithin(s, Cap(s, large))
    ensures Sample(s, small) <= Sample(s, large)
  {
  }
}
