/**
 * The external data source, reduced to what the analytics core observes.
 *
 * A follower or followee listing is lazy and paginated in the service; the core
 * only ever sees it one username at a time, in the order the service yields,
 * and any read may raise (login required, throttled, blocked). A `Listing`
 * records the finite sequence of usernames a fresh enumeration would yield and,
 * optionally, the index of the read at which it raises instead.
 */
module Source {

  datatype Option<+T> = None | Some(value: T)

  type Username = string

  /** One read from a listing: the next username, exhaustion, or an error. */
  datatype Step = Item(name: Username) | End | Raise

  datatype Listing = Listing(items: seq<Username>, fault: Option<nat>)

  /** The profile snapshot the core works on: privacy flag and the two listings (the username is only displayed). */
  datatype Profile = Profile(username: Username, isPrivate: bool, followers: Listing, followees: Listing)

  /** Which listing of a profile a collector enumerates. */
  datatype Kind = Followers | Followees

  function ListingOf(p: Profile, kind: Kind): Listing
  {
    match kind
    case Followers => p.followers
    case Followees => p.followees
  }

  /** The `i`-th read of a fresh enumeration (reads past the end are never issued). */
  function Pull(s: Listing, i: nat): Step
    requires i <= |s.items|
  {
    if s.fault == Some(i) then Raise
    else if i < |s.items| then Item(s.items[i])
    else End
  }

  /** How many usernames an enumeration capped at `limit` hands on: `min(limit, n)`, never negative. */
  function Cap(s: Listing, limit: int): nat
  {
    if limit <= 0 then 0 else if limit < |s.items| then limit else |s.items|
  }

  /** The listing raises at one of the reads `0..n`. */
  predicate FaultWithin(s: Listing, n: nat)
  {
    s.fault.Some? && s.fault.value <= n
  }
}
