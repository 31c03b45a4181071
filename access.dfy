/**
 * The follower-access probe (`can_access_followers`): a private profile is
 * refused without touching the source; otherwise exactly one read is issued,
 * and access is granted when that read yields a username. An empty listing or
 * an error on that read refuses access.
 */
module Access {
  import opened Source

  /** Why the probe decided as it did (the three refusals print different messages). */
  datatype Verdict = Private | NoFollowers | FetchFailed | Granted

  function Probe(p: Profile): (v: Verdict)
    ensures v == Private <==> p.isPrivate
    ensures v == FetchFailed <==> !p.isPrivate && p.followers.fault == Some(0)
    ensures v == Granted <==> !p.isPrivate && |p.followers.items| > 0 && p.followers.fault != Some(0)
    ensures v == NoFollowers <==> !p.isPrivate && p.followers.items == [] && p.followers.fault != Some(0)
  {
    if p.isPrivate then Private
    else
      match Pull(p.followers, 0)
      case Item(_) => Granted
      case End => NoFollowers
      case Raise => FetchFailed
  }

  predicate Accessible(p: Profile)
  {
    Probe(p) == Granted
  }

  /**
   * The probe as the program runs it. `requests` is the number of reads issued to
   * the follower listing: none for a private profile, and only the first one
   * otherwise (the loop breaks after its first iteration).
   */
  method CanAccessFollowers(p: Profile) returns (ok: bool, ghost requests: nat)
    ensures ok <==> !p.isPrivate && |p.followers.items| > 0 && p.followers.fault != Some(0)
    ensures ok == Accessible(p)
    ensures p.isPrivate ==> requests == 0
    ensures !p.isPrivate ==> requests == 1
  {
    requests := 0;
    if p.isPrivate {
      return false, requests;
    }
    var testFollower: Option<Username> := None;
    var step := Pull(p.followers, 0);
    requests := requests + 1;
    match step {
      case Raise =>
        return false, requests;
      case End =>
      case Item(name) =>
        testFollower := Some(name);
    }
    ok := testFollower.Some?;
  }
}
