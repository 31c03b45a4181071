/**
 * The `InstaInsight` object: the loaded profile, the pacer's counter and last
 * stamp, and the clock it sleeps on. Its collectors gate on the follower probe,
 * enumerate with the bounded loop, sleep two seconds per username appended,
 * and turn any error into an empty list. The two analyses build on them.
 */
module Insight {
  import opened Source
  import opened Pacing
  import opened Access
  import opened Collect
  import opened Analytics

  const DefaultLimit: int := 20
  const AnalysisLimit: int := 15
  const MutualLimit: int := 10

  /** What a collector returns for the loaded profile: nothing without a profile or past a refusing gate. */
  function Collected(cp: Option<Profile>, kind: Kind, limit: int): (r: seq<Username>)
    ensures cp.None? ==> r == []
    ensures cp.Some? && !Accessible(cp.value) ==> r == []
    ensures cp.Some? ==> r <= ListingOf(cp.value, kind).items
    ensures 0 <= limit ==> |r| <= limit
  {
    match cp
    case None => []
    case Some(p) => if Accessible(p) then Sample(ListingOf(p, kind), limit) else []
  }

  /** The clock time a collector spends: two seconds per username appended before it stopped. */
  function CollectorPause(cp: Option<Profile>, kind: Kind, limit: int): (d: real)
    ensures 0.0 <= d
    ensures !(cp.Some? && Accessible(cp.value)) ==> d == 0.0
    ensures cp.Some? && Accessible(cp.value) ==> d == ItemPause * (|Taken(ListingOf(cp.value, kind), limit)| as real)
    ensures cp.Some? ==> d <= ItemPause * (Cap(ListingOf(cp.value, kind), limit) as real)
    ensures Collected(cp, kind, limit) != [] ==> d == ItemPause * (|Collected(cp, kind, limit)| as real)
  {
    if cp.Some? && Accessible(cp.value) then ItemPause * (|Taken(ListingOf(cp.value, kind), limit)| as real) else 0.0
  }

  /** What `follower_analysis` returns: nothing without a profile, two empty lists on refusal, or both samples. */
  datatype Analysis = NoProfile | Declined | Analysed(followers: seq<Username>, followees: seq<Username>, report: Reciprocity)

  function Analyse(cp: Option<Profile>): (r: Analysis)
    ensures r.NoProfile? <==> cp.None?
    ensures r.Analysed? ==> r.followers != [] && r.followees != []
    ensures r.Analysed? ==> r.report == ReciprocityOf(r.followers, r.followees)
    ensures r.Analysed? ==> r.followers == Collected(cp, Followers, AnalysisLimit)
    ensures r.Analysed? ==> r.followees == Collected(cp, Followees, AnalysisLimit)
    ensures r.Analysed? ==> |r.followers| <= AnalysisLimit && |r.followees| <= AnalysisLimit
  {
    match cp
    case None => NoProfile
    case Some(p) =>
      if !Accessible(p) then Declined
      else
        var followers := Collected(cp, Followers, AnalysisLimit);
        var followees := Collected(cp, Followees, AnalysisLimit);
        if followers != [] && followees != [] then Analysed(followers, followees, ReciprocityOf(followers, followees))
        else Declined
  }

  /** What `mutual_friends_finder` returns for a target whose lookup gave `target` (`None`: the lookup raised). */
  function MutualOf(cp: Option<Profile>, target: Option<Profile>): (r: Option<set<Username>>)
    ensures r.None? <==> cp.None?
    ensures cp.Some? && (target.None? || !Accessible(cp.value) || !Accessible(target.value)) ==> r == Some({})
    ensures cp.Some? && target.Some? && Accessible(cp.value) && Accessible(target.value) ==>
      var t := target.value.followers;
      r == Some(if FaultWithin(t, Cap(t, MutualLimit)) then {}
                else Elements(Collected(cp, Followers, MutualLimit)) * Elements(t.items[..Cap(t, MutualLimit)]))
  {
    match cp
    case None => None
    case Some(p) =>
      if target.None? || !Accessible(p) || !Accessible(target.value) then Some({})
      else
        var t := target.value.followers;
        if FaultWithin(t, Cap(t, MutualLimit)) then Some({})
        else Some(Mutual(Collected(cp, Followers, MutualLimit), Taken(t, MutualLimit)))
  }

  /** The clock time `mutual_friends_finder` spends: both enumerations' sleeps once both probes pass, none otherwise. */
  function MutualPause(cp: Option<Profile>, target: Option<Profile>): (d: real)
    ensures 0.0 <= d
    ensures !(cp.Some? && target.Some? && Accessible(cp.value) && Accessible(target.value)) ==> d == 0.0
    ensures d <= ItemPause * ((2 * MutualLimit) as real)
    ensures MutualOf(cp, target).Some? && MutualOf(cp, target).value != {} ==>
      d == ItemPause * ((|Collected(cp, Followers, MutualLimit)| + |Taken(target.value.followers, MutualLimit)|) as real)
  {
    if cp.Some? && target.Some? && Accessible(cp.value) && Accessible(target.value) then
      CollectorPause(cp, Followers, MutualLimit) + ItemPause * (|Taken(target.value.followers, MutualLimit)| as real)
    else 0.0
  }

  class InstaInsight {
    const clock: Clock
    var currentProfile: Option<Profile>
    var requestCount: nat
    var lastRequestTime: real

    /** The last stamp never lies in the future. */
    ghost predicate Valid()
      reads this, clock
    {
      lastRequestTime <= clock.now
    }

    constructor (clock: Clock)
      ensures this.clock == clock
      ensures currentProfile == None && requestCount == 0 && lastRequestTime == clock.now
      ensures Valid()
    {
      this.clock := clock;
      currentProfile := None;
      requestCount := 0;
      lastRequestTime := clock.now;
    }

    /** `safe_request`, with `longWait` the value drawn for the cooldown. */
    method SafeRequest(longWait: real)
      requires CooldownMin <= longWait <= CooldownMax
      modifies this, clock
      ensures Paced(Pacer(requestCount, lastRequestTime), clock.now)
           == Throttle(Pacer(old(requestCount), old(lastRequestTime)), old(clock.now), longWait)
      ensures requestCount == old(requestCount) + 1
      ensures old(lastRequestTime) + MinDelay <= lastRequestTime
      ensures old(Valid()) ==> lastRequestTime <= old(clock.now) + MinDelay
      ensures CooldownDue(requestCount) <==> clock.now != lastRequestTime
      ensures currentProfile == old(currentProfile)
      ensures Valid()
    {
      var currentTime := clock.now;
      var timeSinceLast := currentTime - lastRequestTime;
      if timeSinceLast < MinDelay {
        var waitTime := MinDelay - timeSinceLast;
        clock.Sleep(waitTime);
      }
      lastRequestTime := clock.now;
      requestCount := requestCount + 1;
      if requestCount % CooldownEvery == 0 {
        clock.Sleep(longWait);
      }
    }

    /** `get_followers_list`. */
    method GetFollowersList(limit: int := DefaultLimit) returns (followers: seq<Username>)
      modifies clock
      ensures old(Valid()) ==> Valid()
      ensures followers == Collected(currentProfile, Followers, limit)
      ensures clock.now == old(clock.now) + CollectorPause(currentProfile, Followers, limit)
    {
      if currentProfile.None? {
        return [];
      }
      var ok, _ := CanAccessFollowers(currentProfile.value);
      if !ok {
        return [];
      }
      var names, raised, _ := TakeUpTo(currentProfile.value.followers, limit, clock);
      followers := if raised then [] else names;
    }

    /** `get_following_list`; its gate is the follower probe, as in the program. */
    method GetFollowingList(limit: int := DefaultLimit) returns (followees: seq<Username>)
      modifies clock
      ensures old(Valid()) ==> Valid()
      ensures followees == Collected(currentProfile, Followees, limit)
      ensures clock.now == old(clock.now) + CollectorPause(currentProfile, Followees, limit)
    {
      if currentProfile.None? {
        return [];
      }
      var ok, _ := CanAccessFollowers(currentProfile.value);
      if !ok {
        return [];
      }
      var names, raised, _ := TakeUpTo(currentProfile.value.followees, limit, clock);
      followees := if raised then [] else names;
    }

    /** `follower_analysis`; the report is what the program counts and saves. */
    method FollowerAnalysis() returns (r: Analysis)
      modifies clock
      ensures old(Valid()) ==> Valid()
      ensures r == Analyse(currentProfile)
      ensures clock.now == old(clock.now)
                         + CollectorPause(currentProfile, Followers, AnalysisLimit)
                         + CollectorPause(currentProfile, Followees, AnalysisLimit)
    {
      if currentProfile.None? {
        return NoProfile;
      }
      var ok, _ := CanAccessFollowers(currentProfile.value);
      if !ok {
        return Declined;
      }
      var followers := GetFollowersList(AnalysisLimit);
      var followees := GetFollowingList(AnalysisLimit);
      if followers != [] && followees != [] {
        r := Analysed(followers, followees, ReciprocityOf(followers, followees));
      } else {
        r := Declined;
      }
    }

    /** `mutual_friends_finder`, with `target` the result of looking up the target profile. */
    method MutualFriendsFinder(target: Option<Profile>) returns (r: Option<set<Username>>)
      modifies clock
      ensures old(Valid()) ==> Valid()
      ensures r == MutualOf(currentProfile, target)
      ensures clock.now == old(clock.now) + MutualPause(currentProfile, target)
    {
      if currentProfile.None? {
        return None;
      }
      if target.None? {
        return Some({});
      }
      var mine, _ := CanAccessFollowers(currentProfile.value);
      if !mine {
        return Some({});
      }
      var theirs, _ := CanAccessFollowers(target.value);
      if !theirs {
        return Some({});
      }
      var yourFollowers := GetFollowersList(MutualLimit);
      var targetFollowers, raised, _ := TakeUpTo(target.value.followers, MutualLimit, clock);
      if raised {
        return Some({});
      }
      r := Some(Mutual(yourFollowers, targetFollowers));
    }
  }

  /** Without a loaded profile, or past a refusing follower probe, both collectors return `[]`. */
  lemma CollectorRefusals(cp: Option<Profile>, kind: Kind, limit: int)
    requires cp.None? || cp.value.isPrivate || cp.value.followers.items == [] || cp.value.followers.fault == Some(0)
    ensures Collected(cp, kind, limit) == []
  {
  }

  /**
   * A public profile with readable followers yields the first `min(limit, n)`
   * usernames of the listing in source order, unless a read up to the stopping
   * point raises, in which case it yields nothing.
   */
  lemma CollectorAllOrNothing(p: Profile, kind: Kind, limit: int)
    requires Accessible(p)
    ensures var s := ListingOf(p, kind);
      Collected(Some(p), kind, limit) == if FaultWithin(s, Cap(s, limit)) then [] else s.items[..Cap(s, limit)]
  {
  }

  /**
   * The followee collector depends on the follower listing: a public profile
   * with no followers gets no followees, however many it has.
   */
  lemma FollowingGatedOnFollowers(p: Profile, limit: int)
    requires p.followers.items == []
    ensures Collected(Some(p), Followees, limit) == []
  {
  }

  /** The analysis runs only when the probe passes and both samples come back non-empty. */
  lemma AnalysedExactly(cp: Option<Profile>)
    ensures Analyse(cp).Analysed? <==>
      cp.Some? && Collected(cp, Followers, AnalysisLimit) != [] && Collected(cp, Followees, AnalysisLimit) != []
  {
  }

  /**
   * The mutual result is the intersection of two samples of at most ten
   * usernames each: it holds at most ten names, each of them in your follower
   * sample and among the target's followers.
   */
  lemma MutualBounded(cp: Option<Profile>, target: Option<Profile>)
    requires MutualOf(cp, target).Some?
    ensures |MutualOf(cp, target).value| <= MutualLimit
    ensures MutualOf(cp, target).value <= Elements(Collected(cp, Followers, MutualLimit))
    ensures target.Some? ==> MutualOf(cp, target).value <= Elements(Taken(target.value.followers, MutualLimit))
    ensures target.Some? ==> MutualOf(cp, target).value <= Elements(target.value.followers.items)
  {
    if cp.Some? && target.Some? && Accessible(cp.value) && Accessible(target.value) {
      var t := target.value.followers;
      var theirs := Taken(t, MutualLimit);
      forall u | u in Elements(theirs) ensures u in Elements(t.items) {
        var j :| 0 <= j < |theirs| && theirs[j] == u;
        assert t.items[j] == u;
      }
    }
  }
}
