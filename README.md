# InstaInsight collection core in Dafny

This project models the data-collection core of InstaInsight, a console tool that reads an
Instagram profile's followers and followees and reports on them. The modelled parts are:

- **Request pacer** (`safe_request`). It keeps a request counter and the time of the last stamped request.
  Before each stamp it waits out any shortfall below the 5-second minimum spacing.
  After every tenth request it sleeps a further 15 to 30 seconds.
- **Follower-access probe** (`can_access_followers`). A private profile is refused without any read of the source.
  Otherwise exactly one read of the follower listing is issued. Access is granted when that read yields a username.
  An empty listing or an error on that read refuses access.
- **Bounded collectors** (`get_followers_list`, `get_following_list`, and the target loop of `mutual_friends_finder`).
  Each one gates on the follower probe, then enumerates the listing in source order up to `limit`.
  It sleeps two seconds per username appended. An error turns the whole result into `[]`.
- **Set analytics.** `follower_analysis` computes reciprocity by two set differences.
  `mutual_friends_finder` intersects two samples of at most ten usernames.

The service is abstracted as a `Listing`: the finite sequence of usernames a fresh enumeration yields,
plus an optional index of the read at which it raises instead.
A profile is its privacy flag plus its two listings.
Time is an abstract `real` clock (`Pacing.Clock`). `time.time()` reads it and `time.sleep(d)` advances it by `d`.
The random cooldown of `random.uniform(15, 30)` is a parameter constrained to [15, 30].

Modules: `Source` (listings and profiles), `Pacing` (clock, pacer specification, runs of requests),
`Access` (probe), `Collect` (enumeration loop and sample specification), `Analytics` (set algebra),
`Insight` (the `InstaInsight` class and the specifications of its operations).

Behaviours of the code worth knowing, each stated by a lemma:

- The collectors never call `safe_request`. They only `time.sleep(2)` after each appended username.
- A collector that fails mid-enumeration returns `[]`; the usernames already read are dropped (`Collect.PartialProgressDiscarded`).
- The `i >= limit` test runs after the read, so the enumeration loop always issues one read more than it appends, even with `limit = 0` (`Collect.TakeUpTo` counts reads).
  A listing that raises exactly on read `limit` therefore yields nothing (`Collect.ReadPastLimit`).
- `get_following_list` gates on the follower probe, not on followees (`Insight.FollowingGatedOnFollowers`).

## Model

| member | source | states |
|---|---|---|
| `Pacing.Clock.Sleep` | InstaInsight.py:31 | a sleep advances the clock by exactly its duration |
| `Pacing.Shortfall` | InstaInsight.py:26-31 | the wait is non-negative; it brings the time since the last stamp up to `MIN_DELAY`; it is zero or exactly the shortfall; it never exceeds `MIN_DELAY` when the last stamp is not in the future |
| `Pacing.Throttle` | InstaInsight.py:23-39 | one call: counter grows by exactly 1; the stamp is at least `MIN_DELAY` after the previous stamp and not before arrival; it is either the arrival time or exactly `MIN_DELAY` after the previous stamp; a 15-30 s cooldown follows exactly when the new count is a multiple of 10, otherwise the call returns at its stamp |
| `Pacing.CooldownsClosedForm` | InstaInsight.py:34-36 | among requests `c+1 .. c+n`, the number followed by a cooldown is `(c+n)/10 - c/10` |
| `Pacing.RunSpacing` | InstaInsight.py:25-34 | over any run of `n` calls the counter grows by `n` and the last stamp is at least `n * MIN_DELAY` after the stamp that preceded the run |
| `Pacing.RunCooldownTime` | InstaInsight.py:34-39 | a run of `n` calls from counter `c` takes at least `15 * ((c+n)/10 - c/10)` seconds of clock time |
| `Insight.InstaInsight.constructor` | InstaInsight.py:9-14 | no profile loaded, counter 0, last stamp = current clock time |
| `Insight.InstaInsight.SafeRequest` | InstaInsight.py:23-39 | the new counter, stamp and clock are exactly `Throttle` of the old ones; counter +1; stamps at least `MIN_DELAY` apart; the clock passes the stamp iff a cooldown was due; profile unchanged; stamp never in the future |
| `Access.Probe` | InstaInsight.py:41-67 | private iff the profile is private; read error iff the first read raises; granted iff public, at least one follower, and the first read does not raise; no-followers iff public with an empty listing and no error |
| `Access.CanAccessFollowers` | InstaInsight.py:41-67 | returns true iff public, listing non-empty, and first read does not raise; issues no read for a private profile and exactly one otherwise |
| `Collect.Taken` | InstaInsight.py:139-145 | what the loop appends is a prefix of the listing; it is the first `min(limit, n)` names when no read up to the stop raises, else the names before the failing read |
| `Collect.TakeUpTo` | InstaInsight.py:139-145 | the loop raises iff a read at index `0..min(limit, n)` raises; it appends exactly `Taken`; it issues one read more than it appends; it sleeps 2 s after each append, so the clock advances by 2 s per appended name |
| `Collect.Sample` | InstaInsight.py:138-152 | a collector's result past the gate is `[]` or exactly the first `min(limit, n)` usernames in source order; a prefix of the listing; at most `limit` long; empty when `limit <= 0` |
| `Collect.SampleWithoutFault` | InstaInsight.py:139-148 | with a source that never raises, the result has length `min(limit, n)` and holds the listing's first names in order |
| `Collect.PartialProgressDiscarded` | InstaInsight.py:150-152 | an error after `k` names were appended discards all `k` of them |
| `Collect.ReadPastLimit` | InstaInsight.py:139-141 | a listing longer than `limit` that raises on read `limit` yields `[]` although its first `limit` names were read |
| `Collect.SampleLimitMonotone` | InstaInsight.py:139-142 | a successful sample under a larger limit extends the sample under a smaller limit |
| `Analytics.ElementsBound` | InstaInsight.py:272 | a list of `n` usernames has at most `n` distinct ones |
| `Analytics.ReciprocityOf` | InstaInsight.py:202-203 | not-following-back is among followees and disjoint from followers; not-followed-back is among followers and disjoint from followees; the two are disjoint; together with the common part they cover the union of the samples |
| `Analytics.ReciprocityCounts` | InstaInsight.py:202-209 | each one-sided count plus the common count equals that sample's number of distinct names |
| `Analytics.ReciprocityExample` | InstaInsight.py:202-203 | followers {a,b,c}, followees {b,c,d} give not-following-back {d} and not-followed-back {a} |
| `Analytics.Mutual` | InstaInsight.py:272 | the mutual set is contained in both samples, contains every name in both, and is no larger than either sample |
| `Analytics.MutualSymmetric` | InstaInsight.py:272 | the mutual set does not depend on which sample comes first |
| `Insight.Collected` | InstaInsight.py:124-182 | `[]` with no profile or when the follower probe refuses; otherwise a prefix of the listing collected, at most `limit` long |
| `Insight.CollectorPause` | InstaInsight.py:143-145 | no clock time without a profile or past a refusing probe; otherwise 2 s per appended name, at most `2 * min(limit, n)`, and exactly 2 s per returned name when the result is non-empty |
| `Insight.InstaInsight.GetFollowersList` | InstaInsight.py:124-152 | returns `Collected` for the followers listing; the clock advances by that collector's pause, proved through the loop's sleeps; a last stamp not in the future stays so |
| `Insight.InstaInsight.GetFollowingList` | InstaInsight.py:154-182 | returns `Collected` for the followees listing, gated by the follower probe; the clock advances by its pause, proved through the loop's sleeps; a last stamp not in the future stays so |
| `Insight.CollectorRefusals` | InstaInsight.py:126-133 | no profile, a private profile, an empty follower listing, or an error on the first follower read each make a collector return `[]` |
| `Insight.CollectorAllOrNothing` | InstaInsight.py:138-152 | past the gate a collector returns the first `min(limit, n)` names, or `[]` when a read up to the stop raises |
| `Insight.FollowingGatedOnFollowers` | InstaInsight.py:160-163 | a profile with no followers gets `[]` from the followee collector whatever its followees |
| `Insight.Analyse` | InstaInsight.py:184-231 | no result iff no profile; when analysed, the returned lists are exactly the two 15-limit collectors' results, both non-empty and at most 15 long, and the report is their reciprocity |
| `Insight.AnalysedExactly` | InstaInsight.py:193-203 | the analysis happens iff a profile is loaded and both collectors return non-empty samples |
| `Insight.InstaInsight.FollowerAnalysis` | InstaInsight.py:184-231 | returns `Analyse` of the loaded profile; the clock advances by the two collectors' pauses; a last stamp not in the future stays so |
| `Insight.MutualPause` | InstaInsight.py:259-269 | no clock time unless both probes pass; never more than 2 s for each of the 20 names the two loops may append; when mutual friends are found, exactly 2 s per name in the two samples |
| `Insight.MutualOf` | InstaInsight.py:233-290 | no result iff no profile; `[]` when the target lookup fails or either follower probe refuses; once both probes pass, `[]` if a read of the target loop raises, else the intersection of your 10-limit follower sample with the target's first `min(10, n)` followers |
| `Insight.MutualBounded` | InstaInsight.py:259-272 | the mutual result has at most 10 names, all in your follower sample and in the target's 10-name sample |
| `Insight.InstaInsight.MutualFriendsFinder` | InstaInsight.py:233-290 | returns `MutualOf` of the loaded and target profiles; the clock advances by the sleeps of both enumerations; a last stamp not in the future stays so |

## Left out

- `login`, `load_profile` and `basic_profile_info`: authentication, library lookup and display. The model's operations are stated for any value of the loaded-profile field, which `load_profile` sets.
- `simple_follower_check`, `_save_to_json`, folder creation, `main` and all console output: display, file I/O and the interactive menu.
- The `instaloader` library: profile lookup, follower and followee iteration. Each is represented only by its observable result: a `Profile` value, or `None` when the target lookup raises.
- Each enumeration of a listing is assumed to yield the same usernames and fail at the same read. The real service may answer differently between the probe and the collection.
- `MAX_DELAY` is declared in the source but never read, so it is not modelled.
- Floating-point time and the real sleeping: time is an exact `real`, and a sleep advances it by exactly its duration.
- `Insight.InstaInsight.MutualFriendsFinder`: returns a set; the source returns `list(set)`, whose order Python leaves unspecified.
- Post collection and engagement ranking: the program has no such code.
