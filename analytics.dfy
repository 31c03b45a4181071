/**
 * The set algebra behind the reports: reciprocity of a follower sample and a
 * followee sample (two set differences), and mutual followers of two profiles
 * (an intersection). Both work on samples, never on the full graph.
 */
module Analytics {
  import opened Source

  function Elements(s: seq<Username>): set<Username>
  {
    set u | u in s
  }

  /** A sample of `n` usernames holds at most `n` distinct ones. */
  lemma {:induction false} ElementsBound(s: seq<Username>)
    ensures |Elements(s)| <= |s|
    decreases |s|
  {
    if s != [] {
      var init := s[..|s| - 1];
      ElementsBound(init);
      assert Elements(s) == Elements(init) + {s[|s| - 1]} by {
        forall u ensures u in Elements(s) <==> u in Elements(init) + {s[|s| - 1]} {
          if u in s {
            var j :| 0 <= j < |s| && s[j] == u;
            if j < |s| - 1 { assert init[j] == u; }
          }
        }
      }
    }
  }

  /** Whom the profile follows that do not follow back, and who follows that the profile does not follow back. */
  datatype Reciprocity = Reciprocity(notFollowingBack: set<Username>, notFollowedBack: set<Username>)

  function ReciprocityOf(followers: seq<Username>, followees: seq<Username>): (r: Reciprocity)
    ensures r.notFollowingBack <= Elements(followees) && r.notFollowingBack !! Elements(followers)
    ensures r.notFollowedBack <= Elements(followers) && r.notFollowedBack !! Elements(followees)
    ensures r.notFollowingBack !! r.notFollowedBack
    ensures r.notFollowingBack + r.notFollowedBack + Elements(followers) * Elements(followees)
         == Elements(followers) + Elements(followees)
  {
    var f, g := Elements(followers), Elements(followees);
    Reciprocity(g - f, f - g)
  }

  /** Each one-sided set and the common part split its sample: the counts add up to the sample's distinct size. */
  lemma ReciprocityCounts(followers: seq<Username>, followees: seq<Username>)
    ensures var r := ReciprocityOf(followers, followees);
      && |r.notFollowingBack| + |Elements(followers) * Elements(followees)| == |Elements(followees)|
      && |r.notFollowedBack| + |Elements(followers) * Elements(followees)| == |Elements(followers)|
  {
    var f, g := Elements(followers), Elements(followees);
    assert (g - f) + f * g == g;
    assert (f - g) + f * g == f;
  }

  /** The two-sample example: followers {a, b, c} and followees {b, c, d}. */
  lemma ReciprocityExample()
    ensures ReciprocityOf(["a", "b", "c"], ["b", "c", "d"]) == Reciprocity({"d"}, {"a"})
  {
    var f, g := Elements(["a", "b", "c"]), Elements(["b", "c", "d"]);
    assert f == {"a", "b", "c"};
    assert g == {"b", "c", "d"};
  }

  /** Followers common to two samples. */
  function Mutual(yours: seq<Username>, theirs: seq<Username>): (r: set<Username>)
    ensures r <= Elements(yours) && r <= Elements(theirs)
    ensures forall u :: u in yours && u in theirs ==> u in r
    ensures |r| <= |yours| && |r| <= |theirs|
  {
    var m := Elements(yours) * Elements(theirs);
    ElementsBound(yours);
    ElementsBound(theirs);
    SubsetBound(m, Elements(yours));
    SubsetBound(m, Elements(theirs));
    m
  }

  lemma MutualSymmetric(a: seq<Username>, b: seq<Username>)
    ensures Mutual(a, b) == Mutual(b, a)
  {
  }

  lemma {:induction false} SubsetBound(a: set<Username>, b: set<Username>)
    requires a <= b
    ensures |a| <= |b|
    decreases |b|
  {
    if a != {} {
      var x :| x in a;
      SubsetBound(a - {x}, b - {x});
    }
  }
}
