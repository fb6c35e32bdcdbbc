/**
 * The contributor activity classifier. Each contributor comes with one
 * weekly commit histogram, oldest week first; only the commit count of each
 * week matters here, so a histogram is a sequence of integers.
 */
module Contributors {

  /** The activity window, in weeks (about three months). */
  const ActivityWindow: nat := 12

  /**
   * A contributor is active when the histogram is no longer than the window
   * (the repository is younger than the window), or else when one of the
   * last `ActivityWindow` weeks has a positive commit count.
   */
  predicate IsActive(weeks: seq<int>)
  {
    |weeks| <= ActivityWindow
    || exists i :: |weeks| - ActivityWindow <= i < |weeks| && weeks[i] > 0
  }

  /** The number of active contributors among `data`. */
  function ActiveCount(data: seq<seq<int>>): (c: nat)
  {
    if data == [] then 0
    else ActiveCount(data[..|data| - 1]) + (if IsActive(data[|data| - 1]) then 1 else 0)
  }

  /**
   * `getRepoContributors` after the REST call: counts the contributors and,
   * with an early-exit scan of the last twelve weeks, the active ones.
   */
  method GetRepoContributors(data: seq<seq<int>>)
    returns (contributorCount: nat, activeContributorCount: nat)
    ensures contributorCount == |data|
    ensures activeContributorCount == ActiveCount(data)
    ensures activeContributorCount <= contributorCount
  {
    contributorCount := |data|;
    activeContributorCount := 0;
    for i := 0 to contributorCount
      invariant activeContributorCount == ActiveCount(data[..i])
      invariant activeContributorCount <= i
    {
      var contributorWeeks := data[i];
      var contributorNumberOfWeeks := |contributorWeeks|;
      assert data[..i + 1][..i] == data[..i];
      if contributorNumberOfWeeks <= 12 {
        activeContributorCount := activeContributorCount + 1;
      } else {
        var isActive := false;
        var j := 1;
        while j < 13 && !isActive
          invariant 1 <= j <= 13
          invariant isActive <==>
            exists k :: contributorNumberOfWeeks - j < k < contributorNumberOfWeeks && contributorWeeks[k] > 0
          invariant activeContributorCount == ActiveCount(data[..i]) + (if isActive then 1 else 0)
        {
          if contributorWeeks[contributorNumberOfWeeks - j] > 0 {
            isActive := true;
            activeContributorCount := activeContributorCount + 1;
          }
          j := j + 1;
        }
        assert isActive == IsActive(contributorWeeks);
      }
    }
    assert data[..|data|] == data;
  }

  /** Every contributor adds at most one to the active count. */
  lemma {:induction false} ActiveCountBounded(data: seq<seq<int>>)
    ensures ActiveCount(data) <= |data|
  {
    if data != [] {
      ActiveCountBounded(data[..|data| - 1]);
    }
  }

  /** A histogram no longer than the window is active whatever it holds, even all zeros or empty. */
  lemma ShortSeriesActive(weeks: seq<int>)
    requires |weeks| <= ActivityWindow
    ensures IsActive(weeks)
  {
  }

  /** The last `ActivityWindow` weeks of a histogram at least that long. */
  function Recent(weeks: seq<int>): (r: seq<int>)
    requires |weeks| >= ActivityWindow
    ensures |r| == ActivityWindow
  {
    weeks[|weeks| - ActivityWindow..]
  }

  /**
   * A longer histogram is active exactly when one of its last twelve weeks
   * has a commit; in particular it is inactive when those weeks are all zero.
   */
  lemma LongSeriesByRecentWeeks(weeks: seq<int>)
    requires |weeks| > ActivityWindow
    ensures IsActive(weeks) <==> exists k :: 0 <= k < ActivityWindow && Recent(weeks)[k] > 0
  {
    var n := |weeks|;
    var r := Recent(weeks);
    if IsActive(weeks) {
      var i :| n - ActivityWindow <= i < n && weeks[i] > 0;
      assert r[i - (n - ActivityWindow)] > 0;
    }
    if exists k :: 0 <= k < ActivityWindow && r[k] > 0 {
      var k :| 0 <= k < ActivityWindow && r[k] > 0;
      assert weeks[n - ActivityWindow + k] > 0;
    }
  }

  /** Weeks older than the window never affect an already long histogram. */
  lemma OlderWeeksIrrelevant(older: seq<int>, weeks: seq<int>)
    requires |weeks| > ActivityWindow
    ensures IsActive(older + weeks) == IsActive(weeks)
  {
    var s := older + weeks;
    var d := |older|;
    if IsActive(weeks) {
      var i :| |weeks| - ActivityWindow <= i < |weeks| && weeks[i] > 0;
      assert s[d + i] == weeks[i];
    }
    if IsActive(s) {
      var i :| |s| - ActivityWindow <= i < |s| && s[i] > 0;
      assert weeks[i - d] == s[i];
    }
  }

  /** Two long histograms that agree on the last twelve weeks are classified alike. */
  lemma SameRecentWeeksSameClass(a: seq<int>, b: seq<int>)
    requires |a| > ActivityWindow && |b| > ActivityWindow
    requires Recent(a) == Recent(b)
    ensures IsActive(a) == IsActive(b)
  {
    LongSeriesByRecentWeeks(a);
    LongSeriesByRecentWeeks(b);
  }

  /** Counting splits over a concatenation of contributor lists. */
  lemma {:induction false} ActiveCountAppend(a: seq<seq<int>>, b: seq<seq<int>>)
    ensures ActiveCount(a + b) == ActiveCount(a) + ActiveCount(b)
  {
    if b != [] {
      var b' := b[..|b| - 1];
      assert (a + b)[..|a + b| - 1] == a + b';
      assert (a + b)[|a + b| - 1] == b[|b| - 1];
      ActiveCountAppend(a, b');
    } else {
      assert a + b == a;
    }
  }

  /** Every contributor is active exactly when the active count reaches the contributor count. */
  lemma {:induction false} AllActiveIff(data: seq<seq<int>>)
    ensures ActiveCount(data) == |data| <==> forall i :: 0 <= i < |data| ==> IsActive(data[i])
  {
    if data != [] {
      var init := data[..|data| - 1];
      AllActiveIff(init);
      ActiveCountBounded(init);
      if forall i :: 0 <= i < |data| ==> IsActive(data[i]) {
        assert forall i :: 0 <= i < |init| ==> IsActive(init[i]) by {
          forall i | 0 <= i < |init| ensures IsActive(init[i]) {
            assert init[i] == data[i];
          }
        }
      }
      if ActiveCount(data) == |data| {
        forall i | 0 <= i < |data| ensures IsActive(data[i]) {
          if i < |init| {
            assert init[i] == data[i];
          }
        }
      }
    }
  }
}
