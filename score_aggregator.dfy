/**
 * The arithmetic of `run` that combines the partial scores into the
 * organisation score and the repository score, both on a 0-10 scale, and the
 * band that picks the emoji shown next to the repository score.
 */
module ScoreAggregator {
  import opened JsNumber
  import opened WeightedScores
  import Contributors
  import OrgPagination

  /** The counts `getRepoInfo` extracts for the repository itself. */
  datatype RepoMetrics = RepoMetrics(
    openIssueCount: nat,
    openStaleIssueCount: nat,
    openPrCount: nat,
    openStalePrCount: nat,
    dependenciesCount: nat)

  datatype ScoreBreakdown = ScoreBreakdown(orgScore: real, repoScore: real)

  /** The bonus of a verified organisation: 10 points at weight 0.2. */
  function VerifiedScore(isVerified: bool): (r: real)
    ensures r == 2.0 || r == 0.0
    ensures r > 0.0 <==> isVerified
  {
    if isVerified then 10.0 * 0.2 else 0.0
  }

  /** The organisation score: the verification bonus and two stale curves at weight 0.4. */
  function OrgScore(isVerified: bool, orgOpenIssueCount: nat, orgOpenStaleIssueCount: nat,
                    orgOpenPrCount: nat, orgOpenStalePrCount: nat): (r: real)
    ensures 0.0 <= r <= 10.0
  {
    VerifiedScore(isVerified)
    + StaleScore(Div(orgOpenStaleIssueCount, orgOpenIssueCount), 0.4)
    + StaleScore(Div(orgOpenStalePrCount, orgOpenPrCount), 0.4)
  }

  /**
   * The repository score: three curves at weight 0.15, then a quarter of the
   * organisation score and the quality and maintenance scores at 0.15 each.
   * The weights add up to one, so the score stays on the 0-10 scale when
   * every input does.
   */
  function RepoScore(repo: RepoMetrics, contributorCount: nat, activeContributorCount: nat,
                     orgScore: real, qualityScore: real, maintenanceScore: real): (r: real)
    ensures 0.0 <= orgScore <= 10.0 && 0.0 <= qualityScore <= 10.0 && 0.0 <= maintenanceScore <= 10.0
      ==> 0.0 <= r <= 10.0
  {
    StaleScore(Div(repo.openStaleIssueCount, repo.openIssueCount), 0.15)
    + StaleScore(Div(repo.openStalePrCount, repo.openPrCount), 0.15)
    + ActiveScore(Div(activeContributorCount, contributorCount), 0.15)
    + orgScore * 0.25
    + qualityScore * 0.15
    + maintenanceScore * 0.15
  }

  /** npms reports quality and maintenance as fractions; the program puts them on the 0-10 scale. */
  function NpmsScaled(fraction: real): (r: real)
    ensures 0.0 <= fraction <= 1.0 ==> 0.0 <= r <= 10.0
  {
    fraction * 10.0
  }

  /** Both scores from the upstream data, as `run` computes them. */
  function Scores(contributorCount: nat, activeContributorCount: nat, repo: RepoMetrics,
                  isVerified: bool, orgTotals: OrgPagination.RepoCounts,
                  npmsQuality: real, npmsMaintenance: real): (b: ScoreBreakdown)
    ensures 0.0 <= b.orgScore <= 10.0
    ensures 0.0 <= npmsQuality <= 1.0 && 0.0 <= npmsMaintenance <= 1.0 ==> 0.0 <= b.repoScore <= 10.0
  {
    var orgScore := OrgScore(isVerified, orgTotals.orgOpenIssues, orgTotals.orgOpenStaleIssues,
                             orgTotals.orgOpenPR, orgTotals.orgOpenStalePR);
    ScoreBreakdown(orgScore,
      RepoScore(repo, contributorCount, activeContributorCount, orgScore,
                NpmsScaled(npmsQuality), NpmsScaled(npmsMaintenance)))
  }

  /**
   * The scoring part of `run`: the contributor histograms, the repository's
   * counts, the organisation's paginated responses and the two npms
   * fractions go in; the two scores come out.
   */
  method ComputeScores(data: seq<seq<int>>, repo: RepoMetrics, responses: seq<OrgPagination.Organization>,
                       npmsQuality: real, npmsMaintenance: real)
    returns (b: ScoreBreakdown)
    requires OrgPagination.Terminates(responses)
    ensures b == Scores(|data|, Contributors.ActiveCount(data), repo, responses[0].isVerified,
      OrgPagination.Sum(OrgPagination.Flatten(responses[..OrgPagination.LastPage(responses) + 1])),
      npmsQuality, npmsMaintenance)
    ensures 0.0 <= b.orgScore <= 10.0
    ensures 0.0 <= npmsQuality <= 1.0 && 0.0 <= npmsMaintenance <= 1.0 ==> 0.0 <= b.repoScore <= 10.0
  {
    var contributorCount, activeContributorCount := Contributors.GetRepoContributors(data);
    var info := OrgPagination.GetOrgInfo(responses);
    var qualityScore := NpmsScaled(npmsQuality);
    var maintenanceScore := NpmsScaled(npmsMaintenance);
    var orgScore := OrgScore(info.organization.isVerified, info.orgOpenIssueCount, info.orgOpenStaleIssueCount,
                             info.orgOpenPrCount, info.orgOpenStalePrCount);
    var repoScore := RepoScore(repo, contributorCount, activeContributorCount, orgScore,
                               qualityScore, maintenanceScore);
    b := ScoreBreakdown(orgScore, repoScore);
  }

  /** Verification is worth exactly two points of the organisation score. */
  lemma VerifiedBonus(orgOpenIssueCount: nat, orgOpenStaleIssueCount: nat,
                      orgOpenPrCount: nat, orgOpenStalePrCount: nat)
    ensures OrgScore(true, orgOpenIssueCount, orgOpenStaleIssueCount, orgOpenPrCount, orgOpenStalePrCount)
         == OrgScore(false, orgOpenIssueCount, orgOpenStaleIssueCount, orgOpenPrCount, orgOpenStalePrCount) + 2.0
  {
  }

  /**
   * The organisation score is 10 exactly when the organisation is verified
   * and both of its stale ratios are in the top band (at most 2%).
   */
  lemma OrgScoreMaximal(isVerified: bool, orgOpenIssueCount: nat, orgOpenStaleIssueCount: nat,
                        orgOpenPrCount: nat, orgOpenStalePrCount: nat)
    ensures OrgScore(isVerified, orgOpenIssueCount, orgOpenStaleIssueCount, orgOpenPrCount, orgOpenStalePrCount) == 10.0
      <==> (isVerified
            && !Gt(Times100(Div(orgOpenStaleIssueCount, orgOpenIssueCount)), 2.0)
            && !Gt(Times100(Div(orgOpenStalePrCount, orgOpenPrCount)), 2.0))
  {
    var ri := Div(orgOpenStaleIssueCount, orgOpenIssueCount);
    var rp := Div(orgOpenStalePrCount, orgOpenPrCount);
    StaleScoreIsBase(ri, 0.4);
    StaleScoreIsBase(rp, 0.4);
    BasesAreEvenSteps(ri);
    BasesAreEvenSteps(rp);
    StaleExtremeBands(ri);
    StaleExtremeBands(rp);
  }

  /** More stale issues in the organisation, with the same open issues, never raise its score. */
  lemma OrgScoreNonIncreasingInStaleIssues(isVerified: bool, orgOpenIssueCount: nat,
                                           stale1: nat, stale2: nat,
                                           orgOpenPrCount: nat, orgOpenStalePrCount: nat)
    requires stale1 <= stale2
    ensures OrgScore(isVerified, orgOpenIssueCount, stale2, orgOpenPrCount, orgOpenStalePrCount)
         <= OrgScore(isVerified, orgOpenIssueCount, stale1, orgOpenPrCount, orgOpenStalePrCount)
  {
    if orgOpenIssueCount == 0 && stale1 == 0 {
      // 0/0 is NaN, which scores the full 4 points at weight 0.4.
      NonFiniteRatios(0.4);
    } else {
      DivMonotone(stale1, stale2, orgOpenIssueCount);
      StaleScoreNonIncreasing(Div(stale1, orgOpenIssueCount), Div(stale2, orgOpenIssueCount), 0.4);
    }
  }

  /**
   * With every input on the 0-10 scale, the repository score is 10 exactly
   * when every one of its six terms is at its maximum: the weights add up to one.
   */
  lemma RepoScoreMaximal(repo: RepoMetrics, contributorCount: nat, activeContributorCount: nat,
                         orgScore: real, qualityScore: real, maintenanceScore: real)
    requires 0.0 <= orgScore <= 10.0 && 0.0 <= qualityScore <= 10.0 && 0.0 <= maintenanceScore <= 10.0
    ensures RepoScore(repo, contributorCount, activeContributorCount, orgScore, qualityScore, maintenanceScore) == 10.0
      <==> (StaleBase(Div(repo.openStaleIssueCount, repo.openIssueCount)) == 10
            && StaleBase(Div(repo.openStalePrCount, repo.openPrCount)) == 10
            && ActiveBase(Div(activeContributorCount, contributorCount)) == 10
            && orgScore == 10.0 && qualityScore == 10.0 && maintenanceScore == 10.0)
  {
    var ri := Div(repo.openStaleIssueCount, repo.openIssueCount);
    var rp := Div(repo.openStalePrCount, repo.openPrCount);
    var ra := Div(activeContributorCount, contributorCount);
    StaleScoreIsBase(ri, 0.15);
    StaleScoreIsBase(rp, 0.15);
    ActiveScoreIsBase(ra, 0.15);
    BasesAreEvenSteps(ri);
    BasesAreEvenSteps(rp);
    BasesAreEvenSteps(ra);
  }

  /**
   * An organisation that is not verified, with 5 stale out of 100 open issues
   * and 1 stale out of 100 open pull requests; a repository with 1 stale out
   * of 50 issues, none of 20 pull requests stale, 3 active out of 10
   * contributors, quality 8 and maintenance 7.
   */
  lemma EndToEndExample()
    ensures OrgScore(false, 100, 5, 100, 1) == 6.4
    ensures RepoScore(RepoMetrics(50, 1, 20, 0, 0), 10, 3, 6.4, 8.0, 7.0) == 8.35
  {
    assert Times100(Div(5, 100)) == Finite(5.0);
    assert Times100(Div(1, 100)) == Finite(1.0);
    assert Times100(Div(1, 50)) == Finite(2.0);
    assert Times100(Div(0, 20)) == Finite(0.0);
    assert Times100(Div(3, 10)) == Finite(30.0);
  }

  /** The five bands of `getEmoji`, lowest first. */
  datatype Band = FaceVomiting | Exclamation | OkHand | Star2 | Fire

  function Rank(b: Band): (n: nat)
  {
    match b
    case FaceVomiting => 0
    case Exclamation => 1
    case OkHand => 2
    case Star2 => 3
    case Fire => 4
  }

  const EmojiThresholds: seq<real> := [2.0, 4.0, 6.0, 7.0]

  /** `getEmoji`: the band of a repository score, chosen by strict `>` comparisons from the top. */
  function Emoji(score: real): (b: Band)
    ensures b == Fire <==> score > 7.0
    ensures b == FaceVomiting <==> score <= 2.0
  {
    if score > 7.0 then Fire
    else if score > 6.0 then Star2
    else if score > 4.0 then OkHand
    else if score > 2.0 then Exclamation
    else FaceVomiting
  }

  /** The band is the number of emoji thresholds the score exceeds. */
  lemma EmojiRankIsCount(score: real)
    ensures Rank(Emoji(score)) == CountExceeded(Finite(score), EmojiThresholds)
  {
    var p := Finite(score);
    assert [7.0][1..] == [];
    assert CountExceeded(p, [7.0]) == (if Gt(p, 7.0) then 1 else 0) + CountExceeded(p, []);
    assert [6.0, 7.0][1..] == [7.0];
    assert CountExceeded(p, [6.0, 7.0]) == (if Gt(p, 6.0) then 1 else 0) + CountExceeded(p, [7.0]);
    assert [4.0, 6.0, 7.0][1..] == [6.0, 7.0];
    assert CountExceeded(p, [4.0, 6.0, 7.0]) == (if Gt(p, 4.0) then 1 else 0) + CountExceeded(p, [6.0, 7.0]);
    assert [2.0, 4.0, 6.0, 7.0][1..] == [4.0, 6.0, 7.0];
    assert CountExceeded(p, [2.0, 4.0, 6.0, 7.0]) == (if Gt(p, 2.0) then 1 else 0) + CountExceeded(p, [4.0, 6.0, 7.0]);
  }

  /** A higher score never gets a lower band. */
  lemma EmojiMonotone(s1: real, s2: real)
    requires s1 <= s2
    ensures Rank(Emoji(s1)) <= Rank(Emoji(s2))
  {
    EmojiRankIsCount(s1);
    EmojiRankIsCount(s2);
    CountExceededMonotone(Finite(s1), Finite(s2), EmojiThresholds);
  }

  /** A score exactly on the i-th emoji threshold falls into the lower band, of rank i. */
  lemma EmojiThresholdBelongsBelow(i: nat)
    requires i < |EmojiThresholds|
    ensures Rank(Emoji(EmojiThresholds[i])) == i
  {
    EmojiRankIsCount(EmojiThresholds[i]);
    CountExceededAtThreshold(EmojiThresholds, i);
  }
}
