# are-the-maintainers-dead: a verified model of the scoring core

`are-the-maintainers-dead` is a command-line tool that scores the health of
an open-source repository on a 0-10 scale. It asks GitHub for the weekly
commit histograms of the repository's contributors, the repository's open and
stale issues and pull requests, and the same counts for every repository of
the owning organisation (a paginated GraphQL query). It also asks npms for
the package's quality and maintenance scores. All of its decisions sit in
four places in `src/index.ts`, and this project models those four in Dafny:

- **Contributor activity classifier** (`Contributors`). `GetRepoContributors`
  keeps the nested loops of `getRepoContributors`, including the early exit of
  the inner scan. It is proved against `IsActive`/`ActiveCount`. A contributor
  is active when the histogram has at most 12 weeks. Otherwise it is active
  when one of the last 12 weeks has a positive commit count.
- **Organisation pagination reducer** (`OrgPagination`). `CollectPages` keeps
  the `while (hasNextPage)` loop. The first response becomes the organisation.
  Each later response appends its repositories and overwrites `endCursor`.
  `SumRepoCounts` keeps the loop with four accumulators. `GetOrgInfo` runs
  the two in sequence. The GraphQL server is a finite sequence of responses:
  the k-th request gets the k-th response. The model requires that some
  response reports `hasNextPage == false`.
- **Weighted score curves** (`WeightedScores`). `StaleScore` and `ActiveScore`
  are the if-chains of `getWeightedStaleScore` and
  `getWeightedActiveContributorsScore`. Each is proved equal to an independent
  description: the base score is fixed by how many thresholds the percentage
  strictly exceeds. Monotonicity, the band boundaries and the extreme bands
  follow from that description.
- **Score aggregator** (`ScoreAggregator`). `OrgScore`, `RepoScore`,
  `NpmsScaled`, `Scores` and `ComputeScores` hold the arithmetic of `run`.
  `Emoji` is `getEmoji`, with its five bands as an enumeration.

Numbers are exact. `JsNumber.Ratio` is the value of JavaScript's `/` on two
counts: `Finite(r)`, `NaN` for `0/0`, or `+Infinity` for `n/0` with `n > 0`.
The program never guards its denominators, so a repository with no open
issues gets a NaN ratio. NaN fails every `>` test, so its stale term scores
full marks. A repository with no contributors likewise gets an active term of 0.
`WeightedScores.NonFiniteRatios` states both. All arithmetic is on Dafny
`real`, not IEEE-754 doubles.

Three details of the code the model keeps:

- The merged organisation keeps the first response's `isVerified`,
  `totalCount` and `pageInfo.hasNextPage`. Only `nodes` and
  `pageInfo.endCursor` are updated (`src/index.ts:310-321`).
  `OrgPagination.FirstPageFieldsKept` states this.
- The repository score has six weighted terms whose weights add up to 1 (`RepoScoreMaximal`).
- The legend the program prints gives star2 the range "6 - 8". The code picks
  star2 only for scores in (6, 7], since `score > 7` already selects fire.
  The model follows the code.

## Model

| member | source | states |
|---|---|---|
| JsNumber.Div | src/index.ts:89-101 | A positive denominator gives the finite quotient. `0/0` is NaN and `n/0` with `n > 0` is +Infinity, each only in that case |
| JsNumber.Times100 | src/index.ts:384 | `percentage * 100` (also line 403): NaN stays NaN, +Infinity stays +Infinity, and a finite ratio is multiplied by 100 |
| JsNumber.Gt | src/index.ts:385-389 | JavaScript's `>` against a constant (also lines 404-408): NaN fails every test and +Infinity passes every test |
| JsNumber.GtMonotone | src/index.ts:384-389 | A strict `>` test against a constant that holds for a ratio also holds for every larger ratio |
| JsNumber.Times100Monotone | src/index.ts:384 | Scaling a ratio by 100 keeps the order |
| JsNumber.DivMonotone | src/index.ts:89-101 | With a fixed denominator, more stale items never give a smaller ratio |
| JsNumber.DivOfPart | src/index.ts:89-101 | A stale count no larger than a non-zero open count gives a finite ratio in [0, 1] |
| WeightedScores.CountExceeded | src/index.ts:385-389 | The number of thresholds a percentage strictly exceeds is at most the number of thresholds |
| WeightedScores.StaleScore | src/index.ts:383-391 | For a non-negative weight the stale score lies between 0 and 10 times the weight |
| WeightedScores.ActiveScore | src/index.ts:399-410 | For a non-negative weight the active score lies between 0 and 10 times the weight |
| WeightedScores.CountExceededStale | src/index.ts:385-389 | The stale thresholds exceeded are the five strict tests at 2, 4, 6, 8 and 10 |
| WeightedScores.CountExceededActive | src/index.ts:404-408 | The active thresholds exceeded are the five strict tests at 0, 5, 10, 15 and 20 |
| WeightedScores.StaleScoreIsBase | src/index.ts:383-391 | The top-down if-chain equals 10 minus 2 per stale threshold exceeded, times the weight |
| WeightedScores.ActiveScoreIsBase | src/index.ts:399-410 | The top-down if-chain equals 2 per active threshold exceeded, times the weight |
| WeightedScores.BasesAreEvenSteps | src/index.ts:383-410 | Both base scores are one of 0, 2, 4, 6, 8, 10 |
| WeightedScores.CountExceededMonotone | src/index.ts:385-389 | A larger percentage exceeds at least as many thresholds |
| WeightedScores.StaleBaseNonIncreasing | src/index.ts:383-391 | A larger stale ratio never gets a larger base score |
| WeightedScores.ActiveBaseNonDecreasing | src/index.ts:399-410 | A larger active ratio never gets a smaller base score |
| WeightedScores.StaleScoreNonIncreasing | src/index.ts:383-391 | With a non-negative weight, the weighted stale score is non-increasing in the ratio |
| WeightedScores.ActiveScoreNonDecreasing | src/index.ts:399-410 | With a non-negative weight, the weighted active score is non-decreasing in the ratio |
| WeightedScores.StaleExtremeBands | src/index.ts:385-390 | Base 10 holds exactly when the percentage is not above 2. Base 0 holds exactly when it is above 10 |
| WeightedScores.ActiveExtremeBands | src/index.ts:404-409 | Base 0 holds exactly when the percentage is not above 0. Base 10 holds exactly when it is above 20 |
| WeightedScores.CountExceededAtThreshold | src/index.ts:385-389 | With strictly increasing thresholds, a value equal to the i-th one exceeds exactly i of them |
| WeightedScores.StaleThresholdBelongsAbove | src/index.ts:385-390 | A percentage equal to the i-th stale threshold (2, 4, 6, 8, 10) scores 10 - 2i, the higher band |
| WeightedScores.ActiveThresholdBelongsBelow | src/index.ts:404-409 | A percentage equal to the i-th active threshold (0, 5, 10, 15, 20) scores 2i, the lower band |
| WeightedScores.NonFiniteRatios | src/index.ts:383-410 | NaN gives full stale marks and no active marks. +Infinity gives no stale marks and full active marks |
| WeightedScores.StaleBandExamples | src/index.ts:383-391 | Ratios 0, 0.03, 0.05, 0.07, 0.09 and 0.11 at weight 1 score 10, 8, 6, 4, 2 and 0 |
| WeightedScores.ActiveBandExamples | src/index.ts:399-410 | Ratios 0, 0.03, 0.08, 0.12, 0.18 and 0.25 at weight 1 score 0, 2, 4, 6, 8 and 10 |
| Contributors.GetRepoContributors | src/index.ts:172-200 | `contributorCount` is the number of histograms. `activeContributorCount` is the number of active histograms, and is no larger |
| Contributors.ActiveCountBounded | src/index.ts:177-196 | Each contributor adds at most one to the active count |
| Contributors.ShortSeriesActive | src/index.ts:181-184 | A histogram of at most 12 weeks is active, even when empty or all zero |
| Contributors.Recent | src/index.ts:188-190 | The recent window of a long enough histogram has exactly 12 weeks |
| Contributors.LongSeriesByRecentWeeks | src/index.ts:186-194 | A histogram of more than 12 weeks is active exactly when one of its last 12 weeks is positive |
| Contributors.OlderWeeksIrrelevant | src/index.ts:186-194 | Prepending older weeks to a histogram of more than 12 weeks never changes its class |
| Contributors.SameRecentWeeksSameClass | src/index.ts:186-194 | Two long histograms with the same last 12 weeks get the same class |
| Contributors.ActiveCountAppend | src/index.ts:177-196 | The active count of two concatenated contributor lists is the sum of their counts |
| Contributors.AllActiveIff | src/index.ts:177-196 | The active count equals the contributor count exactly when every contributor is active |
| OrgPagination.LastPage | src/index.ts:272-319 | The loop stops at the first response with `hasNextPage` false; every earlier one reports true |
| OrgPagination.CollectPages | src/index.ts:269-322 | The result is the first response with `nodes` set to all fetched repositories in page order and `endCursor` set to the last page's. Exactly LastPage+1 requests are made. The first has no cursor and each later one carries the previous page's `endCursor` |
| OrgPagination.SumRepoCounts | src/index.ts:324-337 | The four accumulators equal the componentwise sums over the repository list |
| OrgPagination.GetOrgInfo | src/index.ts:267-345 | The returned organisation is the first response with all fetched `nodes` in page order and the last page's `endCursor`; every other field is the first response's. The totals are the sums over those `nodes` |
| OrgPagination.SumAppend | src/index.ts:331-337 | The totals of a concatenation are the sums of the totals of its parts |
| OrgPagination.SumOfFlattenIsPageSums | src/index.ts:310-337 | The totals over the concatenated pages equal the per-page totals added up |
| OrgPagination.RepartitionInvariant | src/index.ts:310-337 | Two page splits of the same repository list give the same totals |
| OrgPagination.SumPermutationInvariant | src/index.ts:331-337 | Reordering the repositories leaves the totals unchanged |
| OrgPagination.SumRemoveAt | src/index.ts:331-337 | Removing one repository removes exactly its counts from the totals |
| OrgPagination.FirstPageFieldsKept | src/index.ts:310-321 | The merged organisation keeps the first response's `isVerified`, `totalCount` and `hasNextPage` |
| ScoreAggregator.VerifiedScore | src/index.ts:85 | The verification bonus is 2 for a verified organisation and 0 otherwise |
| ScoreAggregator.OrgScore | src/index.ts:86-92 | The organisation score is in [0, 10] for all counts, including zero denominators |
| ScoreAggregator.RepoScore | src/index.ts:94-106 | The repository score is in [0, 10] whenever the organisation, quality and maintenance scores are |
| ScoreAggregator.NpmsScaled | src/index.ts:368-369 | An npms fraction in [0, 1] becomes a score in [0, 10] |
| ScoreAggregator.Scores | src/index.ts:84-106 | The organisation score is in [0, 10]. The repository score is in [0, 10] whenever both npms fractions are in [0, 1] |
| ScoreAggregator.ComputeScores | src/index.ts:55-106 | Running the classifier, the reducer and the arithmetic gives `Scores` of the histogram count, the active count, the first page's `isVerified` and the totals of the fetched repositories. Both bounds hold |
| ScoreAggregator.VerifiedBonus | src/index.ts:85-92 | Verification adds exactly 2 to the organisation score |
| ScoreAggregator.OrgScoreMaximal | src/index.ts:85-92 | The organisation score is 10 exactly when the organisation is verified and both stale percentages are at most 2 |
| ScoreAggregator.OrgScoreNonIncreasingInStaleIssues | src/index.ts:86-92 | More stale organisation issues, with the open count fixed (zero included), never raise the organisation score |
| ScoreAggregator.RepoScoreMaximal | src/index.ts:94-106 | With inputs on the 0-10 scale, the repository score is 10 exactly when all six terms are at their maxima. The weights sum to 1 |
| ScoreAggregator.EndToEndExample | src/index.ts:84-106 | The worked example: organisation score 6.4 and repository score 8.35 |
| ScoreAggregator.Emoji | src/index.ts:412-418 | The band is fire exactly when the score is above 7, and the lowest band exactly when the score is at most 2 |
| ScoreAggregator.EmojiRankIsCount | src/index.ts:412-418 | The emoji band's rank is the number of thresholds 2, 4, 6, 7 the score strictly exceeds |
| ScoreAggregator.EmojiMonotone | src/index.ts:412-418 | A higher score never gets a lower band |
| ScoreAggregator.EmojiThresholdBelongsBelow | src/index.ts:412-418 | A score equal to a band threshold falls into the lower band |

## Left out

- Argument parsing, the configuration file and the token prompt (`src/index.ts:19-53`). These are file I/O and user interaction.
- The REST, GraphQL and npms requests (`src/index.ts:166-171`, `213-238`, `278-308`, `362-365`). Their answers are inputs: the histograms, a `RepoMetrics` value, the sequence of organisation responses and the two npms fractions.
- `getRepoInfo` (`src/index.ts:211-258`). It only unpacks response fields, and its five counts are the `RepoMetrics` input. `dependenciesCount` is carried but never scored.
- The printed report, colours, emoji strings and `toFixed(1)` rounding (`src/index.ts:108-144`). `Emoji` returns the band, not a string.
- The blanket `try/catch` that turns every failure into one message (`src/index.ts:145-149`). Nothing in the modelled arithmetic fails.
- IEEE-754 doubles. The model computes on exact reals, so boundary cases that rounding would shift (`0.07 * 100` is slightly above 7 as a double) are decided exactly.
- A server that never reports `hasNextPage == false`. The model takes a finite sequence of responses, and `CollectPages` requires one of them to report the last page. No finite input models the source's non-termination.
- The server's dependence on the cursor. Response k models the answer to request k. The cursors the loop sends are recorded in a ghost trace, not fed back to the server.
- Only the `.c` commit count of each week is modelled; the other histogram fields are never read.
