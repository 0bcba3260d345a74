# Co-broadcast matching engine, modelled in Dafny

This project models the scoring-and-selection engine of a live-room matcher
(`main.go`). The engine scores one seeking room against a pool of candidate rooms
and picks one of the best candidates. It has these parts:

- a tier classifier, which quantises a mic count into tiers 0..3;
- five component scores: wait time, segment consistency, audience difference,
  match history and activity;
- an eligibility filter with three checks: blacklist, cooldown and a
  pre-emptive tier gap;
- a per-pair record. Its total is either the sentinel -999 (the pair is
  rejected) or the sum of the five components;
- two selectors. The detailed one does one scan and keeps a record for every
  pair. The score-only one does two passes. Both select among the candidates
  tied at the best accepted total;
- a batch driver that runs one independent match per seeker.

Entities, configuration and records are immutable datatypes. The operations
are pure functions, plus methods where the source loops. Go's fixed-width
integers are subset types (`u8`, `u16`, `i16`, `i64`). Wrap-around is written
out where the behaviour depends on it:

- the `uint8` tier difference;
- the `uint16(MinWaitTime)` conversion;
- the `int64` subtraction `currentTime - lastTime`.

The `i16` result types also carry a proof that no score total overflows
`int16`.

The clock and the random source are parameters:

- `now` stands for `time.Now().Unix()`.
- `pick` stands for `rand.Intn`. The selected tie is `ties[pick % |ties|]`.
  `EveryTieReachable` shows that every tie is the outcome of some draw.
- The batch driver takes `clock: nat -> i64` and `draws: nat -> nat`. Both are
  indexed by seeker position, because the source reads the clock and draws at
  most once per seeker: not at all for a nil seeker, no clock for an empty pool,
  and no draw when nothing is accepted.

Several points where the code behaves differently from what one might expect; the model follows the code:

- **Tier difference.** One might expect `|seekerTier - candidateTier|`.
  The code subtracts two `uint8` values, so its `diff < 0` branch never runs.
  A candidate in a higher tier gets a difference of 253..255. As a result:
  - Segment consistency gives 3 only when the seeker is exactly one tier above
    the candidate. The mirror pair gets 0 (`SegmentScoreOnTiers`,
    `OneTierUpEarnsNothing`).
  - The filter rejects every higher-tier candidate that has waited under 60 s
    (`QuickRejectOnTiers`).
  - Together, the filter and the segment score accept a short-waiting candidate
    only in the seeker's own tier (`AcceptedIffMatchable`).
- **Tier of occupancy 4.** One might expect occupancy 4 to share tier 1 with
  occupancy 3. The table at `main.go:67` puts
  4 in tier 2. Take a 3-mic seeker and a 4-mic candidate that waited 80 s, with
  an equal audience, 12 past matches and high activity. With the wrapped
  difference that pair totals 20, not 30 (`FourMicsIsOneTierUp`). The same
  profile in the seeker's own tier totals 30 (`PerfectCandidateScoresThirty`).
- **Wait score is not always monotone.** One might expect the wait score to be
  nondecreasing. The code keeps it nondecreasing only when
  `uint16(MinWaitTime) >= 11` (`WaitScoreMonotoneIff`). With a threshold of 0,
  for example, 60 s scores 6 and 61 s scores 4. The shipped threshold of 20 is
  monotone (`DefaultWaitScoreMonotone`).
- **Batch length mismatch.** The code panics; a recoverable error is what a
  caller can act on. The model returns `Failure(LengthMismatch)` before it matches
  anything.
- **Batch keys.** The result map is keyed by each seeker's own `ID`, not by the
  identifier it was matched under. When two seekers share an `ID`, the later
  one that obtains a match wins.

## Model

| member | source | states |
|---|---|---|
| Activity.ParseLevel | main.go:451-460 | "high" and "medium" parse to their levels; every other text parses to Low |
| Activity.LevelString | main.go:463-472 | High prints "high", Medium prints "medium", every other level prints "low" |
| Activity.ParseAfterString | main.go:451-472 | for the three named levels, parsing the printed text gives back the same level |
| Activity.StringAfterParse | main.go:451-472 | for "high", "medium" and "low", printing the parsed level gives back the same text |
| Activity.UnnamedLevelsCollapse | main.go:463-472 | a `uint8` level above High does not survive the round trip; it comes back as Low |
| Segment.MicSegment | main.go:67-78 | the tier is at most 3, is 0 for no mics and is 3 from 15 mics up |
| Segment.MicSegmentThresholds | main.go:67-78 | the lookup table equals the thresholds 0 / 1..3 / 4..6 / 7+ for every `uint16` count |
| Segment.MicSegmentMonotone | main.go:67-78 | more mics never give a lower tier |
| Segment.TierDiff | main.go:97-100 | the `uint8` difference is 0 only for equal tiers, plain subtraction when the seeker is not below, and 256 minus the gap otherwise |
| Segment.TierDiffOnTiers | main.go:97-100 | on tiers 0..3 the difference is 1 exactly when the seeker is one tier above, and it exceeds 1 whenever the candidate is above |
| Scorers.WaitScore | main.go:81-89 | 0 up to the threshold; (s - threshold)/10 up to 60 s; 4 + (s-60)/10*2 beyond 60 s; never negative, and bounded so it fits `int16` |
| Scorers.WaitScoreMonotone | main.go:81-89 | with a threshold of at least 11, a longer wait never scores less |
| Scorers.WaitScoreDropsAtMinute | main.go:81-89 | with a threshold of at most 10, a 60 s wait outscores a 61 s wait |
| Scorers.WaitScoreMonotoneIff | main.go:81-89 | the wait score is monotone if and only if the `uint16` threshold is at least 11 |
| Scorers.DefaultWaitScoreMonotone | main.go:60-64 | under the shipped configuration the wait score is monotone |
| Scorers.SegmentScore | main.go:92-109 | the result is one of 10, 3, 0, -999; 10 iff equal tiers; 3 iff unequal, wrapped difference 1 and a wait of at least 60; 0 iff unequal, difference not 1 and a wait of at least 60; negative iff unequal and a wait under 60 |
| Scorers.SegmentScoreOnTiers | main.go:97-106 | on real tiers, 3 iff the seeker is exactly one tier above and the wait is at least 60; a candidate one tier above gets 0 |
| Scorers.AudienceScore | main.go:112-122 | the table equals max(0, 5 - \|diff\|), so the score lies in 0..5 |
| Scorers.AudienceScoreShape | main.go:114-122 | the score ignores the sign of the difference and never rises as the difference grows |
| Scorers.HistoryScore | main.go:125-133 | the score is one of 0, 2, 4; 4 iff at least 10 matches; 2 iff 5..9 matches |
| Scorers.HistoryScoreMonotone | main.go:125-133 | more successful matches never give a lower history score |
| Scorers.ActivityScore | main.go:136-143 | the score is one of 0, 2, 3; levels above High score 0 |
| Scorers.ActivityScoreByName | main.go:136-143 | the score is 3, 2 or 0 exactly when the level prints as "high", "medium" or "low" |
| Eligibility.Elapsed | main.go:153-155 | the elapsed seconds are the `int64` two's-complement value of now minus the last match time |
| Eligibility.Cooling | main.go:153-154 | a pair that never met is not cooling; otherwise, while `now - last` fits `int64`, cooling iff fewer than `cooldown` seconds have passed |
| Eligibility.QuickReject | main.go:146-173 | checks run in a fixed order: blacklist beats everything; then cooldown with the elapsed time; the tier gap fires iff neither of those applies, the candidate waited under 60 and the wrapped difference exceeds 1; it passes iff no blacklist entry, no cooldown and no such tier gap |
| Eligibility.QuickRejectOnTiers | main.go:159-170 | after blacklist and cooldown, a candidate that waited at least 60 always passes; one that waited less passes iff it is in the seeker's tier or exactly one below |
| Eligibility.CooldownBoundary | main.go:153-157 | exactly one cooldown after the last match the pair is no longer cooling; one second earlier it is |
| Eligibility.ScoreDetailed | main.go:176-209 | records the candidate and both tiers; rejected iff the filter or the segment score refuses; a rejected pair totals -999 with the filter's reason, or SegmentMismatch when the filter passed; an accepted pair's five components are the five scorers applied to the pair, each in its range, and its total is their sum and at least 0 |
| Eligibility.ScoreMatch | main.go:212-215 | the total is -999 or non-negative, and non-negative exactly when the detailed record is accepted; a non-negative total is the sum of the wait, segment, audience, history and activity scores of the pair |
| Eligibility.AcceptedIffMatchable | main.go:183-201 | with the seeker's own tier, a pair is accepted iff the seeker is not blacklisted, the pair is not cooling, and the tiers are equal or the candidate has waited a minute |
| Matcher.Evaluate | main.go:229-237 | one record per pool member, in pool order, each naming its pool member |
| Matcher.EvaluateWellScored | main.go:185-207 | every evaluated record is either rejected with total -999 or accepted with a non-negative total |
| Matcher.MaxScore | main.go:225-237 | the running maximum is at least -1000, bounds every accepted total, and is -1000 or some accepted total |
| Matcher.MaxScoreNegativeIff | main.go:239-242 | the maximum is negative exactly when every record is rejected, so the `maxScore < 0` test is exact |
| Matcher.Ties | main.go:244-250 | the tie list is no longer than the record list |
| Matcher.TiesComplete | main.go:244-250 | every accepted record at the best total contributes its candidate to the ties |
| Matcher.TiesSound | main.go:244-250 | every tie comes from an accepted record at the best total |
| Matcher.Choose | main.go:239-258 | no selection iff the accepted maximum is negative; a selection is always one of the ties at that maximum (chosen as `ties[pick % \|ties\|]` for `rand.Intn`) |
| Matcher.ChooseIsBest | main.go:239-258 | there is no selection iff every record is rejected; otherwise the selection is an accepted candidate whose total no accepted candidate beats |
| Matcher.SingleAcceptedSelected | main.go:244-258 | with exactly one accepted candidate, that candidate is selected whatever the draw |
| Matcher.EveryTieReachable | main.go:256-258 | draw k selects the k-th tie, so every candidate tied at the best total is selected by some draw |
| Matcher.ScorePool | main.go:229-237 | the first loop produces exactly the evaluated records and their best accepted total |
| Matcher.CollectTies | main.go:244-250 | the second loop collects exactly the accepted ties, in pool order |
| Matcher.MatchEntityDetailed | main.go:218-259 | an empty pool gives no selection and no records; otherwise one record per pool member, with `details[i]` naming `pool[i]`; no selection iff every record is rejected; otherwise the draw's tie, an accepted pool member with a maximal total |
| Matcher.MaxTotal | main.go:273-279 | the maximum over every total, sentinels included, is at least -1000, bounds every total and is -1000 or some total |
| Matcher.TiesByTotal | main.go:286-295 | the total-only tie list is no longer than the records, and every member comes from a record whose total is the target |
| Matcher.MaxTotalAgrees | main.go:273-284 | the maximum over all totals, sentinels included, is negative iff the accepted maximum is, and the two are equal when the accepted maximum is non-negative |
| Matcher.TiesByTotalAgrees | main.go:286-295 | at a non-negative target, filtering by total alone gives exactly the accepted ties in the same order |
| Matcher.MaxOfTotals | main.go:273-279 | the first pass computes the maximum over every `scoreMatch` total |
| Matcher.TiesOfTotals | main.go:286-295 | the second pass collects exactly the pool members at the target total |
| Matcher.MatchEntity | main.go:262-305 | the two-pass scan selects what the detailed scan selects for the same clock and draw; no selection iff every pair is rejected |
| Batch.Outcomes | main.go:315-326 | each seeker's result is its own independent match; an absent seeker has none |
| Batch.SummarisesStep | main.go:316-326 | recording one more seeker's match keeps the map equal to "last matched claim per seeker id" |
| Batch.BatchMatch | main.go:308-329 | mismatched lengths fail and matching lengths succeed; the keys are exactly the ids of seekers that obtained a match; each value is the match of the last such seeker with that id |
| Scenarios.PerfectCandidateScoresThirty | main.go:176-209 | a same-tier candidate waiting 80 s, with equal audience, 12 matches and high activity, scores 8+10+5+4+3 = 30 |
| Scenarios.FourMicsIsOneTierUp | main.go:67-109 | occupancy 4 is tier 2, so against a 3-mic seeker the same profile scores 0 for consistency and 20 in total |
| Scenarios.FarTierShortWaitFiltered | main.go:159-170 | a tier-3 candidate waiting 10 s is filtered for the tier gap against a tier-0 seeker |
| Scenarios.OneTierUpEarnsNothing | main.go:97-106 | with a minute of waiting, (1, 2) scores 0 and (2, 1) scores 3 |
| Scenarios.BlacklistWins | main.go:147-150 | a blacklisted seeker is rejected for the blacklist whatever else holds |

## Left out

- `generateRandomEntity` and `generateEntityPool` are left out. They synthesise random test data.
- `printMatchDetails` and `main` are left out. They do console output, a display-only sort and floating-point percentages.
- The clock and the random source are not modelled as effects. They are parameters (`now`, `pick`, `clock`, `draws`).
- Only part of the tie-break is modelled. The model proves that every tie can be drawn. It does not model the draw's uniform distribution.
- Rejection reasons are the `Reason` datatype, not the formatted text. The cooldown reason keeps its elapsed seconds and the tier-gap reason keeps both tiers.
- The `MaxWaitTime` field is left out because no rule reads it.
- The padding fields and the `MatchResult` wrapper are left out. The score-only selector keeps only the matched room.
- Go returns the pool member's pointer; the model returns its value, so two pool members with equal fields cannot be told apart.
- The pool holds no nil members. In Go, a nil candidate would crash the filter.
- A nil seeker passed straight to `matchEntityDetailed` or `matchEntity` is not modelled. With a non-empty pool Go crashes reading its mic count (main.go:227, main.go:271); the model's seeker is always a value. The batch driver's nil seekers are modelled: they are skipped.
- The source never modifies the pool or the entities. In the model this holds by construction, because all values are immutable.
- The batch guard `i >= len(userIDs)` is not modelled. The length check before it makes it unreachable.
- Parallel execution of the batch is not modelled; the source runs it sequentially.
