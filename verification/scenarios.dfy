/** Worked (seeker, candidate) pairs evaluated through the model. */
module Scenarios {
  import opened GoInts
  import opened Activity
  import opened Entities
  import opened Segment
  import opened Scorers
  import opened Eligibility

  function Plain(id: string, mics: u16, audience: u16, wait: u16, history: u16, level: Level): Entity
  {
    Entity(id, map[], {}, mics, audience, wait, history, level)
  }

  /** A one-minute-plus candidate in the seeker's tier with a perfect profile scores 30:
      wait 8, segment 10, audience 5, history 4, activity 3. */
  lemma PerfectCandidateScoresThirty(now: i64)
    ensures
      var seeker := Plain("s", 3, 50, 80, 0, Low);
      var d := ScoreDetailed(seeker, Plain("c", 2, 50, 80, 12, High), "s", DefaultConfig, now, MicSegment(3));
      !d.rejected && d.score == 30 && d.waitScore == 8 && d.segmentScore == 10
        && d.audienceScore == 5 && d.historyScore == 4 && d.activityScore == 3
  {
  }

  /** Four mics is already tier 2, so the same profile against a three-mic seeker
      (tier 1) is a candidate one tier up: consistency earns 0 and the total is 20. */
  lemma FourMicsIsOneTierUp(now: i64)
    ensures MicSegment(3) == 1 && MicSegment(4) == 2
    ensures
      var seeker := Plain("s", 3, 50, 80, 0, Low);
      var d := ScoreDetailed(seeker, Plain("c", 4, 50, 80, 12, High), "s", DefaultConfig, now, MicSegment(3));
      !d.rejected && d.segmentScore == 0 && d.score == 20
  {
  }

  /** A short-waiting candidate three tiers above the seeker is filtered for the tier gap. */
  lemma FarTierShortWaitFiltered(now: i64)
    ensures
      var seeker := Plain("s", 0, 0, 0, 0, Low);
      var candidate := Plain("c", 7, 0, 10, 0, Low);
      QuickReject(seeker, candidate, "s", DefaultConfig, now) == Reject(TierGap(0, 3))
  {
    MicSegmentThresholds(7);
  }

  /** The wrapped tier difference at work: with a minute of waiting, a candidate one tier
      above the seeker earns 0 for consistency, the mirror pair earns 3. */
  lemma OneTierUpEarnsNothing()
    ensures SegmentScore(1, 2, 60) == 0
    ensures SegmentScore(2, 1, 60) == 3
  {
  }

  /** A blacklist entry turns the candidate away whatever else holds. */
  lemma BlacklistWins(seeker: Entity, candidate: Entity, cfg: MatchConfig, now: i64, currentSeg: u8)
    requires seeker.id in candidate.blacklist
    ensures ScoreDetailed(seeker, candidate, seeker.id, cfg, now, currentSeg).rejected
    ensures ScoreDetailed(seeker, candidate, seeker.id, cfg, now, currentSeg).reason == Blacklisted
  {
  }
}
