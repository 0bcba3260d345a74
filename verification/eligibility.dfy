/** The eligibility filter run before a pair is scored, and the per-pair
    evaluation that combines it with the five component scores. */
module Eligibility {
  import opened GoInts
  import opened Entities
  import opened Segment
  import opened Scorers

  datatype Verdict = Pass | Reject(reason: Reason)

  /** Seconds since the candidate was last matched with the seeker, as Go's
      `int64` subtraction computes it. */
  function Elapsed(candidate: Entity, seekerId: string, now: i64): (e: i64)
    requires seekerId in candidate.lastMatched
    ensures (e - (now - candidate.lastMatched[seekerId])) % 0x1_0000_0000_0000_0000 == 0
  {
    WrapI64(now - candidate.lastMatched[seekerId])
  }

  /** The candidate met the seeker less than one cooldown ago. A pair that never met
      is not cooling; otherwise, while the subtraction stays inside `int64`, cooling
      means exactly that fewer than `cooldown` seconds have passed. */
  predicate Cooling(candidate: Entity, seekerId: string, cfg: MatchConfig, now: i64)
    ensures seekerId !in candidate.lastMatched ==> !Cooling(candidate, seekerId, cfg, now)
    ensures (seekerId in candidate.lastMatched
             && -0x8000_0000_0000_0000 <= now - candidate.lastMatched[seekerId] < 0x8000_0000_0000_0000) ==>
      (Cooling(candidate, seekerId, cfg, now) <==> now - candidate.lastMatched[seekerId] < cfg.cooldown)
  {
    seekerId in candidate.lastMatched && Elapsed(candidate, seekerId, now) < cfg.cooldown
  }

  /** Go's `quickReject`: blacklist first, then cooldown, then (for a candidate that
      has waited under a minute) a wrapped tier difference above 1. */
  function QuickReject(seeker: Entity, candidate: Entity, seekerId: string, cfg: MatchConfig, now: i64): (v: Verdict)
    ensures seekerId in candidate.blacklist ==> v == Reject(Blacklisted)
    ensures seekerId !in candidate.blacklist && Cooling(candidate, seekerId, cfg, now) ==>
      v == Reject(Cooldown(Elapsed(candidate, seekerId, now)))
    ensures v.Reject? && v.reason.TierGap? <==>
      && seekerId !in candidate.blacklist
      && !Cooling(candidate, seekerId, cfg, now)
      && candidate.waitSeconds < 60
      && TierDiff(MicSegment(seeker.micCount), MicSegment(candidate.micCount)) > 1
    ensures v.Reject? && v.reason.TierGap? ==>
      v.reason == TierGap(MicSegment(seeker.micCount), MicSegment(candidate.micCount))
    ensures v.Reject? ==> v.reason.Blacklisted? || v.reason.Cooldown? || v.reason.TierGap?
    ensures v == Pass <==>
      && seekerId !in candidate.blacklist
      && !Cooling(candidate, seekerId, cfg, now)
      && !(candidate.waitSeconds < 60
           && TierDiff(MicSegment(seeker.micCount), MicSegment(candidate.micCount)) > 1)
  {
    if seekerId in candidate.blacklist then Reject(Blacklisted)
    else if seekerId in candidate.lastMatched && Elapsed(candidate, seekerId, now) < cfg.cooldown then
      Reject(Cooldown(Elapsed(candidate, seekerId, now)))
    else if candidate.waitSeconds < 60 then
      var currentSeg := MicSegment(seeker.micCount);
      var candidateSeg := MicSegment(candidate.micCount);
      if TierDiff(currentSeg, candidateSeg) > 1 then Reject(TierGap(currentSeg, candidateSeg))
      else Pass
    else Pass
  }

  /** What the filter admits, stated on tiers: past the blacklist and the cooldown, a
      candidate that waited under a minute passes exactly when its tier equals the
      seeker's or lies one below it. A candidate in a higher tier never passes. */
  lemma QuickRejectOnTiers(seeker: Entity, candidate: Entity, seekerId: string, cfg: MatchConfig, now: i64)
    requires seekerId !in candidate.blacklist && !Cooling(candidate, seekerId, cfg, now)
    ensures candidate.waitSeconds >= 60 ==> QuickReject(seeker, candidate, seekerId, cfg, now) == Pass
    ensures candidate.waitSeconds < 60 ==>
      (QuickReject(seeker, candidate, seekerId, cfg, now) == Pass <==>
        MicSegment(candidate.micCount) == MicSegment(seeker.micCount)
        || MicSegment(seeker.micCount) == MicSegment(candidate.micCount) + 1)
  {
    TierDiffOnTiers(MicSegment(seeker.micCount), MicSegment(candidate.micCount));
  }

  /** The cooldown boundary: exactly one cooldown after the last match the candidate
      is no longer cooling; one second earlier it still is (unless that earlier
      difference itself falls outside `int64` and wraps). */
  lemma CooldownBoundary(candidate: Entity, seekerId: string, cfg: MatchConfig, now: i64)
    requires seekerId in candidate.lastMatched
    ensures now - candidate.lastMatched[seekerId] == cfg.cooldown ==> !Cooling(candidate, seekerId, cfg, now)
    ensures now - candidate.lastMatched[seekerId] == cfg.cooldown - 1 > -0x8000_0000_0000_0000 ==>
      Cooling(candidate, seekerId, cfg, now)
  {
  }

  /** Go's `scoreMatchDetailed`, given the seeker's tier `currentSeg`: a filtered pair
      keeps only its tiers and gets the sentinel score; a pair the segment score refuses
      keeps its wait and segment scores and gets the sentinel; any other pair's total is
      the sum of the five components. */
  function ScoreDetailed(seeker: Entity, candidate: Entity, seekerId: string, cfg: MatchConfig, now: i64, currentSeg: u8): (d: MatchDetail)
    ensures d.entity == candidate
    ensures d.currentSegment == currentSeg && d.candidateSegment == MicSegment(candidate.micCount)
    ensures d.rejected <==>
      QuickReject(seeker, candidate, seekerId, cfg, now).Reject?
      || SegmentScore(currentSeg, MicSegment(candidate.micCount), candidate.waitSeconds) < 0
    ensures d.rejected ==> d.score == RejectedScore && d.reason != NoReason
    ensures QuickReject(seeker, candidate, seekerId, cfg, now).Reject? ==>
      d.reason == QuickReject(seeker, candidate, seekerId, cfg, now).reason
    ensures QuickReject(seeker, candidate, seekerId, cfg, now).Pass? && d.rejected ==>
      d.reason == SegmentMismatch
    ensures !d.rejected ==>
      && d.reason == NoReason
      && d.score == d.waitScore + d.segmentScore + d.audienceScore + d.historyScore + d.activityScore
      && d.score >= 0
      && d.waitScore == WaitScore(candidate.waitSeconds, cfg)
      && d.segmentScore == SegmentScore(currentSeg, MicSegment(candidate.micCount), candidate.waitSeconds)
      && (d.segmentScore == 10 || d.segmentScore == 3 || d.segmentScore == 0)
      && d.audienceScore == AudienceScore(seeker.audienceCount - candidate.audienceCount)
      && d.historyScore == HistoryScore(candidate.matchHistory)
      && (d.historyScore == 0 || d.historyScore == 2 || d.historyScore == 4)
      && d.activityScore == ActivityScore(candidate.activity)
      && (d.activityScore == 0 || d.activityScore == 2 || d.activityScore == 3)
      && (candidate.activity > 2 ==> d.activityScore == 0)
  {
    var candidateSeg := MicSegment(candidate.micCount);
    match QuickReject(seeker, candidate, seekerId, cfg, now)
    case Reject(why) =>
      MatchDetail(candidate, RejectedScore, 0, 0, 0, 0, 0, currentSeg, candidateSeg, true, why)
    case Pass =>
      var wait := WaitScore(candidate.waitSeconds, cfg);
      var segment := SegmentScore(currentSeg, candidateSeg, candidate.waitSeconds);
      if segment < 0 then
        MatchDetail(candidate, RejectedScore, wait, segment, 0, 0, 0, currentSeg, candidateSeg, true, SegmentMismatch)
      else
        var audience := AudienceScore(seeker.audienceCount - candidate.audienceCount);
        var history := HistoryScore(candidate.matchHistory);
        var activity := ActivityScore(candidate.activity);
        MatchDetail(candidate, wait + segment + audience + history + activity,
                    wait, segment, audience, history, activity, currentSeg, candidateSeg, false, NoReason)
  }

  /** Go's `scoreMatch`: the total of the detailed record, which is the sentinel for
      a rejected pair and a non-negative sum for an accepted one. */
  function ScoreMatch(seeker: Entity, candidate: Entity, seekerId: string, cfg: MatchConfig, now: i64, currentSeg: u8): (s: i16)
    ensures s == RejectedScore || s >= 0
    ensures s >= 0 <==> !ScoreDetailed(seeker, candidate, seekerId, cfg, now, currentSeg).rejected
    ensures s >= 0 ==>
      s == WaitScore(candidate.waitSeconds, cfg)
           + SegmentScore(currentSeg, MicSegment(candidate.micCount), candidate.waitSeconds)
           + AudienceScore(seeker.audienceCount - candidate.audienceCount)
           + HistoryScore(candidate.matchHistory)
           + ActivityScore(candidate.activity)
  {
    ScoreDetailed(seeker, candidate, seekerId, cfg, now, currentSeg).score
  }

  /** When a pair may be matched at all, stated without the two overlapping checks:
      no blacklist entry, no cooldown, and either equal tiers or a candidate that has
      waited a minute. */
  predicate Matchable(seeker: Entity, candidate: Entity, seekerId: string, cfg: MatchConfig, now: i64)
  {
    && seekerId !in candidate.blacklist
    && !Cooling(candidate, seekerId, cfg, now)
    && (MicSegment(seeker.micCount) == MicSegment(candidate.micCount) || candidate.waitSeconds >= 60)
  }

  /** The filter and the segment score together accept exactly the matchable pairs:
      under a minute of waiting, the filter refuses tier gaps other than "one below"
      and the segment score refuses that one too. */
  lemma AcceptedIffMatchable(seeker: Entity, candidate: Entity, seekerId: string, cfg: MatchConfig, now: i64)
    ensures !ScoreDetailed(seeker, candidate, seekerId, cfg, now, MicSegment(seeker.micCount)).rejected
        <==> Matchable(seeker, candidate, seekerId, cfg, now)
  {
    if seekerId !in candidate.blacklist && !Cooling(candidate, seekerId, cfg, now) {
      QuickRejectOnTiers(seeker, candidate, seekerId, cfg, now);
    }
  }
}
