/** The five component scores of a (seeker, candidate) pair. */
module Scorers {
  import opened GoInts
  import opened Activity
  import opened Entities
  import opened Segment

  /** The largest wait score a `uint16` wait can earn; it fits an `int16`. */
  const MaxWaitScore: int := 4 + (0xFFFF - 60) / 10 * 2

  /** Go's `scoreWaitTime`. The threshold is `uint16(MinWaitTime)`; the last branch
      divides before it doubles. */
  function WaitScore(seconds: u16, cfg: MatchConfig): (r: i16)
    ensures 0 <= r <= MaxWaitScore
    ensures seconds <= ToU16(cfg.minWait) ==> r == 0
    ensures ToU16(cfg.minWait) < seconds <= 60 ==> r == (seconds - ToU16(cfg.minWait)) / 10
    ensures ToU16(cfg.minWait) < seconds && seconds > 60 ==> r == 4 + (seconds - 60) / 10 * 2
  {
    var minWait := ToU16(cfg.minWait);
    if seconds <= minWait then 0
    else if seconds <= 60 then (seconds - minWait) / 10
    else 4 + (seconds - 60) / 10 * 2
  }

  /** The wait score never drops as the wait grows, provided the threshold is at least 11. */
  lemma WaitScoreMonotone(a: u16, b: u16, cfg: MatchConfig)
    requires ToU16(cfg.minWait) >= 11
    requires a <= b
    ensures WaitScore(a, cfg) <= WaitScore(b, cfg)
  {
    var m := ToU16(cfg.minWait);
    if m < a && a <= 60 && b > 60 {
      assert (a - m) / 10 <= (60 - m) / 10 <= 4;
    } else if a > 60 && b > 60 {
      assert (a - 60) / 10 <= (b - 60) / 10;
    }
  }

  /** With a threshold of 10 or less the score falls at the one-minute mark:
      a 60-second wait outscores a 61-second wait. */
  lemma WaitScoreDropsAtMinute(cfg: MatchConfig)
    requires ToU16(cfg.minWait) <= 10
    ensures WaitScore(60, cfg) > WaitScore(61, cfg)
  {
    var m := ToU16(cfg.minWait);
    assert (60 - m) / 10 >= 5;
  }

  /** The wait score is monotone exactly when the threshold is at least 11. */
  lemma WaitScoreMonotoneIff(cfg: MatchConfig)
    ensures (forall a: u16, b: u16 :: a <= b ==> WaitScore(a, cfg) <= WaitScore(b, cfg))
        <==> ToU16(cfg.minWait) >= 11
  {
    if ToU16(cfg.minWait) >= 11 {
      forall a: u16, b: u16 | a <= b
        ensures WaitScore(a, cfg) <= WaitScore(b, cfg)
      {
        WaitScoreMonotone(a, b, cfg);
      }
    } else {
      WaitScoreDropsAtMinute(cfg);
    }
  }

  /** The shipped configuration (threshold 20) gives a monotone wait score. */
  lemma DefaultWaitScoreMonotone(a: u16, b: u16)
    requires a <= b
    ensures WaitScore(a, DefaultConfig) <= WaitScore(b, DefaultConfig)
  {
    WaitScoreMonotone(a, b, DefaultConfig);
  }

  /** Go's `scoreMicSegment`: 10 for equal tiers; otherwise it needs a wait of a
      minute and scores 3 only when the wrapped difference is 1; -999 marks the
      pair as not matchable. */
  function SegmentScore(current: u8, candidate: u8, wait: u16): (r: i16)
    ensures r == 10 || r == 3 || r == 0 || r == RejectedScore
    ensures r == 10 <==> current == candidate
    ensures r == 3 <==> current != candidate && TierDiff(current, candidate) == 1 && wait >= 60
    ensures r == 0 <==> current != candidate && TierDiff(current, candidate) != 1 && wait >= 60
    ensures r < 0 <==> current != candidate && wait < 60
  {
    if current == candidate then 10
    else
      var diff := TierDiff(current, candidate);
      if diff == 1 && wait >= 60 then 3
      else if wait >= 60 then 0
      else RejectedScore
  }

  /** On real tiers the segment score is not symmetric: a seeker one tier above the
      candidate earns 3, a seeker one tier below earns 0. */
  lemma SegmentScoreOnTiers(current: u8, candidate: u8, wait: u16)
    requires current <= 3 && candidate <= 3
    ensures SegmentScore(current, candidate, wait) == 3 <==> current == candidate + 1 && wait >= 60
    ensures candidate == current + 1 && wait >= 60 ==> SegmentScore(current, candidate, wait) == 0
  {
    TierDiffOnTiers(current, candidate);
  }

  const AudienceTable: seq<i16> := [5, 4, 3, 2, 1, 0]

  /** Go's `scoreAudienceDiff`: a table on the absolute audience difference. */
  function AudienceScore(diff: int): (r: i16)
    ensures 0 <= r <= 5
    ensures r == if diff < 0 then (if -diff < 5 then 5 + diff else 0)
                 else (if diff < 5 then 5 - diff else 0)
  {
    var d := if diff < 0 then -diff else diff;
    if d < |AudienceTable| then AudienceTable[d] else 0
  }

  /** The audience score is symmetric in the two audiences and never rises as they drift apart. */
  lemma AudienceScoreShape(x: int, y: int)
    ensures AudienceScore(x) == AudienceScore(-x)
    ensures 0 <= x <= y ==> AudienceScore(x) >= AudienceScore(y)
  {
  }

  /** Go's `scoreMatchHistory`. */
  function HistoryScore(history: u16): (r: i16)
    ensures r == 0 || r == 2 || r == 4
    ensures r == 4 <==> history >= 10
    ensures r == 2 <==> 5 <= history < 10
  {
    if history >= 10 then 4
    else if history >= 5 then 2
    else 0
  }

  /** More successful matches never score less. */
  lemma HistoryScoreMonotone(a: u16, b: u16)
    requires a <= b
    ensures HistoryScore(a) <= HistoryScore(b)
  {
  }

  const ActivityTable: seq<i16> := [0, 2, 3]

  /** Go's `scoreActivity`: a table for the named levels, 0 for the rest. */
  function ActivityScore(level: Level): (r: i16)
    ensures r == 0 || r == 2 || r == 3
    ensures level > High ==> r == 0
  {
    if level < |ActivityTable| then ActivityTable[level] else 0
  }

  /** The activity score is determined by the level's printed name. */
  lemma ActivityScoreByName(level: Level)
    ensures ActivityScore(level) == 3 <==> LevelString(level) == "high"
    ensures ActivityScore(level) == 2 <==> LevelString(level) == "medium"
    ensures ActivityScore(level) == 0 <==> LevelString(level) == "low"
  {
  }
}
