/** Occupancy tiers: the mic count quantised to 0..3, and the `uint8` difference
    of two tiers as Go computes it. */
module Segment {
  import opened GoInts

  const SegmentTable: seq<u8> := [0, 1, 1, 1, 2, 2, 2, 3, 3, 3, 3, 3, 3, 3, 3, 3]

  /** Go's `getMicSegment`: a table lookup below 16, tier 3 above. */
  function MicSegment(micCount: u16): (tier: u8)
    ensures tier <= 3
    ensures micCount == 0 ==> tier == 0
    ensures micCount >= 15 ==> tier == 3
  {
    if micCount == 0 then 0
    else if micCount < |SegmentTable| then SegmentTable[micCount]
    else 3
  }

  /** The tier boundaries stated as thresholds rather than a table. */
  function TierByThreshold(micCount: nat): nat
  {
    if micCount == 0 then 0
    else if micCount <= 3 then 1
    else if micCount <= 6 then 2
    else 3
  }

  /** The lookup table agrees with the thresholds for every mic count. */
  lemma MicSegmentThresholds(micCount: u16)
    ensures MicSegment(micCount) == TierByThreshold(micCount)
  {
    if micCount < |SegmentTable| {
      assert SegmentTable[micCount] == TierByThreshold(micCount) by {
        var k := micCount;
        assert k == 0 || k == 1 || k == 2 || k == 3 || k == 4 || k == 5 || k == 6 || k == 7
          || k == 8 || k == 9 || k == 10 || k == 11 || k == 12 || k == 13 || k == 14 || k == 15;
      }
    }
  }

  /** More mics never means a lower tier. */
  lemma MicSegmentMonotone(a: u16, b: u16)
    requires a <= b
    ensures MicSegment(a) <= MicSegment(b)
  {
    MicSegmentThresholds(a);
    MicSegmentThresholds(b);
  }

  /** Go's `currentSeg - candidateSeg` on `uint8`: wraps instead of going negative,
      so the `diff < 0` branch of the source never runs. */
  function TierDiff(current: u8, candidate: u8): (d: u8)
    ensures d == 0 <==> current == candidate
    ensures current >= candidate ==> d == current - candidate
    ensures current < candidate ==> d == 0x100 - (candidate - current)
  {
    ToU8(current - candidate)
  }

  /** On real tiers (0..3) the difference is 1 exactly when the seeker is one tier
      above the candidate, and exceeds 1 whenever the candidate is above the seeker. */
  lemma TierDiffOnTiers(current: u8, candidate: u8)
    requires current <= 3 && candidate <= 3
    ensures TierDiff(current, candidate) == 1 <==> current == candidate + 1
    ensures TierDiff(current, candidate) > 1 <==> current > candidate + 1 || current < candidate
    ensures current < candidate ==> TierDiff(current, candidate) >= 253
  {
  }
}
