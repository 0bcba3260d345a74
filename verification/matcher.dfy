/** Matching one seeker against a pool: evaluate every pair, find the best accepted
    total, collect the candidates that reach it, and let the caller's random draw
    pick one of them. */
module Matcher {
  import opened Wrappers
  import opened GoInts
  import opened Entities
  import opened Segment
  import opened Eligibility

  /** Every pair's record, in pool order, with the seeker's tier computed once. */
  function Evaluate(seeker: Entity, pool: seq<Entity>, seekerId: string, cfg: MatchConfig, now: i64): (ds: seq<MatchDetail>)
    ensures |ds| == |pool|
    ensures forall i :: 0 <= i < |pool| ==> ds[i].entity == pool[i]
  {
    seq(|pool|, i requires 0 <= i < |pool| =>
      ScoreDetailed(seeker, pool[i], seekerId, cfg, now, MicSegment(seeker.micCount)))
  }

  /** Accepted records carry a non-negative total, rejected ones the sentinel. */
  predicate WellScored(ds: seq<MatchDetail>)
  {
    forall i :: 0 <= i < |ds| ==>
      (ds[i].rejected ==> ds[i].score == RejectedScore) && (!ds[i].rejected ==> ds[i].score >= 0)
  }

  lemma EvaluateWellScored(seeker: Entity, pool: seq<Entity>, seekerId: string, cfg: MatchConfig, now: i64)
    ensures WellScored(Evaluate(seeker, pool, seekerId, cfg, now))
  {
  }

  /** The running maximum of the detailed scan: accepted totals only, from the floor. */
  function MaxScore(ds: seq<MatchDetail>): (m: int)
    ensures m >= ScanFloor
    ensures forall i :: 0 <= i < |ds| && !ds[i].rejected ==> ds[i].score <= m
    ensures m == ScanFloor || exists i :: 0 <= i < |ds| && !ds[i].rejected && ds[i].score == m
  {
    if |ds| == 0 then ScanFloor
    else
      var m := MaxScore(ds[..|ds| - 1]);
      var last := ds[|ds| - 1];
      if !last.rejected && last.score > m then last.score else m
  }

  /** Without accepted records the maximum stays below zero, with one it does not. */
  lemma MaxScoreNegativeIff(ds: seq<MatchDetail>)
    requires WellScored(ds)
    ensures MaxScore(ds) < 0 <==> forall i :: 0 <= i < |ds| ==> ds[i].rejected
  {
  }

  /** The entities of the accepted records whose total is `best`, in pool order. */
  function Ties(ds: seq<MatchDetail>, best: int): (t: seq<Entity>)
    ensures |t| <= |ds|
  {
    if |ds| == 0 then []
    else
      var last := ds[|ds| - 1];
      var prefix := Ties(ds[..|ds| - 1], best);
      if !last.rejected && last.score == best then prefix + [last.entity] else prefix
  }

  /** Every accepted record at the target total contributes its entity to the ties. */
  lemma {:induction false} TiesComplete(ds: seq<MatchDetail>, best: int, i: int)
    requires 0 <= i < |ds| && !ds[i].rejected && ds[i].score == best
    ensures ds[i].entity in Ties(ds, best)
  {
    if i < |ds| - 1 {
      var prefix := ds[..|ds| - 1];
      assert prefix[i] == ds[i];
      TiesComplete(prefix, best, i);
    }
  }

  /** Every tie comes from an accepted record at the target total. */
  lemma {:induction false} TiesSound(ds: seq<MatchDetail>, best: int, e: Entity)
    requires e in Ties(ds, best)
    ensures exists i :: 0 <= i < |ds| && !ds[i].rejected && ds[i].score == best && ds[i].entity == e
  {
    var prefix := ds[..|ds| - 1];
    var last := ds[|ds| - 1];
    if e in Ties(prefix, best) {
      TiesSound(prefix, best, e);
      var i :| 0 <= i < |prefix| && !prefix[i].rejected && prefix[i].score == best && prefix[i].entity == e;
      assert ds[i] == prefix[i];
    } else {
      assert !last.rejected && last.score == best && last.entity == e;
    }
  }

  /** The selection rule: nothing when no record is accepted, otherwise the tie
      indexed by the draw. The empty-tie branch mirrors the source's own guard. */
  function Choose(ds: seq<MatchDetail>, pick: nat): (r: Option<Entity>)
    ensures r.None? <==> MaxScore(ds) < 0
    ensures r.Some? ==> r.value in Ties(ds, MaxScore(ds))
  {
    var best := MaxScore(ds);
    if best < 0 then None
    else
      var k :| 0 <= k < |ds| && !ds[k].rejected && ds[k].score == best;
      TiesComplete(ds, best, k);
      var ties := Ties(ds, best);
      if |ties| == 0 then None else Some(ties[pick % |ties|])
  }

  /** What the selection promises: nothing exactly when every record is rejected, and
      otherwise an accepted candidate whose total no accepted candidate beats. */
  lemma ChooseIsBest(ds: seq<MatchDetail>, pick: nat)
    requires WellScored(ds)
    ensures Choose(ds, pick).None? <==> forall i :: 0 <= i < |ds| ==> ds[i].rejected
    ensures Choose(ds, pick).Some? ==>
      exists i :: 0 <= i < |ds| && !ds[i].rejected && ds[i].entity == Choose(ds, pick).value
        && forall j :: 0 <= j < |ds| && !ds[j].rejected ==> ds[j].score <= ds[i].score
  {
    MaxScoreNegativeIff(ds);
    var best := MaxScore(ds);
    if best >= 0 {
      var k :| 0 <= k < |ds| && !ds[k].rejected && ds[k].score == best;
      TiesComplete(ds, best, k);
      var ties := Ties(ds, best);
      TiesSound(ds, best, ties[pick % |ties|]);
    }
  }

  /** A pool with a single accepted candidate yields that candidate whatever the draw. */
  lemma SingleAcceptedSelected(ds: seq<MatchDetail>, k: int, pick: nat)
    requires WellScored(ds)
    requires 0 <= k < |ds| && !ds[k].rejected
    requires forall i :: 0 <= i < |ds| && i != k ==> ds[i].rejected
    ensures Choose(ds, pick) == Some(ds[k].entity)
  {
    var best := MaxScore(ds);
    assert best == ds[k].score;
    TiesComplete(ds, best, k);
    var ties := Ties(ds, best);
    TiesSound(ds, best, ties[pick % |ties|]);
  }

  /** Draw `k` selects the `k`-th tie, so every tied candidate is the outcome of some
      draw and a uniform draw is a uniform choice among the ties. */
  lemma EveryTieReachable(ds: seq<MatchDetail>, k: nat)
    requires MaxScore(ds) >= 0 && k < |Ties(ds, MaxScore(ds))|
    ensures Choose(ds, k) == Some(Ties(ds, MaxScore(ds))[k])
  {
    assert k % |Ties(ds, MaxScore(ds))| == k;
  }

  /** The first loop of `matchEntityDetailed`: record every pair and keep the best
      accepted total seen so far. */
  method ScorePool(seeker: Entity, pool: seq<Entity>, seekerId: string, cfg: MatchConfig, now: i64)
    returns (details: seq<MatchDetail>, maxScore: int)
    ensures details == Evaluate(seeker, pool, seekerId, cfg, now)
    ensures maxScore == MaxScore(details)
  {
    ghost var ds := Evaluate(seeker, pool, seekerId, cfg, now);
    details := [];
    maxScore := ScanFloor;
    var currentSeg := MicSegment(seeker.micCount);
    for i := 0 to |pool|
      invariant details == ds[..i]
      invariant maxScore == MaxScore(details)
    {
      var detail := ScoreDetailed(seeker, pool[i], seekerId, cfg, now, currentSeg);
      assert detail == ds[i];
      assert ds[..i + 1] == details + [detail];
      assert (details + [detail])[..i] == details;
      details := details + [detail];
      if !detail.rejected && detail.score > maxScore {
        maxScore := detail.score;
      }
    }
    assert ds[..|pool|] == ds;
  }

  /** The second loop of `matchEntityDetailed`: the accepted candidates at `best`. */
  method CollectTies(details: seq<MatchDetail>, best: int) returns (candidates: seq<Entity>)
    ensures candidates == Ties(details, best)
  {
    candidates := [];
    for i := 0 to |details|
      invariant candidates == Ties(details[..i], best)
    {
      assert details[..i + 1][..i] == details[..i];
      if !details[i].rejected && details[i].score == best {
        candidates := candidates + [details[i].entity];
      }
    }
    assert details[..|details|] == details;
  }

  /** Go's `matchEntityDetailed`, with the clock reading `now` and the draw of
      `rand.Intn` given as `pick % (number of ties)`. */
  method MatchEntityDetailed(seeker: Entity, pool: seq<Entity>, seekerId: string, cfg: MatchConfig, now: i64, pick: nat)
    returns (selected: Option<Entity>, details: seq<MatchDetail>)
    ensures details == Evaluate(seeker, pool, seekerId, cfg, now)
    ensures |details| == |pool| && forall i :: 0 <= i < |pool| ==> details[i].entity == pool[i]
    ensures selected == Choose(details, pick)
    ensures selected.None? <==> forall i :: 0 <= i < |details| ==> details[i].rejected
    ensures selected.Some? ==>
      exists i :: 0 <= i < |pool| && !details[i].rejected && pool[i] == selected.value
        && forall j :: 0 <= j < |pool| && !details[j].rejected ==> details[j].score <= details[i].score
  {
    if |pool| == 0 {
      selected, details := None, [];
    } else {
      var maxScore;
      details, maxScore := ScorePool(seeker, pool, seekerId, cfg, now);
      if maxScore < 0 {
        selected := None;
      } else {
        var candidates := CollectTies(details, maxScore);
        if |candidates| == 0 {
          selected := None;
        } else {
          selected := Some(candidates[pick % |candidates|]);
        }
      }
    }
    EvaluateWellScored(seeker, pool, seekerId, cfg, now);
    ChooseIsBest(details, pick);
  }

  /** The first pass of the score-only variant: the maximum over every total,
      rejected sentinels included. */
  function MaxTotal(ds: seq<MatchDetail>): (m: int)
    ensures m >= ScanFloor
    ensures forall i :: 0 <= i < |ds| ==> ds[i].score <= m
    ensures m == ScanFloor || exists i :: 0 <= i < |ds| && ds[i].score == m
  {
    if |ds| == 0 then ScanFloor
    else
      var m := MaxTotal(ds[..|ds| - 1]);
      if ds[|ds| - 1].score > m then ds[|ds| - 1].score else m
  }

  /** The second pass of the score-only variant: every entity whose total is `best`. */
  function TiesByTotal(ds: seq<MatchDetail>, best: int): (t: seq<Entity>)
    ensures |t| <= |ds|
    ensures forall e :: e in t ==> exists i :: 0 <= i < |ds| && ds[i].score == best && ds[i].entity == e
  {
    if |ds| == 0 then []
    else
      var prefix := TiesByTotal(ds[..|ds| - 1], best);
      if ds[|ds| - 1].score == best then prefix + [ds[|ds| - 1].entity] else prefix
  }

  /** Because sentinels sit below every accepted total, the unfiltered maximum agrees
      with the accepted maximum whenever the latter is non-negative, and stays
      negative otherwise. */
  lemma {:induction false} MaxTotalAgrees(ds: seq<MatchDetail>)
    requires WellScored(ds)
    ensures MaxTotal(ds) < 0 <==> MaxScore(ds) < 0
    ensures MaxScore(ds) >= 0 ==> MaxTotal(ds) == MaxScore(ds)
  {
    if |ds| > 0 {
      var prefix := ds[..|ds| - 1];
      assert WellScored(prefix) by {
        forall i | 0 <= i < |prefix| ensures prefix[i] == ds[i] { }
      }
      MaxTotalAgrees(prefix);
      var last := ds[|ds| - 1];
      if last.rejected {
        assert last.score == RejectedScore;
      }
    }
  }

  /** With a non-negative target, filtering by total alone collects exactly the
      accepted ties, in the same order. */
  lemma {:induction false} TiesByTotalAgrees(ds: seq<MatchDetail>, best: int)
    requires WellScored(ds) && best >= 0
    ensures TiesByTotal(ds, best) == Ties(ds, best)
  {
    if |ds| > 0 {
      var prefix := ds[..|ds| - 1];
      assert WellScored(prefix) by {
        forall i | 0 <= i < |prefix| ensures prefix[i] == ds[i] { }
      }
      TiesByTotalAgrees(prefix, best);
      var last := ds[|ds| - 1];
      if last.rejected {
        assert last.score == RejectedScore;
      }
    }
  }

  /** The first pass of `matchEntity`: the highest `scoreMatch` total. */
  method MaxOfTotals(seeker: Entity, pool: seq<Entity>, seekerId: string, cfg: MatchConfig, now: i64)
    returns (maxScore: int)
    ensures maxScore == MaxTotal(Evaluate(seeker, pool, seekerId, cfg, now))
  {
    ghost var ds := Evaluate(seeker, pool, seekerId, cfg, now);
    maxScore := ScanFloor;
    var currentSeg := MicSegment(seeker.micCount);
    for i := 0 to |pool|
      invariant maxScore == MaxTotal(ds[..i])
    {
      var score := ScoreMatch(seeker, pool[i], seekerId, cfg, now, currentSeg);
      assert ds[..i + 1][..i] == ds[..i];
      if score > maxScore {
        maxScore := score;
      }
    }
    assert ds[..|pool|] == ds;
  }

  /** The second pass of `matchEntity`: the pool members whose total is `best`. */
  method TiesOfTotals(seeker: Entity, pool: seq<Entity>, seekerId: string, cfg: MatchConfig, now: i64, best: int)
    returns (results: seq<Entity>)
    ensures results == TiesByTotal(Evaluate(seeker, pool, seekerId, cfg, now), best)
  {
    ghost var ds := Evaluate(seeker, pool, seekerId, cfg, now);
    results := [];
    var currentSeg := MicSegment(seeker.micCount);
    for i := 0 to |pool|
      invariant results == TiesByTotal(ds[..i], best)
    {
      var score := ScoreMatch(seeker, pool[i], seekerId, cfg, now, currentSeg);
      assert ds[..i + 1][..i] == ds[..i];
      if score == best {
        results := results + [pool[i]];
      }
    }
    assert ds[..|pool|] == ds;
  }

  /** Go's `matchEntity`: the two-pass scan over `scoreMatch` totals. It selects the
      same candidate as the detailed variant for the same clock reading and draw. */
  method MatchEntity(seeker: Entity, pool: seq<Entity>, seekerId: string, cfg: MatchConfig, now: i64, pick: nat)
    returns (selected: Option<Entity>)
    ensures selected == Choose(Evaluate(seeker, pool, seekerId, cfg, now), pick)
    ensures selected.None? <==> forall i :: 0 <= i < |pool| ==>
      ScoreDetailed(seeker, pool[i], seekerId, cfg, now, MicSegment(seeker.micCount)).rejected
  {
    ghost var ds := Evaluate(seeker, pool, seekerId, cfg, now);
    EvaluateWellScored(seeker, pool, seekerId, cfg, now);
    MaxTotalAgrees(ds);
    if |pool| == 0 {
      selected := None;
    } else {
      var maxScore := MaxOfTotals(seeker, pool, seekerId, cfg, now);
      if maxScore < 0 {
        selected := None;
      } else {
        var results := TiesOfTotals(seeker, pool, seekerId, cfg, now, maxScore);
        TiesByTotalAgrees(ds, maxScore);
        if |results| == 0 {
          selected := None;
        } else {
          selected := Some(results[pick % |results|]);
        }
      }
    }
    ChooseIsBest(ds, pick);
  }
}
