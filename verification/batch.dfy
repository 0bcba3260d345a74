/** Matching several seekers, each independently, against one shared pool. */
module Batch {
  import opened Wrappers
  import opened GoInts
  import opened Entities
  import opened Matcher

  /** The caller passed seekers and identifiers of different lengths (a panic in Go). */
  datatype BatchError = LengthMismatch

  /** What seeker `i` obtains on its own: nothing for an absent seeker, otherwise the
      single-seeker selection with its own clock reading and draw. */
  function Outcomes(rooms: seq<Option<Entity>>, pool: seq<Entity>, ids: seq<string>, cfg: MatchConfig,
                    clock: nat -> i64, draws: nat -> nat): (outs: seq<Option<Entity>>)
    requires |rooms| == |ids|
    ensures |outs| == |rooms|
    ensures forall i :: 0 <= i < |rooms| && outs[i].Some? ==> rooms[i].Some?
  {
    seq(|rooms|, i requires 0 <= i < |rooms| =>
      if rooms[i].None? then None
      else Choose(Evaluate(rooms[i].value, pool, ids[i], cfg, clock(i)), draws(i)))
  }

  /** Some seeker among the first `n` has identity `key` and obtained a match. */
  ghost predicate Claimed(rooms: seq<Option<Entity>>, outs: seq<Option<Entity>>, n: int, key: string)
    requires 0 <= n <= |rooms| == |outs|
  {
    exists i :: 0 <= i < n && outs[i].Some? && rooms[i].Some? && rooms[i].value.id == key
  }

  /** Seeker `i` is the last of the first `n` with identity `key` to obtain a match. */
  ghost predicate LastClaim(rooms: seq<Option<Entity>>, outs: seq<Option<Entity>>, n: int, key: string, i: int)
    requires 0 <= n <= |rooms| == |outs|
  {
    && 0 <= i < n && outs[i].Some? && rooms[i].Some? && rooms[i].value.id == key
    && forall j :: i < j < n && outs[j].Some? && rooms[j].Some? ==> rooms[j].value.id != key
  }

  /** `m` is the map the first `n` seekers produce: a key for every claimed identity,
      holding the match of the identity's last claim. */
  ghost predicate Summarises(rooms: seq<Option<Entity>>, outs: seq<Option<Entity>>, n: int, m: map<string, Entity>)
    requires 0 <= n <= |rooms| == |outs|
  {
    && (forall key :: key in m <==> Claimed(rooms, outs, n, key))
    && (forall key :: key in m ==> exists i :: LastClaim(rooms, outs, n, key, i) && outs[i] == Some(m[key]))
  }

  /** Recording seeker `n`'s match, if it has one, extends the summary by one seeker. */
  lemma {:induction false} SummarisesStep(rooms: seq<Option<Entity>>, outs: seq<Option<Entity>>, n: int,
                                          m: map<string, Entity>)
    requires 0 <= n < |rooms| == |outs|
    requires Summarises(rooms, outs, n, m)
    ensures Summarises(rooms, outs, n + 1,
      if rooms[n].Some? && outs[n].Some? then m[rooms[n].value.id := outs[n].value] else m)
  {
    var m' := if rooms[n].Some? && outs[n].Some? then m[rooms[n].value.id := outs[n].value] else m;
    forall key
      ensures key in m' <==> Claimed(rooms, outs, n + 1, key)
    {
      if Claimed(rooms, outs, n + 1, key) && !(rooms[n].Some? && outs[n].Some? && rooms[n].value.id == key) {
        var i :| 0 <= i < n + 1 && outs[i].Some? && rooms[i].Some? && rooms[i].value.id == key;
        assert Claimed(rooms, outs, n, key);
      }
    }
    forall key | key in m'
      ensures exists i :: LastClaim(rooms, outs, n + 1, key, i) && outs[i] == Some(m'[key])
    {
      if rooms[n].Some? && outs[n].Some? && key == rooms[n].value.id {
        assert LastClaim(rooms, outs, n + 1, key, n);
      } else {
        var i :| LastClaim(rooms, outs, n, key, i) && outs[i] == Some(m[key]);
        assert LastClaim(rooms, outs, n + 1, key, i);
      }
    }
  }

  /** Go's `batchMatchEntities`. Mismatched lengths fail before any matching. Otherwise
      the map is keyed by each matched seeker's own `id` (not the identifier it was
      matched under); when several seekers share an `id`, the last one to obtain a
      match decides the entry. Absent or unmatched seekers add nothing. */
  method BatchMatch(rooms: seq<Option<Entity>>, pool: seq<Entity>, ids: seq<string>, cfg: MatchConfig,
                    clock: nat -> i64, draws: nat -> nat)
    returns (r: Result<map<string, Entity>, BatchError>)
    ensures r.Failure? <==> |rooms| != |ids|
    ensures r.Success? ==> Summarises(rooms, Outcomes(rooms, pool, ids, cfg, clock, draws), |rooms|, r.value)
  {
    if |rooms| != |ids| {
      return Failure(LengthMismatch);
    }
    ghost var outs := Outcomes(rooms, pool, ids, cfg, clock, draws);
    var results: map<string, Entity> := map[];
    for i := 0 to |rooms|
      invariant Summarises(rooms, outs, i, results)
    {
      SummarisesStep(rooms, outs, i, results);
      if rooms[i].Some? {
        var room := rooms[i].value;
        var matched := MatchEntity(room, pool, ids[i], cfg, clock(i), draws(i));
        assert matched == outs[i];
        if matched.Some? {
          results := results[room.id := matched.value];
        }
      }
    }
    r := Success(results);
  }
}
