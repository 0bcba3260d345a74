/** The records the engine reads and produces: the entity being matched or
    offered, the configuration, and the per-pair diagnostic record. */
module Entities {
  import opened GoInts
  import opened Activity

  /** A seeker or a pool member. The engine only reads it. */
  datatype Entity = Entity(
    id: string,
    lastMatched: map<string, i64>,  // other entity's id -> Unix time of the last match with it
    blacklist: set<string>,         // ids this entity refuses to be matched with
    micCount: u16,
    audienceCount: u16,
    waitSeconds: u16,
    matchHistory: u16,
    activity: Level
  )

  /** Tunable constants: the cooldown after a match, in seconds, and the wait below
      which waiting earns nothing. `minWait` is a Go `int`, 64 bits wide. */
  datatype MatchConfig = MatchConfig(cooldown: i64, minWait: i64)

  /** The configuration the program ships with. */
  const DefaultConfig := MatchConfig(600, 20)

  /** Why a candidate was turned away; `NoReason` is the empty text of an accepted pair. */
  datatype Reason =
    | NoReason
    | Blacklisted
    | Cooldown(elapsed: i64)
    | TierGap(current: u8, candidate: u8)
    | SegmentMismatch

  /** The sentinel total of a rejected pair, and the scan's starting maximum. */
  const RejectedScore: i16 := -999
  const ScanFloor: i16 := -1000

  /** One evaluated (seeker, candidate) pair. */
  datatype MatchDetail = MatchDetail(
    entity: Entity,
    score: i16,
    waitScore: i16,
    segmentScore: i16,
    audienceScore: i16,
    historyScore: i16,
    activityScore: i16,
    currentSegment: u8,
    candidateSegment: u8,
    rejected: bool,
    reason: Reason
  )
}
