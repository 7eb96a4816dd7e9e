/**
 * Record shapes of the venue tables: venues, their participants, the rounds
 * of a venue and the per-user results of a round, with the column defaults
 * and the unique keys the schema declares.
 */
module VenueModels {
  import opened Results
  import RacingEngine

  /** A point in time, as the database stores it; the model never reads a clock. */
  type Time = int

  /** A venue row. `id` is assigned by the database; `currentRound` defaults to 1. */
  datatype Venue = Venue(id: int, name: string, currentRound: int)

  /**
   * A participant row: one racer's state in one venue. `mode` is a free
   * string column; `finishedAt` is nullable.
   */
  datatype Participant = Participant(
    venueId: int,
    userId: int,
    position: int,
    condition: int,
    mode: string,
    won: bool,
    gameOver: bool,
    rollCount: int,
    finishedAt: Option<Time>)

  /** A round row of a venue. */
  datatype VenueRound = VenueRound(venueId: int, roundNumber: int, startedAt: Time)

  /** A ranking snapshot row for one user in one round of a venue. */
  datatype VenueRoundResult = VenueRoundResult(
    venueId: int,
    roundNumber: int,
    userId: int,
    username: string,
    won: bool,
    rollCount: int)

  /** A venue row as inserted with only its name given. */
  function NewVenue(id: int, name: string): (v: Venue)
    ensures v.id == id && v.name == name
    ensures v.currentRound == 1
  {
    Venue(id, name, 1)
  }

  /**
   * A participant row as inserted for a racer who enters a venue: on the
   * starting line with full condition, in normal mode, not finished, no rolls
   * counted and no finishing time.
   */
  function NewParticipant(venueId: int, userId: int): (p: Participant)
    ensures p.venueId == venueId && p.userId == userId
    ensures p.position == 0 && p.condition == RacingEngine.InitialCondition
    ensures p.mode == RacingEngine.NormalMode && !p.won && !p.gameOver
    ensures p.rollCount == 0 && p.finishedAt == None
  {
    Participant(venueId, userId, 0, 6, "normal", false, false, 0, None)
  }

  /** The unique key of the rounds table: one round per venue and round number. */
  function RoundKey(r: VenueRound): (int, int) { (r.venueId, r.roundNumber) }

  /** The unique key of the results table: one result per venue, round number and user. */
  function ResultKey(r: VenueRoundResult): (int, int, int) { (r.venueId, r.roundNumber, r.userId) }

  /** No two rows of `rows` share a key. */
  ghost predicate UniqueBy<R, K>(rows: seq<R>, key: R -> K)
  {
    forall i, j :: 0 <= i < j < |rows| ==> key(rows[i]) != key(rows[j])
  }

  /** Some row of `rows` has the key `k`. */
  predicate HasKey<R, K(==)>(rows: seq<R>, key: R -> K, k: K)
  {
    exists i :: 0 <= i < |rows| && key(rows[i]) == k
  }

  /**
   * Inserting a row into a table with a unique key: the database refuses a
   * row whose key is already present (None) and otherwise appends it, so a
   * table that starts without duplicate keys never gets one.
   */
  function InsertUnique<R, K(==)>(rows: seq<R>, row: R, key: R -> K): (r: Option<seq<R>>)
    ensures r.None? <==> HasKey(rows, key, key(row))
    ensures r.Some? ==> r.value == rows + [row]
    ensures r.Some? && UniqueBy(rows, key) ==> UniqueBy(r.value, key)
  {
    if HasKey(rows, key, key(row)) then None else Some(rows + [row])
  }

  /** Inserting a round keeps at most one round per venue and round number. */
  lemma {:induction false} InsertRoundKeepsUnique(rounds: seq<VenueRound>, r: VenueRound)
    requires UniqueBy(rounds, RoundKey)
    ensures var t := InsertUnique(rounds, r, RoundKey);
      && (t.None? <==> exists i :: 0 <= i < |rounds| && rounds[i].venueId == r.venueId && rounds[i].roundNumber == r.roundNumber)
      && (t.Some? ==> UniqueBy(t.value, RoundKey))
  {
    var t := InsertUnique(rounds, r, RoundKey);
    if t.None? {
      var i :| 0 <= i < |rounds| && RoundKey(rounds[i]) == RoundKey(r);
      assert rounds[i].venueId == r.venueId && rounds[i].roundNumber == r.roundNumber;
    }
  }

  /** Inserting a result keeps at most one result per venue, round number and user. */
  lemma {:induction false} InsertResultKeepsUnique(results: seq<VenueRoundResult>, r: VenueRoundResult)
    requires UniqueBy(results, ResultKey)
    ensures var t := InsertUnique(results, r, ResultKey);
      && (t.None? <==> exists i :: 0 <= i < |results| && results[i].venueId == r.venueId
                                 && results[i].roundNumber == r.roundNumber && results[i].userId == r.userId)
      && (t.Some? ==> UniqueBy(t.value, ResultKey))
  {
    var t := InsertUnique(results, r, ResultKey);
    if t.None? {
      var i :| 0 <= i < |results| && ResultKey(results[i]) == ResultKey(r);
      assert results[i].venueId == r.venueId && results[i].roundNumber == r.roundNumber && results[i].userId == r.userId;
    }
  }
}
