/**
 * The venue endpoints: list and create venues, enter a venue, read a venue
 * with its racers, and roll the dice. A venue store holds the venues table
 * and the participants table; each endpoint is one atomic method call.
 * The dice value is an input (the server draws it uniformly from 1..6) and
 * the calling user comes already authenticated (see Auth.CurrentUser).
 */
module Venues {
  import opened Results
  import opened VenueModels
  import RacingEngine
  import Auth

  /** The errors of the venue endpoints, with the HTTP status each one answers. */
  datatype VenueError =
    | VenueNotFound   // 404 "Venue not found"
    | NotInVenue      // 403 "Not in this venue; enter first"
    | AlreadyWon      // 400 "Already won"
    | GameOver        // 400 "Game over"

  /** One entry of the venue list. */
  datatype VenueItem = VenueItem(id: int, name: string)

  /** What entering a venue answers. */
  datatype EnterResponse = EnterResponse(status: string, venueId: int)

  /** One racer as the venue detail shows it. */
  datatype ParticipantState = ParticipantState(
    userId: int, username: string, position: int, condition: int,
    mode: string, won: bool, gameOver: bool)

  /** The venue detail: the venue and every racer in it (the source lists them in no set order). */
  datatype VenueDetail = VenueDetail(id: int, name: string, participants: set<ParticipantState>)

  /** What a roll answers. */
  datatype RollResponse = RollResponse(
    dice: int, steps: int, newPosition: int, newCondition: int, won: bool, gameOver: bool)

  /** A participant row is found by venue id and user id. */
  type Key = (int, int)

  function ItemOf(v: Venue): VenueItem { VenueItem(v.id, v.name) }

  /** One racer's state as the venue detail reports it; `id` is the join key of row and user. */
  function StateOf(id: int, p: Participant, u: Auth.User): ParticipantState
  {
    ParticipantState(id, u.username, p.position, p.condition, p.mode, p.won, p.gameOver)
  }

  /** Some venue of `vs` has id `id`. */
  predicate HasVenue(vs: seq<Venue>, id: int)
  {
    exists i :: 0 <= i < |vs| && vs[i].id == id
  }

  /** Venue ids increase along the table, as an autoincrement key assigns them. */
  ghost predicate IdsIncreasing(vs: seq<Venue>)
  {
    forall i, j :: 0 <= i < j < |vs| ==> vs[i].id < vs[j].id
  }

  /**
   * The venue with this id, or 404: the first row of the table with a
   * matching id, and an error exactly when no row matches.
   */
  function GetVenueOr404(vs: seq<Venue>, id: int): (r: Result<Venue, VenueError>)
    ensures r.Err? <==> !HasVenue(vs, id)
    ensures r.Err? ==> r.error == VenueNotFound
    ensures r.Ok? ==> r.value.id == id
    ensures r.Ok? ==> exists i :: 0 <= i < |vs| && vs[i] == r.value && forall j :: 0 <= j < i ==> vs[j].id != id
  {
    if vs == [] then Err(VenueNotFound)
    else if vs[0].id == id then Ok(vs[0])
    else
      var r := GetVenueOr404(vs[1..], id);
      assert r.Ok? ==> exists i :: 0 <= i < |vs| && vs[i] == r.value && forall j :: 0 <= j < i ==> vs[j].id != id by {
        if r.Ok? {
          var k :| 0 <= k < |vs| - 1 && vs[1..][k] == r.value && forall j :: 0 <= j < k ==> vs[1..][j].id != id;
          assert vs[k + 1] == r.value;
          assert forall j :: 0 <= j < k + 1 ==> vs[j].id != id by {
            forall j | 0 <= j < k + 1 ensures vs[j].id != id {
              if j > 0 { assert vs[j] == vs[1..][j - 1]; }
            }
          }
        }
      }
      r
  }

  /** The requested mode, kept only when it is one the game knows; otherwise normal. */
  function NormaliseMode(requested: string): (mode: string)
    ensures mode == RacingEngine.NormalMode || mode == RacingEngine.SuperMode
    ensures mode == RacingEngine.SuperMode <==> requested == RacingEngine.SuperMode
    ensures requested == RacingEngine.NormalMode || requested == RacingEngine.SuperMode ==> mode == requested
  {
    RacingEngine.ModesDistinct();
    if requested == RacingEngine.NormalMode || requested == RacingEngine.SuperMode then requested
    else RacingEngine.NormalMode
  }

  /** A racer has finished once it has won or run out of condition; it may not roll again. */
  predicate Finished(p: Participant) { p.won || p.gameOver }

  /**
   * What every participant row satisfies between requests: a known mode, a
   * position that never went below the start, a condition never above the
   * initial one, `won` exactly when the finish line is reached, `gameOver`
   * exactly when not won and out of condition, and the roll counter and
   * finishing time still at their defaults (no endpoint in backend/routers
   * writes them).
   */
  predicate Consistent(p: Participant)
  {
    && (p.mode == RacingEngine.NormalMode || p.mode == RacingEngine.SuperMode)
    && p.position >= 0
    && p.condition <= RacingEngine.InitialCondition
    && (p.won <==> p.position >= RacingEngine.TrackLength)
    && (p.gameOver <==> !p.won && p.condition <= 0)
    && p.rollCount == 0
    && p.finishedAt == None
  }

  /** The row a roll writes: the engine's new position, condition and outcome, and the mode used. */
  function ApplyRoll(p: Participant, mode: string, dice: int): (q: Participant)
    ensures var r := RacingEngine.Roll(p.position, p.condition, mode, dice);
      && q.position == r.newPosition && q.condition == r.newCondition
      && q.won == r.won && q.gameOver == r.gameOver
      && q.mode == mode
    ensures q.venueId == p.venueId && q.userId == p.userId
    ensures q.rollCount == p.rollCount && q.finishedAt == p.finishedAt
  {
    var r := RacingEngine.Roll(p.position, p.condition, mode, dice);
    p.(position := r.newPosition, condition := r.newCondition, mode := mode, won := r.won, gameOver := r.gameOver)
  }

  /** What a roll answers: the dice drawn and the engine's result for it. */
  function ResponseOf(p: Participant, mode: string, dice: int): (resp: RollResponse)
    ensures var r := RacingEngine.Roll(p.position, p.condition, mode, dice);
      && resp.dice == dice && resp.steps == r.steps
      && resp.newPosition == r.newPosition && resp.newCondition == r.newCondition
      && resp.won == r.won && resp.gameOver == r.gameOver
    ensures resp.newPosition == ApplyRoll(p, mode, dice).position
    ensures resp.newCondition == ApplyRoll(p, mode, dice).condition
    ensures resp.won == ApplyRoll(p, mode, dice).won && resp.gameOver == ApplyRoll(p, mode, dice).gameOver
  {
    var r := RacingEngine.Roll(p.position, p.condition, mode, dice);
    RollResponse(dice, r.steps, r.newPosition, r.newCondition, r.won, r.gameOver)
  }

  /** A fresh participant row satisfies the invariant. */
  lemma NewParticipantConsistent(venueId: int, userId: int)
    ensures Consistent(NewParticipant(venueId, userId))
    ensures !Finished(NewParticipant(venueId, userId))
  {
  }

  /**
   * A roll accepted for an unfinished racer keeps the invariant, moves the
   * racer at least one step forward, and touches only the roll's fields.
   */
  lemma ApplyRollKeepsConsistent(p: Participant, mode: string, dice: int)
    requires Consistent(p) && !Finished(p)
    requires mode == RacingEngine.NormalMode || mode == RacingEngine.SuperMode
    requires 1 <= dice <= 6
    ensures Consistent(ApplyRoll(p, mode, dice))
    ensures ApplyRoll(p, mode, dice).position >= p.position + 1
    ensures !(ApplyRoll(p, mode, dice).won && ApplyRoll(p, mode, dice).gameOver)
    ensures var q := ApplyRoll(p, mode, dice);
      q.venueId == p.venueId && q.userId == p.userId && q.rollCount == p.rollCount && q.finishedAt == p.finishedAt
  {
    RacingEngine.RollMakesProgress(p.position, p.condition, mode, dice);
  }

  /** One roll request of a racer: the mode asked for and the dice the server drew. */
  datatype Throw = Throw(mode: string, dice: int)

  /**
   * A racer's row after a series of roll requests, or None when a request
   * in the series comes after the racer finished (the endpoint refuses it).
   */
  function Play(p: Participant, ts: seq<Throw>): Option<Participant>
    decreases |ts|
  {
    if ts == [] then Some(p)
    else if Finished(p) then None
    else Play(ApplyRoll(p, NormaliseMode(ts[0].mode), ts[0].dice), ts[1..])
  }

  /**
   * Every race ends: a series of accepted rolls from a consistent row keeps
   * the row consistent, advances at least one step per roll, and is no longer
   * than the distance left to the finish line.
   */
  lemma {:induction false} PlayIsBounded(p: Participant, ts: seq<Throw>)
    requires Consistent(p)
    requires forall i :: 0 <= i < |ts| ==> 1 <= ts[i].dice <= 6
    requires Play(p, ts).Some?
    ensures Consistent(Play(p, ts).value)
    ensures Play(p, ts).value.position >= p.position + |ts|
    ensures ts != [] ==> |ts| <= RacingEngine.TrackLength - p.position
    decreases |ts|
  {
    if ts != [] {
      var q := ApplyRoll(p, NormaliseMode(ts[0].mode), ts[0].dice);
      ApplyRollKeepsConsistent(p, NormaliseMode(ts[0].mode), ts[0].dice);
      assert forall i :: 0 <= i < |ts[1..]| ==> ts[1..][i] == ts[i + 1];
      PlayIsBounded(q, ts[1..]);
    }
  }

  /** From the starting line, a racer gets at most 22 accepted rolls. */
  lemma RaceEndsWithinTrackLength(venueId: int, userId: int, ts: seq<Throw>)
    requires forall i :: 0 <= i < |ts| ==> 1 <= ts[i].dice <= 6
    requires Play(NewParticipant(venueId, userId), ts).Some?
    ensures |ts| <= RacingEngine.TrackLength
    ensures !(Play(NewParticipant(venueId, userId), ts).value.won && Play(NewParticipant(venueId, userId), ts).value.gameOver)
  {
    PlayIsBounded(NewParticipant(venueId, userId), ts);
  }

  /** The venues table (in id order) and the participants table, keyed by their unique pair. */
  class VenueStore {
    var venues: seq<Venue>
    var nextVenueId: int
    var participants: map<Key, Participant>

    /**
     * Venue ids are increasing and below the next id; a participant row sits
     * under its own (venue, user) key, belongs to an existing venue, and is
     * consistent.
     */
    ghost predicate Valid()
      reads this
    {
      && nextVenueId >= 1
      && IdsIncreasing(venues)
      && (forall i :: 0 <= i < |venues| ==> 1 <= venues[i].id < nextVenueId)
      && (forall k :: k in participants ==>
            && participants[k].venueId == k.0
            && participants[k].userId == k.1
            && HasVenue(venues, k.0)
            && Consistent(participants[k]))
    }

    constructor ()
      ensures Valid()
      ensures venues == [] && participants == map[] && nextVenueId == 1
    {
      venues := [];
      nextVenueId := 1;
      participants := map[];
    }

    /** `GET /venues`: every venue, in increasing id order. */
    method ListVenues() returns (items: seq<VenueItem>)
      requires Valid()
      ensures |items| == |venues|
      ensures forall i :: 0 <= i < |items| ==> items[i].id == venues[i].id && items[i].name == venues[i].name
      ensures forall i, j :: 0 <= i < j < |items| ==> items[i].id < items[j].id
    {
      items := [];
      var i := 0;
      while i < |venues|
        invariant 0 <= i <= |venues|
        invariant |items| == i
        invariant forall j :: 0 <= j < i ==> items[j] == ItemOf(venues[j])
      {
        items := items + [ItemOf(venues[i])];
        i := i + 1;
      }
    }

    /** `POST /venues`: a new venue with the next id, the given name and round 1. */
    method CreateVenue(name: string) returns (item: VenueItem)
      requires Valid()
      modifies this`venues, this`nextVenueId
      ensures Valid()
      ensures item == VenueItem(old(nextVenueId), name)
      ensures !HasVenue(old(venues), old(nextVenueId))
      ensures venues == old(venues) + [NewVenue(old(nextVenueId), name)]
      ensures nextVenueId == old(nextVenueId) + 1
    {
      var v := NewVenue(nextVenueId, name);
      ghost var before := venues;
      venues := venues + [v];
      nextVenueId := nextVenueId + 1;
      forall k | k in participants ensures HasVenue(venues, k.0) {
        var i :| 0 <= i < |before| && before[i].id == k.0;
        assert venues[i] == before[i];
      }
      item := ItemOf(v);
    }

    /**
     * Join: the caller's row in the venue, created on the starting line when
     * there is none; an existing row is returned as it is.
     */
    method EnsureParticipant(venueId: int, userId: int) returns (p: Participant)
      requires Valid() && HasVenue(venues, venueId)
      modifies this`participants
      ensures Valid()
      ensures (venueId, userId) in old(participants) ==>
        p == old(participants)[(venueId, userId)] && participants == old(participants)
      ensures (venueId, userId) !in old(participants) ==>
        p == NewParticipant(venueId, userId) && participants == old(participants)[(venueId, userId) := p]
      ensures participants[(venueId, userId)] == p
    {
      if (venueId, userId) in participants {
        p := participants[(venueId, userId)];
      } else {
        p := NewParticipant(venueId, userId);
        NewParticipantConsistent(venueId, userId);
        participants := participants[(venueId, userId) := p];
      }
    }

    /**
     * `POST /venues/{id}/enter`: 404 for a missing venue (nothing changes);
     * otherwise the caller joins, which changes nothing when already joined.
     */
    method EnterVenue(venueId: int, user: Auth.User) returns (r: Result<EnterResponse, VenueError>)
      requires Valid()
      modifies this`participants
      ensures Valid()
      ensures r.Err? <==> !HasVenue(venues, venueId)
      ensures r.Err? ==> r.error == VenueNotFound && participants == old(participants)
      ensures r.Ok? ==> r.value == EnterResponse("ok", venueId)
      ensures r.Ok? && (venueId, user.id) in old(participants) ==> participants == old(participants)
      ensures r.Ok? && (venueId, user.id) !in old(participants) ==>
        participants == old(participants)[(venueId, user.id) := NewParticipant(venueId, user.id)]
    {
      var v := GetVenueOr404(venues, venueId);
      if v.Err? {
        return Err(v.error);
      }
      var _ := EnsureParticipant(venueId, user.id);
      r := Ok(EnterResponse("ok", venueId));
    }

    /**
     * `GET /venues/{id}`: 404 for a missing venue, 403 when the caller has no
     * row there, and otherwise the venue with every racer of it whose user row
     * exists (the participants-to-users join).
     */
    method GetVenue(venueId: int, user: Auth.User, users: Auth.UserTable) returns (r: Result<VenueDetail, VenueError>)
      ensures !HasVenue(venues, venueId) ==> r == Err(VenueNotFound)
      ensures HasVenue(venues, venueId) && (venueId, user.id) !in participants ==> r == Err(NotInVenue)
      ensures HasVenue(venues, venueId) && (venueId, user.id) in participants ==> r.Ok?
      ensures r.Ok? ==> r.value.id == venueId
      ensures r.Ok? ==> exists i :: 0 <= i < |venues| && venues[i].id == venueId && venues[i].name == r.value.name
      ensures r.Ok? ==> forall id :: id in users && (venueId, id) in participants ==>
        StateOf(id, participants[(venueId, id)], users[id]) in r.value.participants
      ensures r.Ok? ==> forall s :: s in r.value.participants ==>
        exists id :: id in users && (venueId, id) in participants && s == StateOf(id, participants[(venueId, id)], users[id])
    {
      var v := GetVenueOr404(venues, venueId);
      if v.Err? {
        return Err(v.error);
      }
      if (venueId, user.id) !in participants {
        return Err(NotInVenue);
      }
      var states := set id | id in users && (venueId, id) in participants :: StateOf(id, participants[(venueId, id)], users[id]);
      r := Ok(VenueDetail(venueId, v.value.name, states));
    }

    /**
     * `POST /venues/{id}/roll`: the guards in order (404 missing venue, 403
     * not joined, 400 already won, 400 game over), each leaving every row as
     * it was; then the requested mode is normalised and the engine's result
     * for the drawn dice is written into the caller's row only, and answered.
     */
    method RollDice(venueId: int, user: Auth.User, requestedMode: string, dice: int)
      returns (r: Result<RollResponse, VenueError>)
      requires Valid()
      requires 1 <= dice <= 6
      modifies this`participants
      ensures Valid()
      ensures !HasVenue(venues, venueId) ==> r == Err(VenueNotFound)
      ensures HasVenue(venues, venueId) && (venueId, user.id) !in old(participants) ==> r == Err(NotInVenue)
      ensures HasVenue(venues, venueId) && (venueId, user.id) in old(participants) ==>
        && (old(participants)[(venueId, user.id)].won ==> r == Err(AlreadyWon))
        && (!old(participants)[(venueId, user.id)].won && old(participants)[(venueId, user.id)].gameOver ==> r == Err(GameOver))
        && (!Finished(old(participants)[(venueId, user.id)]) ==> r.Ok?)
      ensures r.Err? ==> participants == old(participants)
      ensures r.Ok? ==>
        && (venueId, user.id) in old(participants)
        && participants == old(participants)[(venueId, user.id) :=
             ApplyRoll(old(participants)[(venueId, user.id)], NormaliseMode(requestedMode), dice)]
        && r.value == ResponseOf(old(participants)[(venueId, user.id)], NormaliseMode(requestedMode), dice)
      ensures r.Ok? ==>
        var p := participants[(venueId, user.id)];
        && r.value.dice == dice
        && p.position == r.value.newPosition && p.condition == r.value.newCondition
        && p.won == r.value.won && p.gameOver == r.value.gameOver
        && p.mode == NormaliseMode(requestedMode)
        && !(p.won && p.gameOver)
      ensures r.Ok? ==> forall k :: k in old(participants) && k != (venueId, user.id) ==>
        k in participants && participants[k] == old(participants)[k]
    {
      var v := GetVenueOr404(venues, venueId);
      if v.Err? {
        return Err(v.error);
      }
      var key := (venueId, user.id);
      if key !in participants {
        return Err(NotInVenue);
      }
      var p := participants[key];
      if p.won {
        return Err(AlreadyWon);
      }
      if p.gameOver {
        return Err(GameOver);
      }
      var mode := NormaliseMode(requestedMode);
      ApplyRollKeepsConsistent(p, mode, dice);
      participants := participants[key := ApplyRoll(p, mode, dice)];
      r := Ok(ResponseOf(p, mode, dice));
    }
  }

  /**
   * A newly created venue, entered by one user who then rolls once in normal
   * mode: the roll moves 1 or 2 steps, keeps full condition and neither wins
   * nor ends the game, and the venue detail shows the racer at the new
   * position with full condition.
   */
  method FirstRollScenario(name: string, user: Auth.User, users: Auth.UserTable, dice: int)
      returns (roll: Result<RollResponse, VenueError>, detail: Result<VenueDetail, VenueError>)
    requires 1 <= dice <= 6
    requires user.id in users && users[user.id] == user
    ensures roll.Ok?
    ensures roll.value.steps == 1 || roll.value.steps == 2
    ensures roll.value.newPosition == roll.value.steps
    ensures roll.value.newCondition == RacingEngine.InitialCondition
    ensures !roll.value.won && !roll.value.gameOver
    ensures detail.Ok?
    ensures StateOf(user.id, Participant(detail.value.id, user.id, roll.value.newPosition, RacingEngine.InitialCondition,
                                RacingEngine.NormalMode, false, false, 0, None), user) in detail.value.participants
  {
    var store := new VenueStore();
    var item := store.CreateVenue(name);
    assert HasVenue(store.venues, item.id) by {
      assert store.venues[|store.venues| - 1].id == item.id;
    }
    var entered := store.EnterVenue(item.id, user);
    roll := store.RollDice(item.id, user, RacingEngine.NormalMode, dice);
    RacingEngine.FirstNormalRoll(dice);
    detail := store.GetVenue(item.id, user, users);
  }
}
