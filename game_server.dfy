/** The authoritative match coordinator of the game server: a four-phase
    state machine (Waiting, Countdown, Playing, Finished) over a player
    registry keyed by socket id.

    The server runs on a single-threaded event loop, so every socket
    handler and every timer firing runs to completion on its own; each
    one is a method of `Coordinator`. A pending timer is a field (two
    interval flags and a count of scheduled resets), and a firing of that
    timer is a method that may only be called while it is pending.
    Broadcasting to every socket (`io.emit`) appends to `log`. */
module GameServer {
  import opened Common

  const MATCH_TIME := 120
  const COUNTDOWN_TIME := 20
  /** Seconds between `match_over` and the reset it schedules; the delay
      itself is the environment's business (see `Coordinator.ResetFires`). */
  const RESET_DELAY := 10
  const FINISH_SCORE := 10000
  const DEFAULT_NAME := "Unknown"
  const DEFAULT_CHARACTER := "blacky"

  type SocketId = string

  datatype Phase = Waiting | Countdown | Playing | Finished

  /** One registry entry; `id` is the socket id it is stored under. */
  datatype Player = Player(id: SocketId, username: string, character: string,
                           x: int, y: int, score: int, dead: bool)

  /** The payload of `player_join`; every field may be missing. */
  datatype JoinData = JoinData(username: Option<string>, character: Option<string>,
                               x: Option<int>, y: Option<int>)

  /** Everything the server broadcasts to all sockets. */
  datatype Message =
    | PlayersState(snapshot: seq<Player>)
    | CountdownAt(count: int)
    | MatchStart
    | MatchTime(remaining: int)
    | MatchOver(winnerName: string, winnerCharacter: string, winnerScore: int)
    | MatchReset

  // ---------------------------------------------------------------------
  // The registry as a JavaScript object: keys in insertion order
  // ---------------------------------------------------------------------

  /** `order` lists the registry's keys in insertion order, each once, and
      every entry records the key it is stored under. */
  ghost predicate RegistryOk(order: seq<SocketId>, players: map<SocketId, Player>)
  {
    && NoRepeats(order)
    && (forall i | 0 <= i < |order| :: order[i] in players)
    && (forall k :: k in players <==> k in order)
    && (forall k | k in players :: players[k].id == k)
  }

  /** How the phase, the counters and the scheduled intervals fit together.
      The countdown interval may still be running after the match has
      finished (finishMatch cancels only the match interval). */
  ghost predicate TimersOk(phase: Phase, countdown: int, timeLeft: int,
                           countdownTimer: bool, matchTimer: bool, noPlayers: bool)
  {
    && (countdownTimer ==>
          && !matchTimer && (phase == Countdown || phase == Finished)
          && 0 <= countdown <= COUNTDOWN_TIME && timeLeft == MATCH_TIME)
    && (matchTimer ==> phase == Playing && 0 <= timeLeft <= MATCH_TIME)
    && (phase == Countdown ==> countdownTimer)
    && (phase == Playing ==> matchTimer)
    && (phase == Waiting ==>
          && noPlayers && countdown == COUNTDOWN_TIME && timeLeft == MATCH_TIME
          && !countdownTimer && !matchTimer)
  }

  /** Finishing is allowed from every phase: it cancels the match interval
      and leaves a countdown interval running. */
  lemma FinishKeepsTimers(phase: Phase, countdown: int, timeLeft: int,
                          countdownTimer: bool, matchTimer: bool, noPlayers: bool)
    requires TimersOk(phase, countdown, timeLeft, countdownTimer, matchTimer, noPlayers)
    ensures TimersOk(Finished, countdown, timeLeft, countdownTimer, false, noPlayers)
  {
  }

  /** A join outside Finished leaves a player registered, and from Waiting
      it starts the countdown interval. */
  lemma JoinKeepsTimers(phase: Phase, countdown: int, timeLeft: int,
                        countdownTimer: bool, matchTimer: bool, noPlayers: bool)
    requires TimersOk(phase, countdown, timeLeft, countdownTimer, matchTimer, noPlayers)
    requires phase != Finished
    ensures TimersOk(if phase == Waiting then Countdown else phase, countdown, timeLeft,
                     countdownTimer || phase == Waiting, matchTimer, false)
  {
  }

  /** `Object.values(players)`: the entries in key order. */
  function Values(order: seq<SocketId>, players: map<SocketId, Player>): (ps: seq<Player>)
    requires forall i | 0 <= i < |order| :: order[i] in players
    ensures |ps| == |order|
    ensures forall i | 0 <= i < |order| :: ps[i] == players[order[i]]
  {
    seq(|order|, i requires 0 <= i < |order| => players[order[i]])
  }

  /** `order` with `x` taken out (what `delete players[x]` does to the keys). */
  function Without(order: seq<SocketId>, x: SocketId): seq<SocketId>
  {
    if order == [] then []
    else (if order[0] == x then [] else [order[0]]) + Without(order[1..], x)
  }

  /** No key occurs twice in `order`. */
  ghost predicate NoRepeats(order: seq<SocketId>)
  {
    order == [] || (order[0] !in order[1..] && NoRepeats(order[1..]))
  }

  lemma {:induction false} WithoutKeepsOthers(order: seq<SocketId>, x: SocketId)
    ensures forall k :: k in Without(order, x) <==> k in order && k != x
  {
    if order != [] {
      WithoutKeepsOthers(order[1..], x);
      assert order == [order[0]] + order[1..];
    }
  }

  lemma {:induction false} WithoutNoRepeats(order: seq<SocketId>, x: SocketId)
    requires NoRepeats(order)
    ensures NoRepeats(Without(order, x))
  {
    if order != [] {
      WithoutNoRepeats(order[1..], x);
      WithoutKeepsOthers(order[1..], x);
      var w := Without(order, x);
      if order[0] != x {
        assert w[0] == order[0] && w[1..] == Without(order[1..], x);
        assert order[0] !in w[1..];
      } else {
        assert w == Without(order[1..], x);
      }
    }
  }

  lemma {:induction false} AppendNoRepeats(order: seq<SocketId>, x: SocketId)
    requires NoRepeats(order) && x !in order
    ensures NoRepeats(order + [x])
  {
    if order != [] {
      assert (order + [x])[1..] == order[1..] + [x];
      AppendNoRepeats(order[1..], x);
    }
  }

  /** Removing a key keeps the registry well formed. */
  lemma RemoveKeepsRegistry(order: seq<SocketId>, players: map<SocketId, Player>, x: SocketId)
    requires RegistryOk(order, players)
    ensures RegistryOk(Without(order, x), players - {x})
  {
    WithoutKeepsOthers(order, x);
    WithoutNoRepeats(order, x);
  }

  /** Overwriting an entry under its own id keeps the registry well formed. */
  lemma PutKeepsRegistry(order: seq<SocketId>, players: map<SocketId, Player>, p: Player)
    requires RegistryOk(order, players) && p.id in players
    ensures RegistryOk(order, players[p.id := p])
  {
  }

  /** A new key goes to the end of the key list. */
  lemma AddKeepsRegistry(order: seq<SocketId>, players: map<SocketId, Player>, p: Player)
    requires RegistryOk(order, players) && p.id !in players
    ensures RegistryOk(order + [p.id], players[p.id := p])
  {
    AppendNoRepeats(order, p.id);
  }

  /** A duplicate-free key list has as many distinct keys as entries. */
  lemma {:induction false} NoRepeatsCount(order: seq<SocketId>)
    requires NoRepeats(order)
    ensures |set k | k in order| == |order|
  {
    if order != [] {
      NoRepeatsCount(order[1..]);
      assert order == [order[0]] + order[1..];
      assert (set k | k in order) == {order[0]} + (set k | k in order[1..]);
    }
  }

  /** What `Object.values(players)` gives a caller: exactly one entry per
      registered player — as many entries as players, every player listed,
      and nothing listed that is not a registered player. */
  lemma ValuesListsRegistry(order: seq<SocketId>, players: map<SocketId, Player>)
    requires RegistryOk(order, players)
    ensures var ps := Values(order, players);
      && |ps| == |players|
      && (forall id | id in players :: players[id] in ps)
      && (forall i | 0 <= i < |ps| :: ps[i].id in players && players[ps[i].id] == ps[i])
  {
    var ps := Values(order, players);
    NoRepeatsCount(order);
    assert players.Keys == set k | k in order;
    forall id | id in players
      ensures players[id] in ps
    {
      var i :| 0 <= i < |order| && order[i] == id;
      assert ps[i] == players[id];
    }
  }

  /** The key list is empty exactly when the registry is. */
  lemma EmptyRegistry(order: seq<SocketId>, players: map<SocketId, Player>)
    requires RegistryOk(order, players)
    ensures order == [] <==> players == map[]
  {
    if order != [] {
      assert order[0] in players;
    }
  }

  // ---------------------------------------------------------------------
  // Winner selection (the fold in finishMatch)
  // ---------------------------------------------------------------------

  /** The score of the incumbent; -1 before any player has been taken. */
  function LeadScore(w: Option<Player>): int
  {
    if w.Some? then w.value.score else -1
  }

  /** The `forEach` fold over the entries: a later player replaces the
      incumbent only with a strictly greater score. */
  function Leader(ps: seq<Player>): Option<Player>
  {
    if ps == [] then None
    else
      var prev := Leader(ps[..|ps| - 1]);
      if ps[|ps| - 1].score > LeadScore(prev) then Some(ps[|ps| - 1]) else prev
  }

  /** `ps[k]` has a score above -1 that no entry beats, and every earlier
      entry scores strictly less. */
  ghost predicate FirstHighest(ps: seq<Player>, k: int)
  {
    && 0 <= k < |ps|
    && ps[k].score > -1
    && (forall i | 0 <= i < |ps| :: ps[i].score <= ps[k].score)
    && (forall i | 0 <= i < k :: ps[i].score < ps[k].score)
  }

  /** The fold picks the first entry with the strictly greatest score, and
      picks nobody exactly when no score exceeds -1 (in particular for an
      empty registry). */
  lemma {:induction false} LeaderIsFirstHighest(ps: seq<Player>)
    ensures Leader(ps).None? <==> (forall i | 0 <= i < |ps| :: ps[i].score <= -1)
    ensures Leader(ps).Some? ==> exists k :: FirstHighest(ps, k) && Leader(ps).value == ps[k]
  {
    if ps != [] {
      var n := |ps| - 1;
      var front := ps[..n];
      LeaderIsFirstHighest(front);
      assert forall i | 0 <= i < n :: front[i] == ps[i];
      var prev := Leader(front);
      if ps[n].score > LeadScore(prev) {
        if prev.Some? {
          var k :| FirstHighest(front, k) && prev.value == front[k];
        }
        assert FirstHighest(ps, n);
      } else if prev.Some? {
        var k :| FirstHighest(front, k) && prev.value == front[k];
        assert FirstHighest(ps, k);
      }
    }
  }

  /** The `match_over` message for the chosen winner and score. */
  function Announcement(w: Option<Player>, score: int): Message
  {
    MatchOver(if w.Some? && w.value.username != "" then w.value.username else DEFAULT_NAME,
              if w.Some? && w.value.character != "" then w.value.character else DEFAULT_CHARACTER,
              score)
  }

  /** Whether `finishMatch(forced)` honours its forced-winner key: the key
      must be truthy and name a registry entry. */
  predicate ForcedApplies(forced: Option<SocketId>, players: map<SocketId, Player>)
  {
    forced.Some? && forced.value != "" && forced.value in players
  }

  /** The announcement `finishMatch(forced)` broadcasts. */
  function MatchOutcome(forced: Option<SocketId>, order: seq<SocketId>,
                        players: map<SocketId, Player>): Message
    requires RegistryOk(order, players)
  {
    if ForcedApplies(forced, players) then
      Announcement(Some(players[forced.value]), players[forced.value].score)
    else
      var w := Leader(Values(order, players));
      Announcement(w, LeadScore(w))
  }

  /** What the announcement promises: a forced winner is announced with its
      own score whatever the others scored; otherwise the announced score is
      at least every registered score, and it is -1 with the default name
      and character exactly when no registered score exceeds -1. */
  lemma MatchOutcomeSpec(forced: Option<SocketId>, order: seq<SocketId>,
                         players: map<SocketId, Player>)
    requires RegistryOk(order, players)
    ensures ForcedApplies(forced, players) ==>
      MatchOutcome(forced, order, players).winnerScore == players[forced.value].score
    ensures !ForcedApplies(forced, players) ==>
      forall k | k in players :: players[k].score <= MatchOutcome(forced, order, players).winnerScore
    ensures !ForcedApplies(forced, players) ==>
      (MatchOutcome(forced, order, players) == MatchOver(DEFAULT_NAME, DEFAULT_CHARACTER, -1)
       <==> forall k | k in players :: players[k].score <= -1)
  {
    if !ForcedApplies(forced, players) {
      var ps := Values(order, players);
      LeaderIsFirstHighest(ps);
      forall k | k in players ensures players[k].score <= LeadScore(Leader(ps)) {
        var i :| 0 <= i < |order| && order[i] == k;
        assert ps[i] == players[k];
      }
      if forall k | k in players :: players[k].score <= -1 {
        forall i | 0 <= i < |ps| ensures ps[i].score <= -1 {
          assert order[i] in players;
        }
      }
    }
  }

  /** The finish-threshold path passes the player's character, not its
      socket id, as the forced-winner key. With two players "a" (character
      "blacky", crossing the threshold at 10000) and "b" (character "pinky",
      already at 12000), the announcement names "b", not "a". */
  lemma CharacterKeyIsNotHonoured()
    ensures var a := Player("a", "Ann", "blacky", 0, 0, 10000, false);
            var b := Player("b", "Bob", "pinky", 0, 0, 12000, false);
            var players := map["a" := a, "b" := b];
            !ForcedApplies(Some(a.character), players)
            && MatchOutcome(Some(a.character), ["a", "b"], players) == MatchOver("Bob", "pinky", 12000)
            && MatchOutcome(Some(a.id), ["a", "b"], players) == MatchOver("Ann", "blacky", 10000)
  {
    var a := Player("a", "Ann", "blacky", 0, 0, 10000, false);
    var b := Player("b", "Bob", "pinky", 0, 0, 12000, false);
    var players := map["a" := a, "b" := b];
    var ps := Values(["a", "b"], players);
    assert ps == [a, b];
    assert [a, b][..1] == [a] && [a][..0] == [];
    assert Leader([a]) == Some(a);
    assert Leader(ps) == Some(b);
  }

  /** The fold of `finishMatch`, run as the source runs it. */
  method PickWinner(forced: Option<SocketId>, order: seq<SocketId>,
                    players: map<SocketId, Player>) returns (m: Message)
    requires RegistryOk(order, players)
    ensures m == MatchOutcome(forced, order, players)
  {
    var finalWinner: Option<Player> := None;
    var finalScore := -1;
    if ForcedApplies(forced, players) {
      finalWinner := Some(players[forced.value]);
      finalScore := players[forced.value].score;
    } else {
      var ps := Values(order, players);
      var i := 0;
      while i < |ps|
        invariant 0 <= i <= |ps|
        invariant finalWinner == Leader(ps[..i])
        invariant finalScore == LeadScore(finalWinner)
      {
        assert ps[..i + 1][..i] == ps[..i];
        if ps[i].score > finalScore {
          finalScore := ps[i].score;
          finalWinner := Some(ps[i]);
        }
        i := i + 1;
      }
      assert ps[..|ps|] == ps;
    }
    m := Announcement(finalWinner, finalScore);
  }

  /** The entry `player_join` writes: score 0, alive, defaults for what is missing. */
  function Joined(sid: SocketId, data: JoinData): Player
  {
    Player(sid, OrDefault(data.username, DEFAULT_NAME), OrDefault(data.character, DEFAULT_CHARACTER),
           OrZero(data.x), OrZero(data.y), 0, false)
  }

  /** `Object.values(players).every(p => p.dead)`. */
  predicate AllDead(players: map<SocketId, Player>)
  {
    forall k | k in players :: players[k].dead
  }

  /** The countdown broadcasts of a countdown run starting at `from`:
      `from`, `from - 1`, ..., 0. */
  function CountdownTicks(from: nat): seq<Message>
  {
    seq(from + 1, i => CountdownAt(from - i))
  }

  /** The match-time broadcasts of a match run starting at `from`:
      `from`, `from - 1`, ..., 0. */
  function MatchTimeTicks(from: nat): seq<Message>
  {
    seq(from + 1, i => MatchTime(from - i))
  }

  class Coordinator {
    var players: map<SocketId, Player>
    var order: seq<SocketId>
    var phase: Phase
    var countdown: int
    var timeLeft: int
    /** The countdown interval is scheduled. */
    var countdownTimer: bool
    /** The match interval is scheduled. */
    var matchTimer: bool
    /** Resets scheduled by `finishMatch` that have not fired yet. */
    var pendingResets: nat
    /** Every message broadcast so far. */
    var log: seq<Message>

    /** The invariant the handlers and timers keep. */
    ghost predicate Valid()
      reads this
    {
      && RegistryOk(order, players)
      && TimersOk(phase, countdown, timeLeft, countdownTimer, matchTimer, order == [])
    }

    /** The broadcast form of the registry. */
    function Snapshot(): seq<Player>
      reads this
      requires Valid()
    {
      Values(order, players)
    }

    constructor ()
      ensures Valid()
      ensures players == map[] && order == [] && phase == Waiting
      ensures countdown == COUNTDOWN_TIME && timeLeft == MATCH_TIME
      ensures !countdownTimer && !matchTimer && pendingResets == 0 && log == []
    {
      players := map[];
      order := [];
      phase := Waiting;
      countdown := COUNTDOWN_TIME;
      timeLeft := MATCH_TIME;
      countdownTimer := false;
      matchTimer := false;
      pendingResets := 0;
      log := [];
    }

    /** `resetMatch`: empty registry, Waiting, both counters restored, both
        intervals cancelled, `match_reset` broadcast. Scheduled resets are
        not cancelled. */
    method ResetMatch()
      modifies this
      ensures Valid()
      ensures players == map[] && order == [] && phase == Waiting
      ensures countdown == COUNTDOWN_TIME && timeLeft == MATCH_TIME
      ensures !countdownTimer && !matchTimer
      ensures pendingResets == old(pendingResets)
      ensures log == old(log) + [MatchReset]
    {
      players := map[];
      order := [];
      phase := Waiting;
      countdown := COUNTDOWN_TIME;
      timeLeft := MATCH_TIME;
      countdownTimer := false;
      matchTimer := false;
      log := log + [MatchReset];
    }

    /** `startCountdown`: enter Countdown and schedule the countdown interval. */
    method StartCountdown()
      modifies this`phase, this`countdownTimer
      ensures phase == Countdown && countdownTimer
    {
      phase := Countdown;
      countdownTimer := true;
    }

    /** `startMatch`: enter Playing, broadcast `match_start` and schedule the
        match interval. */
    method StartMatch()
      modifies this`phase, this`matchTimer, this`log
      ensures phase == Playing && matchTimer
      ensures log == old(log) + [MatchStart]
    {
      phase := Playing;
      log := log + [MatchStart];
      matchTimer := true;
    }

    /** `finishMatch(forced)`: enter Finished from any phase, cancel the match
        interval only, broadcast exactly one `match_over` and schedule one
        more reset. */
    method FinishMatch(forced: Option<SocketId>)
      requires Valid()
      modifies this`phase, this`matchTimer, this`log, this`pendingResets
      ensures Valid()
      ensures phase == Finished && !matchTimer
      ensures log == old(log) + [MatchOutcome(forced, order, players)]
      ensures pendingResets == old(pendingResets) + 1
    {
      var m := PickWinner(forced, order, players);
      FinishKeepsTimers(phase, countdown, timeLeft, countdownTimer, matchTimer, order == []);
      phase := Finished;
      matchTimer := false;
      log := log + [m];
      pendingResets := pendingResets + 1;
    }

    /** `player_join`: ignored while Finished; otherwise inserts or
        overwrites the sender's entry (an overwritten key keeps its place),
        broadcasts the registry, and starts the countdown only from Waiting. */
    method Join(sid: SocketId, data: JoinData)
      requires Valid()
      modifies this
      ensures Valid()
      ensures old(phase) == Finished ==> unchanged(this)
      ensures old(phase) != Finished ==>
        && players == old(players)[sid := Joined(sid, data)]
        && order == (if sid in old(players) then old(order) else old(order) + [sid])
        && log == old(log) + [PlayersState(Values(order, players))]
        && phase == (if old(phase) == Waiting then Countdown else old(phase))
        && countdownTimer == (old(countdownTimer) || old(phase) == Waiting)
        && countdown == old(countdown) && timeLeft == old(timeLeft)
        && matchTimer == old(matchTimer) && pendingResets == old(pendingResets)
    {
      if phase == Finished {
        return;
      }
      Admit(sid, data);
    }

    /** `player_join` outside Finished. */
    method Admit(sid: SocketId, data: JoinData)
      requires Valid() && phase != Finished
      modifies this`order, this`players, this`log, this`phase, this`countdownTimer
      ensures Valid()
      ensures players == old(players)[sid := Joined(sid, data)]
      ensures order == (if sid in old(players) then old(order) else old(order) + [sid])
      ensures log == old(log) + [PlayersState(Values(order, players))]
      ensures phase == (if old(phase) == Waiting then Countdown else old(phase))
      ensures countdownTimer == (old(countdownTimer) || old(phase) == Waiting)
    {
      JoinKeepsTimers(phase, countdown, timeLeft, countdownTimer, matchTimer, order == []);
      Store(Joined(sid, data));
      log := log + [PlayersState(Values(order, players))];
      if phase == Waiting && players != map[] {
        StartCountdown();
      }
    }

    /** `players[p.id] = p`: an existing key keeps its place in the key
        order, a new one is appended. */
    method Store(p: Player)
      requires RegistryOk(order, players)
      modifies this`order, this`players
      ensures RegistryOk(order, players)
      ensures players == old(players)[p.id := p]
      ensures order == if p.id in old(players) then old(order) else old(order) + [p.id]
    {
      if p.id !in players {
        AddKeepsRegistry(order, players, p);
        order := order + [p.id];
      } else {
        PutKeepsRegistry(order, players, p);
      }
      players := players[p.id := p];
    }

    /** `player_move`: ignored for an unknown socket; otherwise overwrites
        x, y and score, and a score of at least FINISH_SCORE finishes the
        match, in any phase, with the player's character as forced key. */
    method Move(sid: SocketId, x: int, y: int, score: int)
      requires Valid()
      modifies this`players, this`phase, this`matchTimer, this`log, this`pendingResets
      ensures Valid()
      ensures sid !in old(players) ==> unchanged(this)
      ensures sid in old(players) ==>
        && players == old(players)[sid := old(players)[sid].(x := x, y := y, score := score)]
        && order == old(order)
        && countdown == old(countdown) && timeLeft == old(timeLeft)
        && countdownTimer == old(countdownTimer)
      ensures sid in old(players) && score >= FINISH_SCORE ==>
        && phase == Finished && !matchTimer && pendingResets == old(pendingResets) + 1
        && log == old(log) + [MatchOutcome(Some(players[sid].character), order, players)]
      ensures sid in old(players) && score < FINISH_SCORE ==>
        && phase == old(phase) && matchTimer == old(matchTimer)
        && pendingResets == old(pendingResets) && log == old(log)
    {
      if sid !in players {
        return;
      }
      PutKeepsRegistry(order, players, players[sid].(x := x, y := y, score := score));
      players := players[sid := players[sid].(x := x, y := y, score := score)];
      if players[sid].score >= FINISH_SCORE {
        FinishMatch(Some(players[sid].character));
      }
    }

    /** `player_game_over`: a complete no-op for an unknown socket;
        otherwise marks the sender dead, and when every registered player is
        dead finishes the match without a forced winner. */
    method GameOver(sid: SocketId)
      requires Valid()
      modifies this`players, this`phase, this`matchTimer, this`log, this`pendingResets
      ensures Valid()
      ensures sid !in old(players) ==> unchanged(this)
      ensures sid in old(players) ==>
        && players == old(players)[sid := old(players)[sid].(dead := true)]
        && order == old(order)
        && countdown == old(countdown) && timeLeft == old(timeLeft)
        && countdownTimer == old(countdownTimer)
      ensures sid in old(players) && AllDead(players) ==>
        && phase == Finished && !matchTimer && pendingResets == old(pendingResets) + 1
        && log == old(log) + [MatchOutcome(None, order, players)]
      ensures sid in old(players) && !AllDead(players) ==>
        && phase == old(phase) && matchTimer == old(matchTimer)
        && pendingResets == old(pendingResets) && log == old(log)
    {
      if sid !in players {
        return;
      }
      PutKeepsRegistry(order, players, players[sid].(dead := true));
      players := players[sid := players[sid].(dead := true)];
      if AllDead(players) {
        FinishMatch(None);
      }
    }

    /** `disconnect`: deletes the sender's entry and broadcasts the registry;
        an empty registry then triggers a full reset, in any phase. */
    method Disconnect(sid: SocketId)
      requires Valid()
      modifies this
      ensures Valid()
      ensures !(old(players).Keys <= {sid}) ==>
        && players == old(players) - {sid} && order == Without(old(order), sid)
        && log == old(log) + [PlayersState(Values(order, players))]
        && phase == old(phase) && countdown == old(countdown) && timeLeft == old(timeLeft)
        && countdownTimer == old(countdownTimer) && matchTimer == old(matchTimer)
        && pendingResets == old(pendingResets)
      ensures old(players).Keys <= {sid} ==>
        && players == map[] && order == [] && phase == Waiting
        && countdown == COUNTDOWN_TIME && timeLeft == MATCH_TIME
        && !countdownTimer && !matchTimer && pendingResets == old(pendingResets)
        && log == old(log) + [PlayersState([]), MatchReset]
    {
      Remove(sid);
      log := log + [PlayersState(Values(order, players))];
      if order == [] {
        ResetMatch();
        assert log == old(log) + [PlayersState([])] + [MatchReset];
      }
    }

    /** `delete players[sid]`: the key leaves the key order, the others keep
        theirs. */
    method Remove(sid: SocketId)
      requires RegistryOk(order, players)
      modifies this`order, this`players
      ensures RegistryOk(order, players)
      ensures players == old(players) - {sid} && order == Without(old(order), sid)
      ensures order == [] <==> old(players).Keys <= {sid}
      ensures order == [] ==> players == map[]
      ensures old(order) == [] ==> order == []
    {
      RemoveKeepsRegistry(order, players, sid);
      order := Without(order, sid);
      players := players - {sid};
      EmptyRegistry(order, players);
    }

    /** One firing of the countdown interval: broadcast the current value,
        and at zero (or below) cancel this interval and start the match;
        the counter is decremented in either case. */
    method CountdownTick()
      requires Valid() && countdownTimer
      modifies this
      ensures Valid()
      ensures countdown == old(countdown) - 1
      ensures old(countdown) > 0 ==>
        && log == old(log) + [CountdownAt(old(countdown))]
        && countdownTimer && phase == old(phase) && !matchTimer
      ensures old(countdown) <= 0 ==>
        && log == old(log) + [CountdownAt(old(countdown)), MatchStart]
        && !countdownTimer && phase == Playing && matchTimer
      ensures players == old(players) && order == old(order)
      ensures timeLeft == old(timeLeft) && pendingResets == old(pendingResets)
    {
      log := log + [CountdownAt(countdown)];
      if countdown <= 0 {
        countdownTimer := false;
        StartMatch();
      }
      countdown := countdown - 1;
    }

    /** One firing of the match interval: broadcast the remaining time, and
        at zero (or below) cancel this interval and finish the match without
        a forced winner; the counter is decremented in either case. */
    method MatchTick()
      requires Valid() && matchTimer
      modifies this
      ensures Valid()
      ensures timeLeft == old(timeLeft) - 1
      ensures old(timeLeft) > 0 ==>
        && log == old(log) + [MatchTime(old(timeLeft))]
        && matchTimer && phase == Playing && pendingResets == old(pendingResets)
      ensures old(timeLeft) <= 0 ==>
        && log == old(log) + [MatchTime(old(timeLeft)), MatchOutcome(None, order, players)]
        && !matchTimer && phase == Finished && pendingResets == old(pendingResets) + 1
      ensures players == old(players) && order == old(order)
      ensures countdown == old(countdown) && countdownTimer == old(countdownTimer)
    {
      log := log + [MatchTime(timeLeft)];
      if timeLeft <= 0 {
        // the interval clears itself, and finishMatch clears it again
        FinishMatch(None);
      }
      timeLeft := timeLeft - 1;
    }

    /** One scheduled reset fires. Every `finishMatch` scheduled one, and
        none is ever cancelled, so it may land in a later match. */
    method ResetFires()
      requires Valid() && pendingResets > 0
      modifies this
      ensures Valid()
      ensures players == map[] && order == [] && phase == Waiting
      ensures countdown == COUNTDOWN_TIME && timeLeft == MATCH_TIME
      ensures !countdownTimer && !matchTimer
      ensures pendingResets == old(pendingResets) - 1
      ensures log == old(log) + [MatchReset]
    {
      pendingResets := pendingResets - 1;
      ResetMatch();
    }

    /** One firing of the 50 ms broadcast interval: the registry is sent
        only while Playing or counting down. */
    method BroadcastTick()
      requires Valid()
      modifies this`log
      ensures Valid()
      ensures phase == Playing || phase == Countdown ==>
        log == old(log) + [PlayersState(Snapshot())]
      ensures phase == Waiting || phase == Finished ==> log == old(log)
    {
      if phase == Playing || phase == Countdown {
        log := log + [PlayersState(Values(order, players))];
      }
    }

    /** A countdown left to run with no other event in between broadcasts
        every value from the current one down to 0 and then starts the
        match — from Finished too, since finishMatch does not cancel it. */
    method RunCountdown()
      requires Valid() && countdownTimer
      modifies this
      ensures Valid()
      ensures log == old(log) + CountdownTicks(old(countdown)) + [MatchStart]
      ensures phase == Playing && matchTimer && !countdownTimer
      ensures timeLeft == MATCH_TIME && countdown == -1
      ensures players == old(players) && order == old(order) && pendingResets == old(pendingResets)
    {
      ghost var start: nat := countdown;
      while countdownTimer
        invariant Valid()
        invariant players == old(players) && order == old(order) && pendingResets == old(pendingResets)
        invariant timeLeft == MATCH_TIME
        invariant countdownTimer ==>
          log == old(log) + CountdownTicks(start)[..start - countdown]
        invariant !countdownTimer ==>
          && log == old(log) + CountdownTicks(start) + [MatchStart]
          && phase == Playing && matchTimer && countdown == -1
        decreases if countdownTimer then countdown + 1 else 0
      {
        ghost var before := log;
        ghost var c := countdown;
        CountdownTick();
        if countdownTimer {
          assert CountdownTicks(start)[..start - countdown]
              == CountdownTicks(start)[..start - c] + [CountdownAt(c)];
        } else {
          assert CountdownTicks(start) == CountdownTicks(start)[..start - c] + [CountdownAt(c)];
        }
      }
    }

    /** A match left to run with no other event in between broadcasts every
        remaining time down to 0 and then announces the highest scorer. */
    method RunMatch()
      requires Valid() && matchTimer
      modifies this
      ensures Valid()
      ensures log == old(log) + MatchTimeTicks(old(timeLeft)) + [MatchOutcome(None, old(order), old(players))]
      ensures phase == Finished && !matchTimer && timeLeft == -1
      ensures players == old(players) && order == old(order) && pendingResets == old(pendingResets) + 1
      ensures countdown == old(countdown) && countdownTimer == old(countdownTimer)
    {
      ghost var start: nat := timeLeft;
      while matchTimer
        invariant Valid()
        invariant players == old(players) && order == old(order)
        invariant countdown == old(countdown) && countdownTimer == old(countdownTimer)
        invariant matchTimer ==>
          log == old(log) + MatchTimeTicks(start)[..start - timeLeft]
          && pendingResets == old(pendingResets)
        invariant !matchTimer ==>
          && log == old(log) + MatchTimeTicks(start) + [MatchOutcome(None, order, players)]
          && phase == Finished && timeLeft == -1
          && pendingResets == old(pendingResets) + 1
        decreases if matchTimer then timeLeft + 1 else 0
      {
        ghost var t := timeLeft;
        MatchTick();
        if matchTimer {
          assert MatchTimeTicks(start)[..start - timeLeft]
              == MatchTimeTicks(start)[..start - t] + [MatchTime(t)];
        } else {
          assert MatchTimeTicks(start) == MatchTimeTicks(start)[..start - t] + [MatchTime(t)];
        }
      }
    }
  }

  /** From a fresh reset, the first join starts a countdown that broadcasts
      COUNTDOWN_TIME + 1 values (20 down to 0) before `match_start`. */
  method FirstJoinCountdown(sid: SocketId, data: JoinData) returns (c: Coordinator)
    ensures c.Valid() && c.phase == Playing
    ensures c.log == [PlayersState([Joined(sid, data)])] + CountdownTicks(COUNTDOWN_TIME) + [MatchStart]
    ensures |CountdownTicks(COUNTDOWN_TIME)| == COUNTDOWN_TIME + 1
  {
    c := new Coordinator();
    c.Join(sid, data);
    assert c.Snapshot() == [Joined(sid, data)];
    c.RunCountdown();
  }

  /** A threshold crossing during the countdown finishes the match, yet the
      countdown still runs out and starts a new one over the finished
      match, with a reset pending. */
  method FinishDuringCountdown(c: Coordinator, sid: SocketId)
    requires c.Valid() && c.phase == Countdown && sid in c.players
    modifies c
    ensures c.Valid() && c.phase == Playing && c.matchTimer
    ensures c.pendingResets == old(c.pendingResets) + 1
  {
    c.Move(sid, 0, 0, FINISH_SCORE);
    assert c.phase == Finished && c.countdownTimer;
    c.RunCountdown();
  }
}
