/** The integer race logic of the game screen: score, checkpoint, lives,
    the speed tier, the finish flag, obstacle bookkeeping and collision.
    Positions are whole numbers here; everything random (obstacle sizes
    and gaps) and the player's vertical physics arrive as parameters. */
module GameScene {
  import opened Common

  const FINISH_SCORE := 10000
  const CHECKPOINT_INTERVAL := 2000
  const MAX_LIVES := 3
  const BASE_SPEED := 8
  const MAX_SPEED := 20
  /** The player's fixed column and size. */
  const PLAYER_X := 50
  const PLAYER_SIZE := 44
  /** The padding `update` passes to `collideRect`. */
  const HIT_PAD := 4
  /** Obstacles whose right edge is left of this are dropped. */
  const OFFSCREEN_EDGE := -60

  /** An axis-aligned rectangle: an obstacle, or the player's body. */
  datatype Rect = Rect(x: int, y: int, width: int, height: int)

  /** What the match-over banner shows. */
  datatype Banner = Banner(name: string, character: string, score: int)

  /** `collideRect`: the two rectangles, each shrunk by `pad` on every
      side, overlap. */
  predicate CollideRect(a: Rect, b: Rect, pad: int)
  {
    && a.x + pad < b.x + b.width - pad
    && a.x + a.width - pad > b.x + pad
    && a.y + pad < b.y + b.height - pad
    && a.y + a.height - pad > b.y + pad
  }

  /** Collision does not depend on which rectangle comes first. */
  lemma CollideRectSymmetric(a: Rect, b: Rect, pad: int)
    ensures CollideRect(a, b, pad) <==> CollideRect(b, a, pad)
  {
  }

  /** A larger pad only removes collisions. */
  lemma CollideRectPadShrinks(a: Rect, b: Rect, pad: int, larger: int)
    requires pad <= larger
    ensures CollideRect(a, b, larger) ==> CollideRect(a, b, pad)
  {
  }

  /** Rectangles that are apart on the x axis never collide, for any pad
      that is not negative. */
  lemma CollideRectApart(a: Rect, b: Rect, pad: int)
    requires pad >= 0 && a.width >= 0 && b.width >= 0
    requires a.x + a.width <= b.x
    ensures !CollideRect(a, b, pad)
  {
  }

  /** The speed tier: 8 plus 2 for every full 1000 of the effective score
      (the score while the match is active, the checkpoint otherwise),
      capped at 20. */
  function Speed(matchActive: bool, score: int, checkpoint: int): (s: int)
    ensures s <= MAX_SPEED && s % 2 == 0
    ensures (if matchActive then score else checkpoint) >= 0 ==> s >= BASE_SPEED
    ensures s == MAX_SPEED <==> (if matchActive then score else checkpoint) >= 6000
  {
    var effective := if matchActive then score else checkpoint;
    var increment := (effective / 1000) * 2;
    if BASE_SPEED + increment < MAX_SPEED then BASE_SPEED + increment else MAX_SPEED
  }

  /** A higher effective score never gives a lower speed. */
  lemma SpeedMonotone(e1: int, e2: int)
    requires e1 <= e2
    ensures Speed(true, e1, 0) <= Speed(true, e2, 0)
  {
  }

  /** The checkpoint the score reaches: the largest multiple of the
      interval not above it. */
  function CheckpointFor(score: int): (c: int)
    requires score >= 0
    ensures c % CHECKPOINT_INTERVAL == 0
    ensures 0 <= c <= score < c + CHECKPOINT_INTERVAL
  {
    (score / CHECKPOINT_INTERVAL) * CHECKPOINT_INTERVAL
  }

  /** The checkpoint after the score moves to `score`: raised to
      CheckpointFor(score) when that is higher and still below the finish,
      otherwise left as it was. */
  function NextCheckpoint(checkpoint: int, score: int): (c: int)
    requires score >= 0
    ensures c == checkpoint || (c == CheckpointFor(score) && c > checkpoint)
    ensures checkpoint <= c
    ensures checkpoint < FINISH_SCORE ==> c < FINISH_SCORE
    ensures checkpoint % CHECKPOINT_INTERVAL == 0 ==> c % CHECKPOINT_INTERVAL == 0
    ensures checkpoint <= score ==> c <= score
  {
    var candidate := CheckpointFor(score);
    if candidate > checkpoint && candidate < FINISH_SCORE then candidate else checkpoint
  }

  /** Every obstacle moved left by `speed`. */
  function Moved(obstacles: seq<Rect>, speed: int): (r: seq<Rect>)
    ensures |r| == |obstacles|
    ensures forall i | 0 <= i < |r| :: r[i] == obstacles[i].(x := obstacles[i].x - speed)
  {
    seq(|obstacles|, i requires 0 <= i < |obstacles| => obstacles[i].(x := obstacles[i].x - speed))
  }

  predicate OnScreen(o: Rect)
  {
    o.x + o.width > OFFSCREEN_EDGE
  }

  /** The obstacles still on screen, in their order. */
  function KeepOnScreen(obstacles: seq<Rect>): (r: seq<Rect>)
    ensures |r| <= |obstacles|
    ensures forall o | o in r :: o in obstacles && OnScreen(o)
    ensures forall o | o in obstacles && OnScreen(o) :: o in r
  {
    if obstacles == [] then []
    else
      var rest := KeepOnScreen(obstacles[1..]);
      if OnScreen(obstacles[0]) then [obstacles[0]] + rest else rest
  }

  /** The filter keeps every on-screen obstacle as many times as it occurs
      and no off-screen one. */
  lemma {:induction false} KeepOnScreenCounts(obstacles: seq<Rect>)
    ensures forall o :: multiset(KeepOnScreen(obstacles))[o] == if OnScreen(o) then multiset(obstacles)[o] else 0
  {
    if obstacles != [] {
      KeepOnScreenCounts(obstacles[1..]);
      assert obstacles == [obstacles[0]] + obstacles[1..];
      assert multiset(obstacles) == multiset([obstacles[0]]) + multiset(obstacles[1..]);
    }
  }

  /** Filtering distributes over concatenation, so relative order is kept. */
  lemma {:induction false} KeepOnScreenAppend(a: seq<Rect>, b: seq<Rect>)
    ensures KeepOnScreen(a + b) == KeepOnScreen(a) + KeepOnScreen(b)
  {
    if a != [] {
      assert (a + b)[1..] == a[1..] + b;
      KeepOnScreenAppend(a[1..], b);
    } else {
      assert a + b == b;
    }
  }

  /** One frame of obstacle motion: move by `speed`, spawn `spawned` when
      there is none or the last one has passed `threshold`, drop those that
      left the screen. */
  function Advance(obstacles: seq<Rect>, speed: int, threshold: int, spawned: Rect): (r: seq<Rect>)
    ensures forall o | o in r :: OnScreen(o)
    ensures |r| <= |obstacles| + 1
  {
    var moved := Moved(obstacles, speed);
    var spawnNow := |moved| == 0 || moved[|moved| - 1].x < threshold;
    KeepOnScreen(if spawnNow then moved + [spawned] else moved)
  }

  /** A frame keeps the moved obstacles still on screen, in order, and puts
      the new one last exactly when the spawn rule fires and it is on screen. */
  lemma {:induction false} AdvanceSpawns(obstacles: seq<Rect>, speed: int, threshold: int, spawned: Rect)
    ensures var spawnNow := |obstacles| == 0 || obstacles[|obstacles| - 1].x - speed < threshold;
      Advance(obstacles, speed, threshold, spawned)
        == KeepOnScreen(Moved(obstacles, speed)) + (if spawnNow && OnScreen(spawned) then [spawned] else [])
  {
    KeepOnScreenAppend(Moved(obstacles, speed), [spawned]);
    assert KeepOnScreen([spawned]) == if OnScreen(spawned) then [spawned] else [] by {
      assert [spawned][1..] == [];
    }
  }

  /** The player's body at height `y`. */
  function PlayerRect(y: int): Rect
  {
    Rect(PLAYER_X, y, PLAYER_SIZE, PLAYER_SIZE)
  }

  predicate HitsAny(y: int, obstacles: seq<Rect>)
  {
    exists i | 0 <= i < |obstacles| :: CollideRect(PlayerRect(y), obstacles[i], HIT_PAD)
  }

  /** The collision loop of `update`: scan the obstacles in order and stop
      at the first one the player touches. */
  method FirstHit(y: int, obstacles: seq<Rect>) returns (hit: bool, index: int)
    ensures hit <==> HitsAny(y, obstacles)
    ensures hit ==> 0 <= index < |obstacles| && CollideRect(PlayerRect(y), obstacles[index], HIT_PAD)
    ensures hit ==> forall j | 0 <= j < index :: !CollideRect(PlayerRect(y), obstacles[j], HIT_PAD)
    ensures !hit ==> index == |obstacles|
  {
    index := 0;
    while index < |obstacles|
      invariant 0 <= index <= |obstacles|
      invariant forall j | 0 <= j < index :: !CollideRect(PlayerRect(y), obstacles[j], HIT_PAD)
    {
      if CollideRect(PlayerRect(y), obstacles[index], HIT_PAD) {
        return true, index;
      }
      index := index + 1;
    }
    return false, index;
  }

  /** `handleMatchOver`'s banner: a present name and character are shown as
      given, a missing or empty name shows "Unknown", a missing or empty
      character shows nothing, and only a missing score shows 0. */
  function BannerFor(winnerName: Option<string>, winnerCharacter: Option<string>, winnerScore: Option<int>)
    : (b: Banner)
    ensures b.name == "Unknown" <==> !Truthy(winnerName) || winnerName.value == "Unknown"
    ensures b.character == "" <==> !Truthy(winnerCharacter)
    ensures Truthy(winnerName) ==> b.name == winnerName.value
    ensures Truthy(winnerCharacter) ==> b.character == winnerCharacter.value
    ensures winnerScore.Some? ==> b.score == winnerScore.value
    ensures winnerScore.None? ==> b.score == 0
  {
    Banner(OrDefault(winnerName, "Unknown"), OrDefault(winnerCharacter, ""),
           if winnerScore.Some? then winnerScore.value else 0)
  }

  class Game {
    var score: int
    var highScore: int
    var gameOver: bool
    var raceFinished: bool
    var checkpoint: int
    var lives: int
    var isDead: bool
    var matchActive: bool
    var obstacles: seq<Rect>
    /** A multiplayer client exists (a game-server URL was given). */
    const online: bool
    /** How many `player_game_over` messages were sent. */
    var gameOversSent: nat
    /** The banner shown by `handleMatchOver`, once shown. */
    var banner: Option<Banner>
    /** A return to the room screen is scheduled. */
    var leaving: bool

    /** The invariant every handler keeps. */
    ghost predicate Valid()
      reads this
    {
      && 0 <= checkpoint <= score
      && checkpoint % CHECKPOINT_INTERVAL == 0 && checkpoint < FINISH_SCORE
      && 0 <= lives <= MAX_LIVES
      && (lives == 0 ==> isDead)
      && (raceFinished ==> score >= FINISH_SCORE)
    }

    /** Gameplay advances on a frame. */
    predicate Playing()
      reads this
    {
      !isDead && !raceFinished && matchActive
    }

    /** `create`: fresh state, the stored high score, and one obstacle. */
    constructor (storedHighScore: int, online: bool, first: Rect)
      ensures Valid()
      ensures score == 0 && checkpoint == 0 && lives == MAX_LIVES && highScore == storedHighScore
      ensures !gameOver && !raceFinished && !isDead && !matchActive && !leaving
      ensures obstacles == [first] && this.online == online && gameOversSent == 0 && banner == None
    {
      score := 0;
      highScore := storedHighScore;
      gameOver := false;
      raceFinished := false;
      checkpoint := 0;
      lives := MAX_LIVES;
      isDead := false;
      matchActive := false;
      obstacles := [first];
      this.online := online;
      gameOversSent := 0;
      banner := None;
      leaving := false;
    }

    /** `handleHit`: one life is lost. With no lives left the player is dead,
        the server is told (when online) and the high score is raised to the
        score; otherwise the player respawns at the checkpoint with a single
        new obstacle. */
    method HandleHit(respawn: Rect)
      requires Valid() && !isDead && !raceFinished
      modifies this
      ensures lives == old(lives) - 1
      ensures lives == 0 ==>
        && isDead && score == old(score) && obstacles == old(obstacles)
        && highScore == (if old(score) > old(highScore) then old(score) else old(highScore))
        && gameOversSent == old(gameOversSent) + (if online then 1 else 0)
      ensures lives > 0 ==>
        && !isDead && score == old(checkpoint) && obstacles == [respawn]
        && highScore == old(highScore) && gameOversSent == old(gameOversSent)
      ensures checkpoint == old(checkpoint) && gameOver == old(gameOver) && raceFinished == old(raceFinished)
      ensures matchActive == old(matchActive) && banner == old(banner) && leaving == old(leaving)
      ensures Valid()
    {
      lives := lives - 1;
      if lives <= 0 {
        isDead := true;
        if online {
          gameOversSent := gameOversSent + 1;
        }
        if score > highScore {
          highScore := score;
        }
        return;
      }
      score := checkpoint;
      obstacles := [respawn];
    }

    /** `resetGame`: score, checkpoint and lives back to their starting
        values, the end flags cleared, a single new obstacle. `isDead` is
        left as it was. */
    method ResetGame(first: Rect)
      requires Valid()
      modifies this
      ensures Valid()
      ensures score == 0 && checkpoint == 0 && lives == MAX_LIVES && !gameOver && !raceFinished
      ensures obstacles == [first]
      ensures isDead == old(isDead) && matchActive == old(matchActive) && highScore == old(highScore)
      ensures gameOversSent == old(gameOversSent) && banner == old(banner) && leaving == old(leaving)
    {
      score := 0;
      gameOver := false;
      raceFinished := false;
      checkpoint := 0;
      lives := MAX_LIVES;
      obstacles := [first];
    }

    /** The SPACE key: restarts only after game over or the finish. */
    method SpaceKey(first: Rect)
      requires Valid()
      modifies this
      ensures Valid()
      ensures old(gameOver || raceFinished) ==>
        && score == 0 && checkpoint == 0 && lives == MAX_LIVES && !gameOver && !raceFinished
        && obstacles == [first]
      ensures !old(gameOver || raceFinished) ==> unchanged(this)
      ensures isDead == old(isDead) && matchActive == old(matchActive) && highScore == old(highScore)
      ensures gameOversSent == old(gameOversSent) && banner == old(banner) && leaving == old(leaving)
    {
      if gameOver || raceFinished {
        ResetGame(first);
      }
    }

    /** The integer part of one `update` frame while playing: obstacles
        advance, a collision costs a life, the score grows by exactly one,
        the checkpoint follows the score and the finish flag is raised at
        FINISH_SCORE. Outside play nothing changes. `threshold` and
        `spawned` are the random spawn gap and obstacle, `playerY` the
        player's height after this frame's physics, `respawn` the obstacle
        created on a respawn. */
    method Step(threshold: int, spawned: Rect, playerY: int, respawn: Rect)
      requires Valid()
      modifies this
      ensures Valid()
      ensures !old(Playing()) ==> unchanged(this)
      ensures old(Playing()) ==>
        var moved := Advance(old(obstacles), Speed(true, old(score), old(checkpoint)), threshold, spawned);
        var hit := HitsAny(playerY, moved);
        var dies := hit && old(lives) == 1;
        && lives == old(lives) - (if hit then 1 else 0)
        && isDead == dies
        && score == (if hit && !dies then old(checkpoint) else old(score)) + 1
        && obstacles == (if hit && !dies then [respawn] else moved)
        && checkpoint == NextCheckpoint(old(checkpoint), score)
        && raceFinished == (score >= FINISH_SCORE)
        && highScore == (if dies && old(score) > old(highScore) then old(score) else old(highScore))
        && gameOversSent == old(gameOversSent) + (if dies && online then 1 else 0)
      ensures gameOver == old(gameOver) && matchActive == old(matchActive)
      ensures banner == old(banner) && leaving == old(leaving)
    {
      if !(!isDead && !raceFinished && matchActive) {
        return;
      }
      var speed := Speed(matchActive, score, checkpoint);
      obstacles := Advance(obstacles, speed, threshold, spawned);
      var hit, _ := FirstHit(playerY, obstacles);
      if hit {
        HandleHit(respawn);
      }
      ScoreTick();
    }

    /** The end of a playing frame: the score grows by one, the checkpoint
        follows it, and the finish flag goes up at FINISH_SCORE. */
    method ScoreTick()
      requires Valid() && !raceFinished
      modifies this`score, this`checkpoint, this`raceFinished
      ensures Valid()
      ensures score == old(score) + 1
      ensures checkpoint == NextCheckpoint(old(checkpoint), score)
      ensures raceFinished == (score >= FINISH_SCORE)
    {
      score := score + 1;
      checkpoint := NextCheckpoint(checkpoint, score);
      if score >= FINISH_SCORE && !raceFinished {
        raceFinished := true;
      }
    }

    /** `handleCountdown`: gameplay is blocked. */
    method HandleCountdown(value: int)
      requires Valid()
      modifies this`matchActive
      ensures Valid() && !matchActive && !Playing()
    {
      matchActive := false;
    }

    /** `handleMatchStart`: gameplay is allowed. */
    method HandleMatchStart()
      requires Valid()
      modifies this`matchActive
      ensures Valid() && matchActive
      ensures Playing() <==> !isDead && !raceFinished
    {
      matchActive := true;
    }

    /** `handleMatchOver`: the winner banner is shown, gameplay stops for
        good (dead and game over) and a return to the room screen is
        scheduled. */
    method HandleMatchOver(winnerName: Option<string>, winnerCharacter: Option<string>, winnerScore: Option<int>)
      requires Valid()
      modifies this`isDead, this`gameOver, this`banner, this`leaving
      ensures Valid()
      ensures isDead && gameOver && leaving && !Playing()
      ensures banner == Some(BannerFor(winnerName, winnerCharacter, winnerScore))
    {
      banner := Some(BannerFor(winnerName, winnerCharacter, winnerScore));
      isDead := true;
      gameOver := true;
      leaving := true;
    }
  }

  /** A match that ends, followed by SPACE: the game resets its counters,
      but the player is still dead, so no later frame moves the score. */
  method RestartAfterMatchOver(g: Game, first: Rect, threshold: int, spawned: Rect, playerY: int, respawn: Rect)
    requires g.Valid()
    modifies g
    ensures g.Valid() && g.isDead && g.score == 0 && g.lives == MAX_LIVES && !g.Playing()
  {
    g.HandleMatchOver(None, None, None);
    g.SpaceKey(first);
    g.HandleMatchStart();
    g.Step(threshold, spawned, playerY, respawn);
  }
}
