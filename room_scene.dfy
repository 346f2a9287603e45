/** The room screen: which character buttons can be pressed, the local
    countdown shown while the room counts down, and the gate that moves the
    player into the game. */
module RoomScene {
  import opened Common

  const FALLBACK_COUNTDOWN := 20
  const DEFAULT_CHARACTER := "blacky"
  const CHARACTER_KEYS := ["blacky", "pinky", "alterEgo", "greenThumb"]
  const ROOM_LIST_SCENE := "RoomListScene"
  const GAME_SCENE := "GameScene"
  const COUNTDOWN_STATE := "countdown"
  const RUNNING_STATE := "running"
  const SELECTING_MESSAGE := "Selecting character..."
  const TAKEN_MESSAGE := "Character already taken."
  const SELECT_ERROR_MESSAGE := "Error selecting character."
  const LOBBY_ERROR_MESSAGE := "Error contacting lobby."

  /** How a character button is drawn, and whether it takes clicks. */
  datatype ButtonLook = Selected | Taken | Free

  predicate Interactive(b: ButtonLook)
  {
    !b.Taken?
  }

  /** `setCharacterButtonState`: the own selection wins over "taken", and
      "taken" wins over "free". */
  function ButtonFor(taken: bool, selected: bool): (b: ButtonLook)
    ensures b.Selected? <==> selected
    ensures b.Taken? <==> taken && !selected
    ensures b.Free? <==> !taken && !selected
  {
    if selected then Selected else if taken then Taken else Free
  }

  /** A button refuses clicks exactly when someone else holds its character. */
  lemma ButtonInteractive(taken: bool, selected: bool)
    ensures Interactive(ButtonFor(taken, selected)) <==> !taken || selected
  {
  }

  /** A room as the lobby's `/rooms` reply lists it; every field the screen
      reads may be missing. */
  datatype RoomView = RoomView(
    roomId: string,
    playerCount: int,
    state: string,
    charactersTaken: Option<seq<string>>,
    countdown: Option<int>,
    wsUrl: Option<string>)

  /** The outcome of one poll of `/rooms`. */
  datatype RoomsReply =
    | Rooms(rooms: Option<seq<RoomView>>)
    | Failed    // the request or its body could not be read

  /** `rooms.find(r => r.room_id === roomId)`: the first room with that id. */
  function FindRoom(rooms: seq<RoomView>, roomId: string): (found: Option<RoomView>)
    ensures found.None? <==> forall i | 0 <= i < |rooms| :: rooms[i].roomId != roomId
    ensures found.Some? ==> exists i | 0 <= i < |rooms| ::
      rooms[i] == found.value && rooms[i].roomId == roomId
      && forall j | 0 <= j < i :: rooms[j].roomId != roomId
  {
    if rooms == [] then None
    else if rooms[0].roomId == roomId then Some(rooms[0])
    else
      var rest := FindRoom(rooms[1..], roomId);
      assert rest.Some? ==> exists i | 0 <= i < |rooms| ::
        rooms[i] == rest.value && rooms[i].roomId == roomId
        && forall j | 0 <= j < i :: rooms[j].roomId != roomId
      by {
        if rest.Some? {
          var i :| 0 <= i < |rooms| - 1 && rooms[1..][i] == rest.value && rooms[1..][i].roomId == roomId
            && forall j | 0 <= j < i :: rooms[1..][j].roomId != roomId;
          assert rooms[i + 1] == rest.value;
          assert forall j | 0 <= j < i + 1 :: rooms[j].roomId != roomId by {
            forall j | 0 <= j < i + 1
              ensures rooms[j].roomId != roomId
            {
              if j > 0 {
                assert rooms[j] == rooms[1..][j - 1];
              }
            }
          }
        }
      }
      rest
  }

  /** The look of every character button for the characters taken in the
      room and the player's own selection. */
  function Buttons(taken: seq<string>, mine: Option<string>): (looks: map<string, ButtonLook>)
    ensures looks.Keys == set k | k in CHARACTER_KEYS
    ensures forall k | k in looks :: looks[k] == ButtonFor(k in taken, mine == Some(k))
  {
    map k | k in CHARACTER_KEYS :: ButtonFor(k in taken, mine == Some(k))
  }

  /** At most one button shows the own selection, and it is the selected
      character's, which stays pressable even though the lobby lists it as
      taken. */
  lemma OwnButtonOnly(taken: seq<string>, mine: Option<string>)
    ensures var looks := Buttons(taken, mine);
      forall k | k in looks :: looks[k].Selected? <==> mine == Some(k)
    ensures var looks := Buttons(taken, mine);
      forall k | k in looks && mine == Some(k) :: Interactive(looks[k])
  {
  }

  /** `room.countdown || FALLBACK_COUNTDOWN`. */
  function CountdownStart(countdown: Option<int>): (start: int)
    ensures start != 0
    ensures countdown.Some? && countdown.value != 0 ==> start == countdown.value
    ensures countdown.None? || countdown.value == 0 ==> start == FALLBACK_COUNTDOWN
  {
    var c := OrZero(countdown);
    if c == 0 then FALLBACK_COUNTDOWN else c
  }

  /** One tick of the local countdown timer: it moves by at most one, it
      moves exactly when there is time left, and a countdown that has not
      gone negative never does. */
  function Ticked(c: int): (next: int)
    ensures next <= c <= next + 1
    ensures next == c <==> c <= 0
    ensures c >= 0 ==> next >= 0
  {
    if c > 0 then c - 1 else c
  }

  /** The countdown after `n` ticks. */
  function AfterTicks(c: int, n: nat): int
  {
    if n == 0 then c else AfterTicks(Ticked(c), n - 1)
  }

  /** A positive countdown runs down one per tick and then rests at zero; one
      that is not positive never moves. */
  lemma {:induction false} AfterTicksValue(c: int, n: nat)
    ensures AfterTicks(c, n) == if c <= 0 then c else if c >= n then c - n else 0
  {
    if n > 0 {
      AfterTicksValue(Ticked(c), n - 1);
    }
  }

  /** The room screen's state. `selectedCharacter` and `registryWsUrl`
      stand for the entries the scene shares with the other scenes. */
  class RoomScreen {
    const sessionId: Option<string>
    const roomId: Option<string>
    var selectedCharacter: Option<string>
    var registryWsUrl: Option<string>
    var localCountdown: Option<int>
    var localCountdownStarted: bool
    /** How many one-second countdown timers the scene has started. */
    var countdownTimers: nat
    /** Whether the scene is running, so that its poll, heartbeat and
        countdown timers fire. */
    var polling: bool
    /** The last room seen, or None once the room was reported closed. */
    var shownRoom: Option<RoomView>
    var buttons: map<string, ButtonLook>
    var status: string
    var next: Option<string>

    ghost predicate Valid()
      reads this
    {
      && (localCountdownStarted <==> localCountdown.Some?)
      && countdownTimers == (if localCountdownStarted then 1 else 0)
      && (polling <==> next == None)
    }

    /** `create`: without a session or a room the player is sent back to the
        room list and nothing is polled; otherwise every character button is
        drawn pressable and unselected. The shared entries keep the values
        they had (`wsUrl` survives from an earlier match). */
    constructor (sessionId: Option<string>, roomId: Option<string>, selectedCharacter: Option<string>,
                 wsUrl: Option<string>)
      ensures Valid()
      ensures this.sessionId == sessionId && this.roomId == roomId
      ensures this.selectedCharacter == selectedCharacter && registryWsUrl == wsUrl
      ensures localCountdown == None && !localCountdownStarted && countdownTimers == 0
      ensures polling <==> Truthy(sessionId) && Truthy(roomId)
      ensures next == if polling then None else Some(ROOM_LIST_SCENE)
      ensures buttons == if polling then Buttons([], None) else map[]
      ensures shownRoom == None && status == ""
    {
      this.sessionId := sessionId;
      this.roomId := roomId;
      this.selectedCharacter := selectedCharacter;
      registryWsUrl := wsUrl;
      localCountdown := None;
      localCountdownStarted := false;
      countdownTimers := 0;
      shownRoom := None;
      status := "";
      if !Truthy(sessionId) || !Truthy(roomId) {
        polling := false;
        next := Some(ROOM_LIST_SCENE);
        buttons := map[];
      } else {
        polling := true;
        next := None;
        buttons := Buttons([], None);
      }
    }

    /** `chooseCharacter`, with the lobby's answer (`accepted`) or a failed
        request (`None`) as a parameter. */
    method ChooseCharacter(key: string, reply: Option<bool>)
      requires Valid()
      modifies this`selectedCharacter, this`status
      ensures Valid()
      ensures reply == Some(true) ==> selectedCharacter == Some(key) && status == "Selected: " + key
      ensures reply == Some(false) ==> selectedCharacter == old(selectedCharacter) && status == TAKEN_MESSAGE
      ensures reply == None ==> selectedCharacter == old(selectedCharacter) && status == SELECT_ERROR_MESSAGE
    {
      status := SELECTING_MESSAGE;
      match reply
      case None =>
        status := SELECT_ERROR_MESSAGE;
      case Some(accepted) =>
        if !accepted {
          status := TAKEN_MESSAGE;
          return;
        }
        selectedCharacter := Some(key);
        status := "Selected: " + key;
    }

    /** `refreshRoomInfo`, with the poll's outcome as a parameter. */
    method OnRoomsReply(reply: RoomsReply)
      requires Valid() && polling
      modifies this`shownRoom, this`buttons, this`status, this`localCountdownStarted, this`localCountdown,
        this`countdownTimers, this`registryWsUrl, this`selectedCharacter, this`next, this`polling
      ensures Valid()
      ensures reply.Failed? ==> status == LOBBY_ERROR_MESSAGE && shownRoom == old(shownRoom)
      ensures reply.Rooms? ==> status == old(status)
      ensures var found := if reply.Rooms? then FindRoom(OrEmpty(reply.rooms), OrDefault(roomId, "")) else None;
        && (reply.Rooms? ==> shownRoom == found)
        && (found.Some? ==> buttons == Buttons(OrEmpty(found.value.charactersTaken), if Truthy(old(selectedCharacter)) then old(selectedCharacter) else None))
        && (found.None? ==> buttons == old(buttons))
        && (if found.Some? && found.value.state == COUNTDOWN_STATE && !old(localCountdownStarted)
            then localCountdownStarted && localCountdown == Some(CountdownStart(found.value.countdown))
            else localCountdownStarted == old(localCountdownStarted) && localCountdown == old(localCountdown))
        && (if found.Some? && found.value.state == RUNNING_STATE && Truthy(found.value.wsUrl)
            then registryWsUrl == found.value.wsUrl && next == Some(GAME_SCENE)
              && selectedCharacter == (if Truthy(old(selectedCharacter)) then old(selectedCharacter) else Some(DEFAULT_CHARACTER))
            else registryWsUrl == old(registryWsUrl) && next == old(next) && selectedCharacter == old(selectedCharacter))
    {
      if reply.Failed? {
        status := LOBBY_ERROR_MESSAGE;
        return;
      }
      var found := FindRoom(OrEmpty(reply.rooms), OrDefault(roomId, ""));
      shownRoom := found;
      if found.Some? {
        ShowRoom(found.value);
      }
    }

    /** What a poll does with the room it found: redraw the buttons, start
        the local countdown, and enter the game once the room runs. */
    method ShowRoom(room: RoomView)
      requires Valid() && polling
      modifies this`buttons, this`localCountdownStarted, this`localCountdown,
        this`countdownTimers, this`registryWsUrl, this`selectedCharacter, this`next, this`polling
      ensures Valid()
      ensures buttons == Buttons(OrEmpty(room.charactersTaken), if Truthy(old(selectedCharacter)) then old(selectedCharacter) else None)
      ensures if room.state == COUNTDOWN_STATE && !old(localCountdownStarted)
        then localCountdownStarted && localCountdown == Some(CountdownStart(room.countdown))
        else localCountdownStarted == old(localCountdownStarted) && localCountdown == old(localCountdown)
      ensures if room.state == RUNNING_STATE && Truthy(room.wsUrl)
        then registryWsUrl == room.wsUrl && next == Some(GAME_SCENE)
          && selectedCharacter == (if Truthy(old(selectedCharacter)) then old(selectedCharacter) else Some(DEFAULT_CHARACTER))
        else registryWsUrl == old(registryWsUrl) && next == old(next) && selectedCharacter == old(selectedCharacter)
    {
      var mine := if Truthy(selectedCharacter) then selectedCharacter else None;
      buttons := Buttons(OrEmpty(room.charactersTaken), mine);
      if room.state == COUNTDOWN_STATE {
        StartCountdown(CountdownStart(room.countdown));
      }
      if room.state == RUNNING_STATE && Truthy(room.wsUrl) {
        EnterGame(room.wsUrl);
      }
    }

    /** The countdown branch of a poll: the local countdown starts from the
        server's value the first time only. */
    method StartCountdown(serverCount: int)
      requires Valid()
      modifies this`localCountdownStarted, this`localCountdown, this`countdownTimers
      ensures Valid() && localCountdownStarted
      ensures localCountdown == if old(localCountdownStarted) then old(localCountdown) else Some(serverCount)
    {
      if !localCountdownStarted {
        localCountdownStarted := true;
        localCountdown := Some(serverCount);
        countdownTimers := countdownTimers + 1;
      }
    }

    /** The running branch of a poll: keep the game server's address, make
        sure a character is selected, and move on to the game. */
    method EnterGame(wsUrl: Option<string>)
      requires Valid() && polling
      modifies this`registryWsUrl, this`selectedCharacter, this`next, this`polling
      ensures Valid() && !polling
      ensures registryWsUrl == wsUrl && next == Some(GAME_SCENE)
      ensures selectedCharacter == if Truthy(old(selectedCharacter)) then old(selectedCharacter) else Some(DEFAULT_CHARACTER)
    {
      registryWsUrl := wsUrl;
      if !Truthy(selectedCharacter) {
        selectedCharacter := Some(DEFAULT_CHARACTER);
      }
      next := Some(GAME_SCENE);
      polling := false;
    }

    /** One firing of the one-second countdown timer. */
    method Tick()
      requires Valid() && polling && localCountdownStarted
      modifies this`localCountdown
      ensures Valid()
      ensures localCountdown == Some(Ticked(old(localCountdown).value))
    {
      if localCountdown.value > 0 {
        localCountdown := Some(localCountdown.value - 1);
      }
    }

    /** `n` firings of the countdown timer. */
    method RunTicks(n: nat)
      requires Valid() && polling && localCountdownStarted
      modifies this`localCountdown
      ensures Valid()
      ensures localCountdown == Some(AfterTicks(old(localCountdown).value, n))
    {
      var k := 0;
      while k < n
        invariant 0 <= k <= n
        invariant Valid() && polling && localCountdownStarted
        invariant localCountdown == Some(AfterTicks(old(localCountdown).value, k))
      {
        Tick();
        AfterTicksStep(old(localCountdown).value, k);
        k := k + 1;
      }
    }
  }

  /** `list || []` for an optional list. */
  function OrEmpty<T>(s: Option<seq<T>>): (r: seq<T>)
    ensures s.Some? ==> r == s.value
    ensures s.None? ==> r == []
  {
    if s.Some? then s.value else []
  }

  /** One more tick after `n` ticks. */
  lemma {:induction false} AfterTicksStep(c: int, n: nat)
    ensures AfterTicks(c, n + 1) == Ticked(AfterTicks(c, n))
  {
    if n > 0 {
      AfterTicksStep(Ticked(c), n - 1);
    }
  }
}
