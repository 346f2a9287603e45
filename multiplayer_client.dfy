/** The browser's connection to the game server: the map of remote players
    it keeps in step with the server's `players_state` broadcasts, and the
    throttle on the moves it sends. Entries of the map are values, and an
    update replaces an entry with a new one; labels and other rendering are
    not modelled. */
module MultiplayerClient {
  import opened Common

  /** Minimum milliseconds between two `player_move` messages. */
  const SEND_INTERVAL_MS := 50
  const DEFAULT_CHARACTER := "blacky"
  const DEFAULT_USERNAME := "Player"

  /** `getCharacterLabel`: the display label of a character key; every
      unknown key shows as "Blacky". */
  function CharacterLabel(key: string): (shown: string)
    ensures shown in {"Blacky", "Pinky", "Alter Ego", "Green Thumb"}
    ensures shown == "Blacky" <==> key !in {"pinky", "alterEgo", "greenThumb"}
    ensures key == "pinky" ==> shown == "Pinky"
    ensures key == "alterEgo" ==> shown == "Alter Ego"
    ensures key == "greenThumb" ==> shown == "Green Thumb"
  {
    match key
    case "pinky" => "Pinky"
    case "alterEgo" => "Alter Ego"
    case "greenThumb" => "Green Thumb"
    case _ => "Blacky"
  }

  /** One entry of a `players_state` broadcast, as far as the client reads it. */
  datatype StateEntry = StateEntry(x: int, y: int, character: Option<string>)

  /** What the client sends to the game server. */
  datatype Outgoing =
    | PlayerJoin(id: string, username: string, character: string, x: int, y: int)
    | PlayerMove(x: int, y: int, score: int)

  /** Send times at least SEND_INTERVAL_MS apart, each after the previous. */
  ghost predicate Spaced(times: seq<int>)
  {
    forall i | 0 <= i < |times| - 1 :: times[i + 1] - times[i] >= SEND_INTERVAL_MS
  }

  /** Between any two sends, at least SEND_INTERVAL_MS per send in between
      has elapsed. */
  lemma {:induction false} SpacedGap(times: seq<int>, i: int, j: int)
    requires Spaced(times)
    requires 0 <= i <= j < |times|
    ensures times[j] - times[i] >= SEND_INTERVAL_MS * (j - i)
  {
    if i < j {
      SpacedGap(times, i, j - 1);
    }
  }

  /** A remote player's entry: position, character key, and the text of
      the name label drawn above it. */
  datatype RemoteEntry = RemoteEntry(x: int, y: int, character: string, labelText: string)

  /** The character key shown for a state entry: "blacky" when the server
      sent none. */
  function CharacterOf(d: StateEntry): string
  {
    OrDefault(d.character, DEFAULT_CHARACTER)
  }

  /** What the entry for `id` becomes when the state entry `d` is applied
      to `view`: a known entry takes the new position and character but
      keeps the label it was created with; a new entry is labelled from its
      character. */
  function Applied(view: map<string, RemoteEntry>, id: string, d: StateEntry): (e: RemoteEntry)
    ensures e.x == d.x && e.y == d.y && e.character == CharacterOf(d)
    ensures id in view ==> e.labelText == view[id].labelText
    ensures id !in view ==> e.labelText == CharacterLabel(CharacterOf(d))
  {
    if id in view then view[id].(x := d.x, y := d.y, character := CharacterOf(d))
    else RemoteEntry(d.x, d.y, CharacterOf(d), CharacterLabel(CharacterOf(d)))
  }

  /** The remote players after a `players_state` broadcast: ids gone from
      the state are dropped, the client's own id is left as it was, and
      every other id of the state shows the state's position and
      character. */
  function Reconcile(view: map<string, RemoteEntry>, state: map<string, StateEntry>, ownId: string)
    : (r: map<string, RemoteEntry>)
    ensures r.Keys == (view.Keys * state.Keys) + (state.Keys - {ownId})
    ensures forall id | id in r && id != ownId ::
      r[id].x == state[id].x && r[id].y == state[id].y && r[id].character == CharacterOf(state[id])
    ensures forall id | id in r && id != ownId ::
      r[id].labelText == if id in view then view[id].labelText else CharacterLabel(CharacterOf(state[id]))
    ensures ownId in r ==> ownId in view && r[ownId] == view[ownId]
  {
    map id | id in (view.Keys * state.Keys) + (state.Keys - {ownId}) ::
      if id == ownId then view[id] else Applied(view, id, state[id])
  }

  /** Applying the same broadcast twice changes nothing more. */
  lemma ReconcileIdempotent(view: map<string, RemoteEntry>, state: map<string, StateEntry>, ownId: string)
    ensures Reconcile(Reconcile(view, state, ownId), state, ownId) == Reconcile(view, state, ownId)
  {
  }

  /** When the client holds no entry for itself, the remote players are
      exactly the other ids of the state. */
  lemma ReconcileKeys(view: map<string, RemoteEntry>, state: map<string, StateEntry>, ownId: string)
    requires ownId !in view
    ensures Reconcile(view, state, ownId).Keys == state.Keys - {ownId}
  {
  }

  /** An entry whose label matches its character. */
  predicate Labelled(e: RemoteEntry)
  {
    e.labelText == CharacterLabel(e.character)
  }

  /** A player who changes character keeps the label of the character they
      had when first seen: "blacky" shown as "Blacky" turns into "pinky"
      still labelled "Blacky". */
  lemma LabelGoesStale()
    ensures var view := map["p" := RemoteEntry(0, 0, "blacky", "Blacky")];
      var r := Reconcile(view, map["p" := StateEntry(5, 7, Some("pinky"))], "me");
      && Labelled(view["p"])
      && r["p"] == RemoteEntry(5, 7, "pinky", "Blacky") && !Labelled(r["p"])
  {
    var view := map["p" := RemoteEntry(0, 0, "blacky", "Blacky")];
    var r := Reconcile(view, map["p" := StateEntry(5, 7, Some("pinky"))], "me");
    assert r["p"] == Applied(view, "p", StateEntry(5, 7, Some("pinky")));
  }

  /** Entries first seen in a broadcast are correctly labelled; a kept
      entry is exactly when its new character has the same label as its
      old one. */
  lemma ReconcileLabels(view: map<string, RemoteEntry>, state: map<string, StateEntry>, ownId: string)
    requires forall id | id in view :: Labelled(view[id])
    ensures var r := Reconcile(view, state, ownId);
      forall id | id in r :: Labelled(r[id]) <==>
        id !in view || id == ownId || CharacterLabel(view[id].character) == CharacterLabel(CharacterOf(state[id]))
  {
  }

  /** The ids `ids` of the state applied to `base`. */
  function Filled(base: map<string, RemoteEntry>, state: map<string, StateEntry>, ids: set<string>)
    : map<string, RemoteEntry>
    requires ids <= state.Keys
  {
    map id | id in ids :: Applied(base, id, state[id])
  }

  /** One more id applied. */
  lemma FilledStep(base: map<string, RemoteEntry>, state: map<string, StateEntry>, ids: set<string>, id: string)
    requires ids <= state.Keys && id in state && id !in ids
    ensures (base + Filled(base, state, ids))[id := Applied(base + Filled(base, state, ids), id, state[id])]
      == base + Filled(base, state, ids + {id})
  {
  }

  /** The entries of `view` whose id is still in the state. */
  function Kept(view: map<string, RemoteEntry>, state: map<string, StateEntry>): map<string, RemoteEntry>
  {
    map id | id in view && id in state :: view[id]
  }

  /** Dropping the ids gone from the state and then applying every other
      id of the state is the reconciliation. */
  lemma ReconcileInTwoPasses(view: map<string, RemoteEntry>, state: map<string, StateEntry>, ownId: string)
    ensures Reconcile(view, state, ownId) ==
      Kept(view, state) + Filled(Kept(view, state), state, state.Keys - {ownId})
  {
  }

  class Client {
    /** `socket.id` of the current connection. */
    var socketId: string
    /** A socket exists and is connected. */
    var connected: bool
    var lastSent: int
    /** Remote players by socket id. */
    var remotePlayers: map<string, RemoteEntry>
    /** Every message sent to the server. */
    var sent: seq<Outgoing>
    /** The times at which the `player_move` messages in `sent` went out. */
    ghost var sendTimes: seq<int>

    ghost predicate Valid()
      reads this
    {
      && Spaced(sendTimes)
      && (|sendTimes| > 0 ==> sendTimes[|sendTimes| - 1] == lastSent)
    }

    constructor ()
      ensures Valid()
      ensures !connected && lastSent == 0 && remotePlayers == map[] && sent == [] && sendTimes == []
    {
      socketId := "";
      connected := false;
      lastSent := 0;
      remotePlayers := map[];
      sent := [];
      sendTimes := [];
    }

    /** The `connect` event: the socket is up, and the client announces
        itself with `player_join` (username "Player" when none is stored). */
    method OnConnect(id: string, username: Option<string>, character: string, x: int, y: int)
      requires Valid()
      modifies this
      ensures Valid()
      ensures connected && socketId == id
      ensures sent == old(sent) + [PlayerJoin(id, OrDefault(username, DEFAULT_USERNAME), character, x, y)]
      ensures remotePlayers == old(remotePlayers) && lastSent == old(lastSent)
      ensures sendTimes == old(sendTimes)
    {
      connected := true;
      socketId := id;
      sent := sent + [PlayerJoin(id, OrDefault(username, DEFAULT_USERNAME), character, x, y)];
    }

    /** The `players_state` handler: a first loop drops the ids gone from
        the state, a second applies every other id of the state except the
        client's own. */
    method OnPlayersState(state: map<string, StateEntry>)
      requires Valid()
      modifies this`remotePlayers
      ensures Valid()
      ensures remotePlayers == Reconcile(old(remotePlayers), state, socketId)
    {
      DropLeft(state);
      ApplyAll(state);
      ReconcileInTwoPasses(old(remotePlayers), state, socketId);
    }

    /** The first loop of the `players_state` handler: every id not in the
        state is removed. */
    method DropLeft(state: map<string, StateEntry>)
      modifies this`remotePlayers
      ensures remotePlayers == Kept(old(remotePlayers), state)
    {
      var stale := remotePlayers.Keys;
      while stale != {}
        invariant stale <= old(remotePlayers).Keys
        invariant remotePlayers.Keys <= old(remotePlayers).Keys
        invariant forall id | id in old(remotePlayers) :: id in remotePlayers <==> id in stale || id in state
        invariant forall id | id in remotePlayers :: remotePlayers[id] == old(remotePlayers)[id]
        decreases stale
      {
        var id :| id in stale;
        if id !in state {
          remotePlayers := remotePlayers - {id};
        }
        stale := stale - {id};
      }
    }

    /** The second loop of the `players_state` handler: every id of the
        state except the client's own is added or updated. */
    method ApplyAll(state: map<string, StateEntry>)
      modifies this`remotePlayers
      ensures remotePlayers == old(remotePlayers) + Filled(old(remotePlayers), state, state.Keys - {socketId})
    {
      var todo := state.Keys;
      ghost var done: set<string> := {};
      while todo != {}
        invariant todo <= state.Keys && done <= state.Keys
        invariant forall k | k in state :: k in done <==> k !in todo && k != socketId
        invariant remotePlayers == old(remotePlayers) + Filled(old(remotePlayers), state, done)
        decreases todo
      {
        var id :| id in todo;
        if id != socketId {
          var data := state[id];
          var characterKey := OrDefault(data.character, DEFAULT_CHARACTER);
          FilledStep(old(remotePlayers), state, done, id);
          if id in remotePlayers {
            var entry := remotePlayers[id];
            remotePlayers := remotePlayers[id := entry.(x := data.x, y := data.y, character := characterKey)];
          } else {
            var entry := RemoteEntry(data.x, data.y, characterKey, CharacterLabel(characterKey));
            remotePlayers := remotePlayers[id := entry];
          }
          done := done + {id};
        }
        todo := todo - {id};
      }
      assert done == state.Keys - {socketId};
    }

    /** The `disconnect` event: every remote player is forgotten. */
    method OnDisconnect()
      requires Valid()
      modifies this
      ensures Valid()
      ensures remotePlayers == map[] && !connected
      ensures socketId == old(socketId) && lastSent == old(lastSent)
      ensures sent == old(sent) && sendTimes == old(sendTimes)
    {
      remotePlayers := map[];
      connected := false;
    }

    /** `sendPlayerUpdate`: nothing is sent without a connected socket or
        within SEND_INTERVAL_MS of the last send; otherwise one
        `player_move` goes out and `time` becomes the last send time. */
    method SendPlayerUpdate(x: int, y: int, time: int, score: int)
      requires Valid()
      modifies this
      ensures Valid()
      ensures var sends := connected && time - old(lastSent) >= SEND_INTERVAL_MS;
        && sent == old(sent) + (if sends then [PlayerMove(x, y, score)] else [])
        && sendTimes == old(sendTimes) + (if sends then [time] else [])
        && lastSent == (if sends then time else old(lastSent))
      ensures connected == old(connected) && socketId == old(socketId)
      ensures remotePlayers == old(remotePlayers)
    {
      if !connected {
        return;
      }
      if time - lastSent < SEND_INTERVAL_MS {
        return;
      }
      lastSent := time;
      sent := sent + [PlayerMove(x, y, score)];
      sendTimes := sendTimes + [time];
    }
  }
}
