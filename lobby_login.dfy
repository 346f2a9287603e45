/** The login screen: the username typed key by key into a bounded buffer,
    and the guard that keeps a blank name from ever reaching the lobby. */
module LobbyLogin {
  import opened Common

  const MAX_USERNAME := 16
  const EMPTY_NAME_MESSAGE := "Username cannot be empty."
  const LOGGING_IN_MESSAGE := "Logging in..."
  const LOGIN_FAILED_MESSAGE := "Login failed."
  const UNREACHABLE_MESSAGE := "Unable to reach lobby (5000)."
  const ROOM_LIST_SCENE := "RoomListScene"

  /** The characters JavaScript's `String.prototype.trim` removes: white
      space and line terminators. */
  predicate IsTrimmed(c: char)
  {
    c in TRIMMED || '\U{2000}' <= c <= '\U{200A}'
  }

  /** The white space and line terminators outside the range U+2000..U+200A. */
  const TRIMMED: set<char> := {
    '\t', '\n', '\U{000B}', '\U{000C}', '\r', ' ', '\U{00A0}', '\U{1680}',
    '\U{2028}', '\U{2029}', '\U{202F}', '\U{205F}', '\U{3000}', '\U{FEFF}'
  }

  /** The index of the first character at or after `i` that is not white
      space, or `|s|` when there is none. */
  function SkipBlank(s: string, i: nat): (k: nat)
    requires i <= |s|
    ensures i <= k <= |s|
    ensures forall j | i <= j < k :: IsTrimmed(s[j])
    ensures k == |s| || !IsTrimmed(s[k])
    decreases |s| - i
  {
    if i == |s| || !IsTrimmed(s[i]) then i else SkipBlank(s, i + 1)
  }

  /** The index just past the last character before `j` that is not white
      space, or 0 when there is none. */
  function SkipBlankBack(s: string, j: nat): (k: nat)
    requires j <= |s|
    ensures k <= j
    ensures forall m | k <= m < j :: IsTrimmed(s[m])
    ensures k == 0 || !IsTrimmed(s[k - 1])
  {
    if j == 0 || !IsTrimmed(s[j - 1]) then j else SkipBlankBack(s, j - 1)
  }

  /** `s.trim()`: `s` without its leading and trailing white space. */
  function Trim(s: string): (r: string)
    ensures r == [] || (!IsTrimmed(r[0]) && !IsTrimmed(r[|r| - 1]))
  {
    var a := SkipBlank(s, 0);
    if a == |s| then [] else s[a..SkipBlankBack(s, |s|)]
  }

  /** A name is blank after trimming exactly when every character of it is
      white space. */
  lemma TrimBlank(s: string)
    ensures Trim(s) == [] <==> forall i | 0 <= i < |s| :: IsTrimmed(s[i])
  {
    var a := SkipBlank(s, 0);
    if a < |s| {
      var b := SkipBlankBack(s, |s|);
      assert a < b;
    }
  }

  /** The trimmed name is the piece of the original between its leading and
      its trailing white space. */
  lemma TrimShape(s: string) returns (k: nat)
    ensures var r := Trim(s);
      && k + |r| <= |s| && r == s[k..k + |r|]
      && (forall i | 0 <= i < k :: IsTrimmed(s[i]))
      && (forall i | k + |r| <= i < |s| :: IsTrimmed(s[i]))
  {
    k := SkipBlank(s, 0);
    if k == |s| {
      k := 0;
    } else {
      var b := SkipBlankBack(s, |s|);
      assert k < b;
    }
  }

  /** Trimming twice is trimming once. */
  lemma TrimIdempotent(s: string)
    ensures Trim(Trim(s)) == Trim(s)
  {
    var r := Trim(s);
    if r != [] {
      assert SkipBlank(r, 0) == 0;
      assert SkipBlankBack(r, |r|) == |r|;
    }
  }

  /** How a login request ended. */
  datatype LoginReply =
    | Accepted(sessionId: string, username: string)
    | Refused        // the lobby answered with an error status
    | Unreachable    // the request or its body could not be read

  class LoginScreen {
    /** The name typed so far. */
    var username: string
    /** The status line. */
    var status: string
    /** The names sent to the lobby's `/login`, in order. */
    var requests: seq<string>
    /** Requests whose reply has not arrived. */
    var pending: nat
    /** The session stored for the next scenes, once logged in. */
    var session: Option<LoginReply>
    /** The scene started, if any. */
    var next: Option<string>

    ghost predicate Valid()
      reads this
    {
      |username| <= MAX_USERNAME && pending <= |requests|
    }

    constructor ()
      ensures Valid()
      ensures username == "" && status == "" && requests == [] && pending == 0
      ensures session == None && next == None
    {
      username := "";
      status := "";
      requests := [];
      pending := 0;
      session := None;
      next := None;
    }

    /** The keydown handler: Backspace drops the last character, Enter logs
        in, any other single-character key is appended while the name is
        shorter than MAX_USERNAME, and every other key is ignored. */
    method KeyDown(key: string)
      requires Valid()
      modifies this
      ensures Valid()
      ensures key == "Backspace" ==>
        username == (if old(username) == "" then "" else old(username)[..|old(username)| - 1])
      ensures key == "Enter" ==> username == old(username)
      ensures key != "Backspace" && key != "Enter" ==>
        username == (if |key| == 1 && |old(username)| < MAX_USERNAME then old(username) + key else old(username))
      ensures key != "Enter" ==> requests == old(requests) && status == old(status) && pending == old(pending)
      ensures key == "Enter" ==>
        var name := Trim(old(username));
        && requests == old(requests) + (if name == "" then [] else [name])
        && pending == old(pending) + (if name == "" then 0 else 1)
        && status == (if name == "" then EMPTY_NAME_MESSAGE else LOGGING_IN_MESSAGE)
      ensures session == old(session) && next == old(next)
    {
      if key == "Backspace" {
        if username != "" {
          username := username[..|username| - 1];
        }
      } else if key == "Enter" {
        Login();
      } else if |key| == 1 {
        if |username| < MAX_USERNAME {
          username := username + key;
        }
      }
    }

    /** `login`, up to the request: a name that is blank after trimming
        only sets the status line; any other name is sent, trimmed. */
    method Login()
      requires Valid()
      modifies this`status, this`requests, this`pending
      ensures Valid()
      ensures var name := Trim(username);
        && requests == old(requests) + (if name == "" then [] else [name])
        && pending == old(pending) + (if name == "" then 0 else 1)
        && status == (if name == "" then EMPTY_NAME_MESSAGE else LOGGING_IN_MESSAGE)
    {
      var name := Trim(username);
      if name == "" {
        status := EMPTY_NAME_MESSAGE;
        return;
      }
      status := LOGGING_IN_MESSAGE;
      requests := requests + [name];
      pending := pending + 1;
    }

    /** The rest of `login`, when the reply arrives: a refusal or a failure
        only sets the status line; an accepted login stores the session and
        moves on to the room list. */
    method OnLoginReply(reply: LoginReply)
      requires Valid() && pending > 0
      modifies this`status, this`pending, this`session, this`next
      ensures Valid()
      ensures pending == old(pending) - 1
      ensures reply.Accepted? ==> session == Some(reply) && next == Some(ROOM_LIST_SCENE) && status == old(status)
      ensures reply.Refused? ==> status == LOGIN_FAILED_MESSAGE && session == old(session) && next == old(next)
      ensures reply.Unreachable? ==> status == UNREACHABLE_MESSAGE && session == old(session) && next == old(next)
    {
      pending := pending - 1;
      match reply
      case Accepted(_, _) =>
        session := Some(reply);
        next := Some(ROOM_LIST_SCENE);
      case Refused =>
        status := LOGIN_FAILED_MESSAGE;
      case Unreachable =>
        status := UNREACHABLE_MESSAGE;
    }
  }

  /** A typed name is never blank when it reaches the lobby, and never
      longer than MAX_USERNAME. */
  method SentNamesAreClean(screen: LoginScreen, keys: seq<string>)
    requires screen.Valid()
    requires forall i | 0 <= i < |screen.requests| ::
      screen.requests[i] != "" && |screen.requests[i]| <= MAX_USERNAME
    modifies screen
    ensures screen.Valid()
    ensures forall i | 0 <= i < |screen.requests| ::
      screen.requests[i] != "" && |screen.requests[i]| <= MAX_USERNAME
  {
    var k := 0;
    while k < |keys|
      invariant 0 <= k <= |keys|
      invariant screen.Valid()
      invariant forall i | 0 <= i < |screen.requests| ::
        screen.requests[i] != "" && |screen.requests[i]| <= MAX_USERNAME
    {
      screen.KeyDown(keys[k]);
      k := k + 1;
    }
  }
}
