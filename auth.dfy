/**
 * The frontend's `AuthManager`: the held user (`currentUser`), the
 * browser storage it persists to, and the two-state anonymous/authenticated
 * machine driven by login, register, logout and reloading from storage.
 */
module Auth {
  import opened Wrappers
  import opened Entities
  import SessionCodec

  /** Storage keys. */
  const UserKey: string := "user"
  const TokenKey: string := "token"

  /** The browser storage: key to string value. */
  type Store = map<string, string>

  /** The whole auth state: the held user (`None` for null) and the storage. */
  datatype Session = Session(currentUser: Option<User>, store: Store)

  /**
   * A reply of the login or register endpoint. A reply without
   * `success: true` and a request that fails both arrive as `Rejected`,
   * carrying the message the source shows and rethrows.
   */
  datatype AuthResponse = Accepted(data: User) | Rejected(message: string)

  /** What submitting the register form leads to. */
  datatype FormOutcome = PasswordsDoNotMatch | Submitted(result: Result<User, string>)

  predicate LoggedIn(s: Session) {
    s.currentUser.Some?
  }

  // ---------------------------------------------------------------------------
  // getRoomProgress

  /** `progress.find(p => p.roomId === roomId)`: the first record of the room, if any. */
  function FindProgress(ps: seq<Progress>, roomId: string): (r: Option<Progress>)
    ensures r.None? <==> forall k :: 0 <= k < |ps| ==> ps[k].roomId != roomId
    ensures r.Some? ==> exists k :: 0 <= k < |ps| && ps[k] == r.value && FirstOfRoom(ps, roomId, k)
  {
    if ps == [] then None
    else if ps[0].roomId == roomId then
      assert FirstOfRoom(ps, roomId, 0);
      Some(ps[0])
    else
      var r := FindProgress(ps[1..], roomId);
      assert forall k :: 1 <= k < |ps| ==> ps[k] == ps[1..][k - 1];
      assert r.Some? ==> exists k :: 0 <= k < |ps| && ps[k] == r.value && FirstOfRoom(ps, roomId, k) by {
        if r.Some? {
          var k :| 0 <= k < |ps[1..]| && ps[1..][k] == r.value && FirstOfRoom(ps[1..], roomId, k);
          assert ps[k + 1] == r.value && FirstOfRoom(ps, roomId, k + 1);
        }
      }
      r
  }

  /** `ps[k]` is the first record of room `roomId`. */
  predicate FirstOfRoom(ps: seq<Progress>, roomId: string, k: nat) {
    k < |ps| && ps[k].roomId == roomId && forall j :: 0 <= j < k ==> ps[j].roomId != roomId
  }

  /** `getRoomProgress(roomId)` for the held user `user`. */
  function RoomProgress(user: Option<User>, roomId: string): (r: int)
    ensures r != 0 ==> user.Some? && user.value.progress.Some?
    ensures r != 0 ==> exists k: nat :: FirstOfRoom(user.value.progress.value, roomId, k)
                                && user.value.progress.value[k].progress == r
  {
    if user.None? || user.value.progress.None? then 0
    else
      match FindProgress(user.value.progress.value, roomId)
      case None => 0
      case Some(p) => p.progress
  }

  /** Anonymous, without a progress list, or without a record of the room: progress 0. */
  lemma RoomProgressWithoutRecord(user: Option<User>, roomId: string)
    requires user.None? || user.value.progress.None?
          || forall p :: p in user.value.progress.value ==> p.roomId != roomId
    ensures RoomProgress(user, roomId) == 0
  {
    if user.Some? && user.value.progress.Some? {
      var ps := user.value.progress.value;
      assert forall k :: 0 <= k < |ps| ==> ps[k] in ps;
    }
  }

  /** Otherwise the progress of the first record of the room. */
  lemma RoomProgressOfFirstRecord(u: User, ps: seq<Progress>, roomId: string, k: nat)
    requires u.progress == Some(ps)
    requires FirstOfRoom(ps, roomId, k)
    ensures RoomProgress(Some(u), roomId) == ps[k].progress
  {
    var r := FindProgress(ps, roomId);
    var k' :| 0 <= k' < |ps| && ps[k'] == r.value && FirstOfRoom(ps, roomId, k');
    assert k' == k;
  }

  // ---------------------------------------------------------------------------
  // Transitions

  /** `saveUser(u)`: hold `u`, store it under 'user' and its token under 'token'. */
  function Saved(s: Session, u: User): (t: Session)
    ensures t.currentUser == Some(u)
    ensures t.store.Keys == s.store.Keys + {UserKey, TokenKey}
    ensures t.store[TokenKey] == u.token
  {
    Session(Some(u), s.store[UserKey := SessionCodec.Stringify(u)][TokenKey := u.token])
  }

  /** `logout()`: drop the held user and remove 'user' and 'token'. */
  function LoggedOut(s: Session): (t: Session)
    ensures t.currentUser.None?
    ensures t.store.Keys == s.store.Keys - {UserKey, TokenKey}
  {
    Session(None, s.store - {UserKey, TokenKey})
  }

  /** `login`/`register` after the endpoint replied `r`. */
  function Answered(s: Session, r: AuthResponse): (t: Session)
    ensures LoggedIn(s) ==> LoggedIn(t)
    ensures s.store.Keys <= t.store.Keys
  {
    if r.Accepted? then Saved(s, r.data) else s
  }

  /** What `login`/`register` return or throw for the reply `r`. */
  function Reply(r: AuthResponse): Result<User, string> {
    if r.Accepted? then Success(r.data) else Failure(r.message)
  }

  /**
   * `loadUserFromStorage()`: nothing happens without a non-empty 'user' item;
   * a readable item becomes the held user; an unreadable one logs out.
   */
  function Loaded(s: Session): (t: Session)
    ensures t.store == s.store || t == LoggedOut(s)
    ensures LoggedIn(t) ==> LoggedIn(s) || UserKey in s.store
  {
    if UserKey !in s.store || s.store[UserKey] == "" then s
    else
      match SessionCodec.Parse(s.store[UserKey])
      case Some(u) => Session(Some(u), s.store)
      case None => LoggedOut(s)
  }

  // ---------------------------------------------------------------------------
  // Properties of the transitions

  /** Logging out always ends the session, removes both keys, keeps every other key, and is idempotent. */
  lemma LogoutEndsSession(s: Session, k: string)
    requires k != UserKey && k != TokenKey
    ensures !LoggedIn(LoggedOut(s))
    ensures UserKey !in LoggedOut(s).store && TokenKey !in LoggedOut(s).store
    ensures k in LoggedOut(s).store <==> k in s.store
    ensures k in s.store ==> LoggedOut(s).store[k] == s.store[k]
    ensures LoggedOut(LoggedOut(s)) == LoggedOut(s)
  {
    assert LoggedOut(s).store - {UserKey, TokenKey} == LoggedOut(s).store;
  }

  /** Saving a user holds it, stores it and its token, and leaves every other key as it was. */
  lemma SavedUserFrame(s: Session, u: User, k: string)
    requires k != UserKey && k != TokenKey
    ensures LoggedIn(Saved(s, u)) && Saved(s, u).currentUser == Some(u)
    ensures Saved(s, u).store[TokenKey] == u.token
    ensures SessionCodec.Parse(Saved(s, u).store[UserKey]) == Some(u)
    ensures k in Saved(s, u).store <==> k in s.store
    ensures k in s.store ==> Saved(s, u).store[k] == s.store[k]
  {
    SessionCodec.ParseStringify(u);
  }

  /**
   * The two-state machine: after a reply the session is authenticated exactly
   * when the reply succeeded or it already was; a success replaces the held
   * user wholesale, and a failure changes nothing.
   */
  lemma AnswerTransitions(s: Session, r: AuthResponse)
    ensures LoggedIn(Answered(s, r)) <==> r.Accepted? || LoggedIn(s)
    ensures r.Accepted? ==> Answered(s, r).currentUser == Some(r.data)
    ensures r.Rejected? ==> Answered(s, r) == s && Reply(r) == Failure(r.message)
  {
  }

  /** Loading right after saving finds the same user and changes nothing. */
  lemma LoadAfterSave(s: Session, u: User)
    ensures Loaded(Saved(s, u)) == Saved(s, u)
  {
    SessionCodec.ParseStringify(u);
  }

  /** After a page reload only the storage survives; loading from it restores the saved session. */
  lemma ReloadRestoresSession(s: Session, u: User)
    ensures Loaded(Session(None, Saved(s, u).store)) == Saved(s, u)
  {
    LoadAfterSave(Session(None, s.store), u);
  }

  /** An unreadable 'user' item is treated as a logout. */
  lemma CorruptUserLogsOut(s: Session)
    requires UserKey in s.store && s.store[UserKey] != ""
    requires SessionCodec.Parse(s.store[UserKey]) == None
    ensures Loaded(s) == LoggedOut(s)
    ensures !LoggedIn(Loaded(s))
  {
  }

  /** Without a non-empty 'user' item, loading changes nothing. */
  lemma LoadWithoutUserItem(s: Session)
    requires UserKey !in s.store || s.store[UserKey] == ""
    ensures Loaded(s) == s
  {
  }

  /**
   * A failed login ("Invalid credentials") leaves an anonymous session
   * anonymous and reports the message; the following successful login
   * authenticates with the returned user, persisted so that a reload finds it.
   */
  lemma FailedThenSuccessfulLogin(s0: Session, u: User)
    requires !LoggedIn(s0)
    ensures var s1 := Answered(s0, Rejected("Invalid credentials"));
      && s1 == s0 && !LoggedIn(s1)
      && Reply(Rejected("Invalid credentials")) == Failure("Invalid credentials")
      && var s2 := Answered(s1, Accepted(u));
         && LoggedIn(s2) && s2.currentUser == Some(u)
         && Loaded(Session(None, s2.store)).currentUser == Some(u)
  {
    ReloadRestoresSession(s0, u);
  }

  // ---------------------------------------------------------------------------
  // The manager object

  class AuthManager {
    var currentUser: Option<User>
    var storage: Store

    /** A fresh page: nobody is held yet, whatever the storage holds. */
    constructor (storage: Store)
      ensures State() == Session(None, storage)
    {
      this.currentUser := None;
      this.storage := storage;
    }

    function State(): Session
      reads this
    {
      Session(currentUser, storage)
    }

    /** `isLoggedIn()`. */
    function IsLoggedIn(): (r: bool)
      reads this
      ensures r <==> LoggedIn(State())
    {
      currentUser.Some?
    }

    /** `getRoomProgress(roomId)`. */
    function GetRoomProgress(roomId: string): (r: int)
      reads this
      ensures currentUser.None? ==> r == 0
      ensures r == RoomProgress(currentUser, roomId)
    {
      RoomProgress(currentUser, roomId)
    }

    /** `saveUser(userData)`. */
    method SaveUser(userData: User)
      modifies this
      ensures State() == Saved(old(State()), userData)
    {
      currentUser := Some(userData);
      storage := storage[UserKey := SessionCodec.Stringify(userData)];
      storage := storage[TokenKey := userData.token];
    }

    /** `logout()`. */
    method Logout()
      modifies this
      ensures State() == LoggedOut(old(State()))
    {
      ghost var before := storage;
      currentUser := None;
      storage := storage - {UserKey};
      storage := storage - {TokenKey};
      assert storage == before - {UserKey, TokenKey};
    }

    /**
     * `login(email, password)`; `response` is what the login endpoint
     * answered for these credentials.
     */
    method Login(email: string, password: string, response: AuthResponse) returns (result: Result<User, string>)
      modifies this
      ensures State() == Answered(old(State()), response)
      ensures result == Reply(response)
    {
      if response.Accepted? {
        SaveUser(response.data);
        result := Success(response.data);
      } else {
        result := Failure(response.message);
      }
    }

    /**
     * `register(name, email, password)`; `response` is what the register
     * endpoint answered.
     */
    method Register(name: string, email: string, password: string, response: AuthResponse)
      returns (result: Result<User, string>)
      modifies this
      ensures State() == Answered(old(State()), response)
      ensures result == Reply(response)
    {
      if response.Accepted? {
        SaveUser(response.data);
        result := Success(response.data);
      } else {
        result := Failure(response.message);
      }
    }

    /** `loadUserFromStorage()`. */
    method LoadUserFromStorage()
      modifies this
      ensures State() == Loaded(old(State()))
    {
      if UserKey in storage && storage[UserKey] != "" {
        var parsed := SessionCodec.Parse(storage[UserKey]);
        if parsed.Some? {
          currentUser := parsed;
        } else {
          Logout();
        }
      }
    }

    /**
     * Submitting the register form: a password that differs from its
     * confirmation stops before `register` is called; otherwise `register`
     * runs with the endpoint's `response`.
     */
    method SubmitRegisterForm(name: string, email: string, password: string, confirmPassword: string,
                              response: AuthResponse) returns (outcome: FormOutcome)
      modifies this
      ensures password != confirmPassword ==> State() == old(State()) && outcome == PasswordsDoNotMatch
      ensures password == confirmPassword ==>
        State() == Answered(old(State()), response) && outcome == Submitted(Reply(response))
    {
      if password != confirmPassword {
        return PasswordsDoNotMatch;
      }
      var result := Register(name, email, password, response);
      outcome := Submitted(result);
    }
  }
}
