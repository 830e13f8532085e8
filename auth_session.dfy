/** The session state of persistent-auth/src/App.tsx: the React state cells `username`, `password`,
    `error`, `timer`, `user` and `refreshed`, and the handlers that update them. The outcome of each
    call to the authentication service is passed in: `login` may resolve to a message, resolve to a
    user, or reject; `refreshAuth` may resolve or reject. */
module AuthSession {
  import opened Wrappers
  import opened SessionClock

  datatype LoginUser = LoginUser(
    email: string, firstName: string, gender: string, id: int,
    image: string, lastName: string, token: string, username: string)

  datatype LoginResult = Message(text: string) | LoggedIn(user: LoginUser) | Rejected
  datatype RefreshResult = Refreshed | RefreshRejected

  const NoUserMessage: string := "No user to refresh"

  class Session {
    var username: string
    var password: string
    var error: string
    var timer: int
    var user: Option<LoginUser>
    var refreshed: bool

    /** The countdown never shows more than ten minutes. */
    ghost predicate Valid()
      reads this
    {
      timer <= SessionSeconds
    }

    /** "Token refreshed" is shown to a logged-in user after a refresh, always next to the countdown. */
    function RefreshedNoticeShown(): (shown: bool)
      reads this
      ensures shown <==> CountdownText().Some? && refreshed
    {
      user.Some? && refreshed
    }

    /** The countdown line, shown only while a user is logged in. A non-negative timer reads back
        from the display, and in a valid session never as more than ten minutes. */
    function CountdownText(): (text: Option<string>)
      reads this
      ensures text.Some? <==> user.Some?
      ensures text.Some? && timer >= 0 ==> ParseClock(text.value) == Some(timer)
      ensures text.Some? && timer >= 0 && Valid() ==> ParseClock(text.value).value <= SessionSeconds
    {
      if user.Some? then Some(FormatTime(timer)) else None
    }

    constructor ()
      ensures username == "" && password == "" && error == ""
      ensures timer == SessionSeconds && user == None && !refreshed
      ensures Valid()
    {
      username, password, error := "", "", "";
      timer := SessionSeconds;
      user := None;
      refreshed := false;
    }

    /** The manual refresh button. Without a user it only reports the fact; otherwise a successful
        refresh restarts the countdown and marks the token refreshed, and a failed one logs out
        (without clearing `refreshed`). */
    method ManualRefresh(result: RefreshResult)
      requires Valid()
      modifies this
      ensures Valid()
      ensures username == old(username) && password == old(password)
      ensures old(user).None? ==>
        error == NoUserMessage && timer == old(timer) && user == None && refreshed == old(refreshed)
      ensures old(user).Some? && result == Refreshed ==>
        timer == SessionSeconds && refreshed && user == old(user) && error == old(error)
      ensures old(user).Some? && result == RefreshRejected ==>
        user == None && timer == old(timer) && refreshed == old(refreshed) && error == old(error)
    {
      if user.None? {
        error := NoUserMessage;
        return;
      }
      match result
      case Refreshed =>
        timer := SessionSeconds;
        refreshed := true;
      case RefreshRejected =>
        user := None;
    }

    /** The login button: `login(username, password)` is called with the typed credentials (returned
        here). A message is shown as the error; a user is stored and the error cleared; a rejected
        call leaves every cell as it was. */
    method DoLogin(result: LoginResult) returns (sentUsername: string, sentPassword: string)
      requires Valid()
      modifies this
      ensures Valid()
      ensures sentUsername == username == old(username) && sentPassword == password == old(password)
      ensures timer == old(timer) && refreshed == old(refreshed)
      ensures result.Message? ==> error == result.text && user == old(user)
      ensures result.LoggedIn? ==> user == Some(result.user) && error == ""
      ensures result.Rejected? ==> error == old(error) && user == old(user)
    {
      sentUsername, sentPassword := username, password;
      match result
      case Message(text) =>
        error := text;
      case LoggedIn(u) =>
        user := Some(u);
        error := "";
      case Rejected =>
    }

    /** The logout button: forget the user and the refresh notice. */
    method DoLogout()
      requires Valid()
      modifies this
      ensures Valid()
      ensures user == None && !refreshed
      ensures error == old(error) && timer == old(timer)
      ensures username == old(username) && password == old(password)
    {
      user := None;
      refreshed := false;
    }

    /** The effect that runs when `user` changes: without a user the countdown is reset to ten
        minutes (with one, it starts the one-second interval, whose body is `Tick`). */
    method UserEffect()
      requires Valid()
      modifies this`timer
      ensures Valid()
      ensures user.None? ==> timer == SessionSeconds
      ensures user.Some? ==> timer == old(timer)
    {
      if user.None? {
        timer := SessionSeconds;
      }
    }

    /** One tick of the countdown interval. Nothing stops it at zero. */
    method Tick()
      requires Valid()
      modifies this`timer
      ensures Valid()
      ensures timer == old(timer) - 1
    {
      timer := timer - 1;
    }

    /** The ten-minute auto-refresh: it does nothing without a user; a success marks the token
        refreshed (the countdown is NOT restarted); a failure clears the notice and logs out. */
    method AutoRefresh(result: RefreshResult)
      requires Valid()
      modifies this`refreshed, this`user
      ensures Valid()
      ensures old(user).None? ==> user == None && refreshed == old(refreshed)
      ensures old(user).Some? && result == Refreshed ==> user == old(user) && refreshed
      ensures old(user).Some? && result == RefreshRejected ==> user == None && !refreshed
    {
      if user.None? {
        return;
      }
      match result
      case Refreshed =>
        refreshed := true;
      case RefreshRejected =>
        refreshed := false;
        user := None;
    }
  }

  /** Logging in shows a countdown from 10:00; logging out hides it and, once the user effect has
      run, puts the countdown back to ten minutes. */
  method LoginLogout(u: LoginUser) returns (shownWhileIn: Option<string>, shownAfter: Option<string>, timerAfter: int)
    ensures shownWhileIn == Some("10:00")
    ensures shownAfter == None && timerAfter == SessionSeconds
  {
    var s := new Session();
    var _, _ := s.DoLogin(LoggedIn(u));
    s.UserEffect();
    shownWhileIn := s.CountdownText();
    FormatInitialTime();
    s.Tick();
    s.DoLogout();
    s.UserEffect();
    shownAfter := s.CountdownText();
    timerAfter := s.timer;
  }

  /** A failed manual refresh logs out but keeps `refreshed`, so the next login shows
      "Token refreshed" before any refresh has happened in that session. */
  method StaleRefreshedNotice(u: LoginUser, v: LoginUser) returns (shown: bool)
    ensures shown
  {
    var s := new Session();
    var _, _ := s.DoLogin(LoggedIn(u));
    s.ManualRefresh(Refreshed);
    s.ManualRefresh(RefreshRejected);
    var _, _ := s.DoLogin(LoggedIn(v));
    shown := s.RefreshedNoticeShown();
  }
}
