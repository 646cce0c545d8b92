/** The login manager's methods and callbacks, each against its event of module LoginSession. */
module LoginManager {
  import opened Collections
  import opened LoginSession

  /** Fewer timers are still all the manager's own. */
  lemma OwnTimers(s: State, t: State)
    requires Inv(s) && t == s.(armed := t.armed)
    requires forall h :: h in t.armed ==> h in s.armed && t.armed[h] == s.armed[h]
    ensures TimersHeld(t)
  {
  }

  /** The overall timer ends the login with an error, the minimum time leads to a poll's timer, that to its query. */
  ghost predicate LeadsTo(timer: Timer, t: State)
  {
    match timer
    case Overall(_) =>
      Settled(t) && t.settled == [Failure(Error)] && t.statuses == [Status(Error, Some(t.login.providerId))]
    case MinTime(_) => Active(t) && t.pollId.Some? && t.pollId.value in t.armed && t.queries == [] && t.scripts == []
    case Poll(_) => Active(t) && t.queries == [t.login] && t.scripts == []
  }

  /** What a timer of an open login comes to. */
  lemma FiredTimer(s: State, h: nat)
    requires Inv(s) && h in s.armed
    ensures !s.completed
    ensures LeadsTo(s.armed[h], FireTimer(s, h))
  {
    FireKeeps(s, h);
  }

  /** Nothing is held between logins. */
  lemma BetweenLogins(s: State)
    requires Inv(s) && !Busy(s)
    ensures s.pollId.None? && s.timeoutId.None? && s.timeoutTimer.None? && s.armed == map[]
    ensures s.completed ==> Settled(s)
  {
  }

  class LoginManager {
    var provider: Option<string>
    var isCompleted: bool
    var window: Option<nat>
    var timeoutId: Option<nat>
    var timeoutTimer: Option<nat>
    var pollIntervalId: Option<nat>
    // the event loop, with what each callback closes over
    var armed: map<nat, Timer>
    var nextHandle: nat
    var queries: seq<Login>
    var scripts: seq<Script>
    var windows: map<nat, Login>
    // the latest login, and what its caller and the listeners saw of it
    var login: Login
    var settled: seq<Resolution>
    var statuses: seq<Status>

    constructor ()
      ensures Valid() && View() == IDLE
    {
      provider, isCompleted, window := None, false, None;
      timeoutId, timeoutTimer, pollIntervalId := None, None, None;
      armed, nextHandle, queries, scripts, windows := map[], 0, [], [], map[];
      login, settled, statuses := NO_LOGIN, [], [];
    }

    function View(): State
      reads this
    {
      State(provider, isCompleted, window, timeoutId, timeoutTimer, pollIntervalId,
            armed, nextHandle, queries, scripts, windows, login, settled, statuses)
    }

    ghost predicate Valid()
      reads this
    {
      Inv(View())
    }

    /** The promise has been resolved once, with r, after one such status; no timer and no provider is left. */
    ghost predicate EndedWith(status: Status, r: Resolution)
      reads this
    {
      Settled(View()) && settled == [r] && statuses == [status]
    }

    /**
     * started tells whether the returned promise is the session's own, not one that is refused at once. A refused call
     * leaves the login under way alone; a started one is under way with its timers, or has ended with an error.
     */
    method StartLogin(providerId: string, known: Option<Config>, opens: bool) returns (started: bool)
      requires Valid() && providerId != "" && (Busy(View()) || Drained(View()))
      modifies this
      ensures Valid() && View() == LoginSession.StartLogin(old(View()), providerId, known, opens)
      ensures started <==> known.Some? && !Busy(old(View()))
      ensures !started ==> View() == old(View())
      ensures started ==> login == Login(providerId, known.value)
      ensures started && opens ==> Active(View()) && provider == Some(providerId)
      ensures started && !opens ==> EndedWith(Status(Error, Some(providerId)), Failure(Error))
    {
      hide Inv, Active, Quiet, Settled, Clear;
      StepKeeps(View(), Start(providerId, known, opens));
      if provider.None? { BetweenLogins(View()); }
      if known.None? { return false; }
      if provider.Some? { return false; }
      provider, isCompleted := Some(providerId), false;
      login, settled, statuses := Login(providerId, known.value), [], [];
      if opens {
        OpenLoginWindow(login);
      } else {
        Finish(Status(Error, Some(providerId)), Failure(Error));
        BetweenLogins(View());
      }
      return true;
    }

    method OpenLoginWindow(l: Login)
      requires l == login && provider == Some(l.providerId) && !isCompleted && settled == [] && statuses == []
      requires Drained(View()) && pollIntervalId.None?
      modifies this
      ensures Active(View()) && View() == OpenWindow(old(View()), l)
    {
      hide Active;
      OpenWindowActive(View());
      window := Some(nextHandle);
      windows := windows[nextHandle := l];
      nextHandle := nextHandle + 1;
      var minTime := SetTimeout(MinTime(l));
      timeoutId := Some(minTime);
      var overall := SetTimeout(Overall(l));
      timeoutTimer := Some(overall);
    }

    method SetTimeout(timer: Timer) returns (handle: nat)
      modifies this`armed, this`nextHandle
      ensures handle == old(nextHandle) && nextHandle == old(nextHandle) + 1 && armed == old(armed)[handle := timer]
    {
      handle := nextHandle;
      armed, nextHandle := armed[handle := timer], nextHandle + 1;
    }

    method ClearTimeout(handle: Option<nat>)
      modifies this`armed
      ensures armed == Clear(old(armed), handle)
    {
      if handle.Some? { armed := armed - {handle.value}; }
    }

    /** Stops every timer that runs, provided the fields hold their handles. */
    method CleanUp()
      requires TimersHeld(View())
      modifies this
      ensures View() == Cleanup(old(View())) && armed == map[]
      ensures settled == old(settled) && statuses == old(statuses)
    {
      CleanupStops(View());
      hide Clear, TimersHeld;
      isCompleted, provider := true, None;
      ClearTimers();
      window := None;
    }

    method ClearTimers()
      modifies this`armed, this`timeoutId, this`timeoutTimer, this`pollIntervalId
      ensures armed == Clear(Clear(Clear(old(armed), old(timeoutId)), old(timeoutTimer)), old(pollIntervalId))
      ensures timeoutId == None && timeoutTimer == None && pollIntervalId == None
    {
      hide Clear;
      ClearTimeout(timeoutId);
      timeoutId := None;
      ClearTimeout(timeoutTimer);
      timeoutTimer := None;
      ClearTimeout(pollIntervalId);
      pollIntervalId := None;
    }

    /** Clean up, emit the terminal status, then resolve the promise. */
    method Finish(status: Status, r: Resolution)
      requires TimersHeld(View())
      modifies this
      ensures View() == Settle(old(View()), status, r) && armed == map[]
    {
      CleanUp();
      Conclude(status, r);
    }

    /** Emit the terminal status, then resolve the promise. */
    method Conclude(status: Status, r: Resolution)
      modifies this`settled, this`statuses
      ensures settled == old(settled) + [r] && statuses == old(statuses) + [status]
    {
      statuses := statuses + [status];
      settled := settled + [r];
    }

    /**
     * A timer's callback runs; the loop forgets the timer, the manager's field keeps its handle. Only the overall timer
     * ends the login; after another, exactly one step towards credentials is due again.
     */
    method OnTimer(handle: nat)
      requires Valid() && handle in armed
      modifies this
      ensures Valid() && View() == FireTimer(old(View()), handle)
      ensures LeadsTo(old(armed)[handle], View())
    {
      StepKeeps(View(), Fire(handle));
      FiredTimer(View(), handle);
      hide Inv, Active, Settled, TimersHeld, Clear, LeadsTo;
      OwnTimers(View(), View().(armed := armed - {handle}));
      var timer := armed[handle];
      armed := armed - {handle};
      if isCompleted { return; }
      match timer {
        case MinTime(l) => SchedulePoll(l);
        case Overall(l) =>
          Finish(Status(Error, Some(l.providerId)), Failure(Error));
        case Poll(l) => queries := queries + [l];
      }
    }

    method SchedulePoll(l: Login)
      modifies this
      ensures View() == ArmPoll(old(View()), l)
    {
      var handle := SetTimeout(Poll(l));
      pollIntervalId := Some(handle);
    }

    /** cookies.find for one source. */
    static method FindCookie(source: Source, cookies: seq<Cookie>) returns (value: Option<string>)
      ensures value == Found(source, cookies)
    {
      var i := 0;
      while i < |cookies|
        invariant i <= |cookies| && Found(source, cookies) == Found(source, cookies[i..])
      {
        if Matches(source, cookies[i]) { return Some(cookies[i].value); }
        i := i + 1;
      }
      return None;
    }

    static method GatherCookies(sources: seq<Source>, cookies: seq<Cookie>) returns (credentials: Credentials)
      ensures credentials == Gather(sources, cookies) && FromCookies(sources, cookies, credentials)
    {
      credentials := map[];
      for i := 0 to |sources|
        invariant credentials == Gather(sources[..i], cookies)
      {
        assert sources[..i + 1][..i] == sources[..i];
        var value := FindCookie(sources[i], cookies);
        if value.Some? { credentials := credentials[sources[i].name := value]; }
      }
      assert sources[..|sources|] == sources;
      GatheredFromCookies(sources, cookies);
    }

    /** What a cookie answer leads to; while the login is open, only all that it asks for can complete it. */
    method OnCookies(i: nat, cookies: seq<Cookie>)
      requires Valid() && i < |queries|
      modifies this
      ensures Valid() && View() == CookiesCame(old(View()), i, cookies)
      ensures settled == old(settled) ||
              (EndedWith(Status(Complete, Some(login.providerId)), settled[0]) && settled[0].Success? &&
               FromCookies(login.config.cookieSources, cookies, settled[0].credentials))
    {
      StepKeeps(View(), CookiesArrive(i, cookies));
      if !isCompleted { PollEnds(View(), i); }
      var l := queries[i];
      queries := Without(queries, i);
      if isCompleted { return; }
      var credentials := GatherCookies(l.config.cookieSources, cookies);
      GatherFits(l.config.cookieSources, cookies);
      if l.config.storageKeys != [] && window.Some? && window.value in windows {
        scripts := scripts + [Script(l, credentials)];
      } else {
        CheckCredentials(l, credentials);
      }
    }

    method OnCookiesFailed(i: nat)
      requires Valid() && i < |queries|
      modifies this
      ensures Valid() && View() == CookiesFailed(old(View()), i)
      ensures settled == old(settled) && (Busy(old(View())) ==> Active(View()))
    {
      StepKeeps(View(), CookiesFail(i));
      var l := queries[i];
      queries := Without(queries, i);
      if !isCompleted { SchedulePoll(l); }
    }

    /** A script's promise ends with values of its login's items, or without any when it was rejected. */
    method OnScript(i: nat, values: Credentials)
      requires Valid() && i < |scripts| && values.Keys <= Elems(scripts[i].login.config.storageKeys)
      modifies this
      ensures Valid() && View() == ScriptCame(old(View()), i, values)
      ensures settled == old(settled) || (EndedWith(Status(Complete, Some(login.providerId)), settled[0]) &&
                                          settled[0] == Success(old(scripts)[i].found + values))
    {
      StepKeeps(View(), ScriptDone(i, values));
      if !isCompleted { PollEnds(View(), i); }
      var script := scripts[i];
      scripts := Without(scripts, i);
      CheckCredentials(script.login, script.found + values);
    }

    /** Called when a poll has ended: the login ends with all credentials it asks for, or the next poll is due. */
    method CheckCredentials(l: Login, credentials: Credentials)
      requires isCompleted ||
        (Open(View()) && Due(View()) == 0 && l == login && credentials.Keys <= RequiredKeys(l.config))
      modifies this
      ensures View() == Check(old(View()), l, credentials)
      ensures old(isCompleted) ==> View() == old(View())
      ensures !old(isCompleted) ==>
        if credentials.Keys == RequiredKeys(l.config) && credentials != map[]
        then EndedWith(Status(Complete, Some(l.providerId)), Success(credentials))
        else Active(View()) && settled == [] && PollsOut(View()) == 1
    {
      if !isCompleted { CheckKeeps(View(), credentials); }
      if isCompleted { return; }
      if AllFound(l.config, credentials) {
        Finish(Status(Complete, Some(l.providerId)), Success(credentials));
      } else {
        SchedulePoll(l);
      }
    }

    /** A close ends an open login as cancelled, and changes nothing about one that has ended. */
    method OnClosed(w: nat)
      requires Valid() && w in windows
      modifies this
      ensures Valid() && View() == Closed(old(View()), w)
      ensures Busy(old(View())) ==> EndedWith(Status(Cancelled, old(provider)), Failure(Cancelled))
      ensures !Busy(old(View())) ==> View() == old(View()).(windows := old(windows) - {w})
    {
      StepKeeps(View(), WindowClosed(w));
      hide Clear;
      var l := windows[w];
      windows := windows - {w};
      if !isCompleted {
        Finish(Status(Cancelled, Some(l.providerId)), Failure(Cancelled));
      }
    }

    /** Cancelling ends the login under way, if there is one, and changes nothing otherwise; its status has no name. */
    method CancelLogin()
      requires Valid()
      modifies this
      ensures Valid() && View() == LoginSession.CancelLogin(old(View()))
      ensures Busy(old(View())) ==> EndedWith(Status(Cancelled, None), Failure(Cancelled))
      ensures !Busy(old(View())) ==> View() == old(View())
    {
      StepKeeps(View(), Cancel);
      if provider.None? { return; }
      CleanUp();
      Conclude(Status(Cancelled, provider), Failure(Cancelled));
    }
  }
}
