/** The in-app login session as interleaved events: timers, cookie polls, token scripts, window close and cancel. */
module LoginSession {
  import opened Collections

  /** A cookie to find; an empty domain matches any. */
  datatype Source = Source(name: string, domain: string)

  datatype Cookie = Cookie(name: string, domain: string, value: string)

  datatype Config = Config(cookieSources: seq<Source>, storageKeys: seq<string>)

  /** What the callbacks of one login close over. */
  datatype Login = Login(providerId: string, config: Config)

  /** Token values by name; a storage item that is absent reads as null, here None. */
  type Credentials = map<string, Option<string>>

  /** A running timer, with the login whose callback it runs. */
  datatype Timer = MinTime(login: Login) | Overall(login: Login) | Poll(login: Login)

  /** A storage script under way, with the cookies its poll has found. */
  datatype Script = Script(login: Login, found: Credentials)

  datatype Ending = Complete | Error | Cancelled

  /** A terminal status as emitted. */
  datatype Status = Status(ending: Ending, providerId: Option<string>)

  /** What the promise of a session is resolved with. */
  datatype Resolution = Success(credentials: Credentials) | Failure(why: Ending)

  /**
   * The manager's fields, then what the event loop still owes it: armed timers by handle, cookie queries and scripts
   * whose promises are open, windows whose closed event has not come. Each of these belongs to the login that caused
   * it, which need not be the present one. Then the latest login, and what was seen of it.
   */
  datatype State = State(
    provider: Option<string>, completed: bool, window: Option<nat>,
    timeoutId: Option<nat>, timeoutTimer: Option<nat>, pollId: Option<nat>,
    armed: map<nat, Timer>, next: nat, queries: seq<Login>, scripts: seq<Script>, windows: map<nat, Login>,
    login: Login, settled: seq<Resolution>, statuses: seq<Status>)

  const NO_LOGIN := Login("", Config([], []))

  const IDLE := State(None, false, None, None, None, None, map[], 0, [], [], map[], NO_LOGIN, [], [])

  // ----- finding credentials

  function DropDot(domain: string): string
  {
    if domain != "" && domain[0] == '.' then domain[1..] else domain
  }

  predicate Includes(s: string, part: string)
  {
    exists i :: 0 <= i <= |s| && part <= s[i..]
  }

  predicate Matches(source: Source, c: Cookie)
  {
    c.name == source.name && (source.domain == "" || Includes(c.domain, DropDot(source.domain)))
  }

  /** The value of the first matching cookie. */
  function Found(source: Source, cookies: seq<Cookie>): Option<string>
  {
    if cookies == [] then None
    else if Matches(source, cookies[0]) then Some(cookies[0].value)
    else Found(source, cookies[1..])
  }

  /** One entry per source that some cookie matches; of sources with one name the last found wins. */
  function Gather(sources: seq<Source>, cookies: seq<Cookie>): Credentials
  {
    if sources == [] then map[]
    else
      var front := Gather(sources[..|sources| - 1], cookies);
      var source := sources[|sources| - 1];
      var value := Found(source, cookies);
      if value.Some? then front[source.name := value] else front
  }

  function CookieNames(sources: seq<Source>): set<string>
  {
    set i | 0 <= i < |sources| :: sources[i].name
  }

  function RequiredKeys(config: Config): set<string>
  {
    CookieNames(config.cookieSources) + Elems(config.storageKeys)
  }

  predicate AllFound(config: Config, c: Credentials)
  {
    RequiredKeys(config) <= c.Keys && c != map[]
  }

  // ----- the manager's own steps

  function Clear(armed: map<nat, Timer>, id: Option<nat>): map<nat, Timer>
  {
    if id.Some? then armed - {id.value} else armed
  }

  /** _cleanup; closing a window that is still open only asks for its closed event. */
  function Cleanup(s: State): State
  {
    s.(completed := true, provider := None, window := None, timeoutId := None, timeoutTimer := None, pollId := None,
       armed := Clear(Clear(Clear(s.armed, s.timeoutId), s.timeoutTimer), s.pollId))
  }

  /** Emit the terminal status and call resolve. */
  function Settle(s: State, status: Status, r: Resolution): State
  {
    var c := Cleanup(s);
    c.(statuses := c.statuses + [status], settled := c.settled + [r])
  }

  function ArmPoll(s: State, login: Login): State
  {
    s.(pollId := Some(s.next), armed := s.armed[s.next := Poll(login)], next := s.next + 1)
  }

  /** _checkCredentials and _completeLogin, as the poll of a login calls them */
  function Check(s: State, login: Login, c: Credentials): State
  {
    if s.completed then s
    else if AllFound(login.config, c) then Settle(s, Status(Complete, Some(login.providerId)), Success(c))
    else ArmPoll(s, login)
  }

  // ----- events

  /** Cookie queries and scripts are answered in any order: which says whose turn it is. */
  datatype Event =
    | Start(providerId: string, known: Option<Config>, opens: bool)
    | Fire(timer: nat)
    | CookiesArrive(which: nat, cookies: seq<Cookie>)
    | CookiesFail(which: nat)
    | ScriptDone(which: nat, values: Credentials)
    | ScriptFail(which: nat)
    | WindowClosed(window: nat)
    | Cancel

  /** Nothing of an earlier session is still to come. */
  predicate Drained(s: State)
  {
    s.armed == map[] && s.queries == [] && s.scripts == [] && s.windows == map[]
  }

  predicate Busy(s: State)
  {
    s.provider.Some?
  }

  /**
   * The event can happen now; a new login starts when the previous one's callbacks are through. A script reads storage
   * items of its login only.
   */
  predicate Enabled(s: State, e: Event): (r: bool)
    ensures r ==> Pending(s, e)
  {
    Pending(s, e) && (e.Start? ==> Busy(s) || Drained(s))
  }

  predicate Pending(s: State, e: Event)
  {
    match e
    case Start(providerId, _, _) => providerId != ""
    case Fire(timer) => timer in s.armed
    case CookiesArrive(i, _) => i < |s.queries|
    case CookiesFail(i) => i < |s.queries|
    case ScriptDone(i, values) => i < |s.scripts| && values.Keys <= Elems(s.scripts[i].login.config.storageKeys)
    case ScriptFail(i) => i < |s.scripts|
    case WindowClosed(w) => w in s.windows
    case Cancel => true
  }

  /** startLogin: refused while busy or for an unknown provider; a window that fails to open settles at once. */
  function StartLogin(s: State, providerId: string, known: Option<Config>, opens: bool): State
  {
    if known.None? || Busy(s) then s
    else
      var login := Login(providerId, known.value);
      var t := s.(provider := Some(providerId), completed := false, login := login, settled := [], statuses := []);
      if !opens then Settle(t, Status(Error, Some(providerId)), Failure(Error)) else OpenWindow(t, login)
  }

  /** _openLoginWindow: the window and the two timers. */
  function OpenWindow(t: State, login: Login): State
  {
    t.(window := Some(t.next), windows := t.windows[t.next := login],
       timeoutId := Some(t.next + 1), timeoutTimer := Some(t.next + 2),
       armed := t.armed[t.next + 1 := MinTime(login)][t.next + 2 := Overall(login)], next := t.next + 3)
  }

  function FireTimer(s: State, timer: nat): State
    requires timer in s.armed
  {
    var t := s.(armed := s.armed - {timer});
    if t.completed then t
    else
      match s.armed[timer]
      case MinTime(login) => ArmPoll(t, login)
      case Overall(login) => Settle(t, Status(Error, Some(login.providerId)), Failure(Error))
      case Poll(login) => t.(queries := t.queries + [login])
  }

  function Without<T>(s: seq<T>, i: nat): seq<T>
    requires i < |s|
  {
    s[..i] + s[i + 1..]
  }

  /** The poll looks for its own login's cookies, but its script runs in whatever window the manager has now. */
  function CookiesCame(s: State, i: nat, cookies: seq<Cookie>): State
    requires i < |s.queries|
  {
    var login := s.queries[i];
    var t := s.(queries := Without(s.queries, i));
    if t.completed then t
    else
      var c := Gather(login.config.cookieSources, cookies);
      if login.config.storageKeys != [] && t.window.Some? && t.window.value in t.windows
      then t.(scripts := t.scripts + [Script(login, c)])
      else Check(t, login, c)
  }

  function CookiesFailed(s: State, i: nat): State
    requires i < |s.queries|
  {
    var t := s.(queries := Without(s.queries, i));
    if t.completed then t else ArmPoll(t, s.queries[i])
  }

  /** What an executed script finds overrides what the cookies gave. */
  function ScriptCame(s: State, i: nat, values: Credentials): State
    requires i < |s.scripts|
  {
    Check(s.(scripts := Without(s.scripts, i)), s.scripts[i].login, s.scripts[i].found + values)
  }

  function Closed(s: State, w: nat): State
    requires w in s.windows
  {
    var t := s.(windows := s.windows - {w});
    if t.completed then t
    else Settle(t, Status(Cancelled, Some(s.windows[w].providerId)), Failure(Cancelled))
  }

  /** cancel: the status is emitted after the provider was cleared. */
  function CancelLogin(s: State): State
  {
    if Busy(s) then Settle(s, Status(Cancelled, None), Failure(Cancelled)) else s
  }

  function Next(s: State, e: Event): State
    requires Pending(s, e)
  {
    match e
    case Start(providerId, known, opens) => StartLogin(s, providerId, known, opens)
    case Fire(timer) => FireTimer(s, timer)
    case CookiesArrive(i, cookies) => CookiesCame(s, i, cookies)
    case CookiesFail(i) => CookiesFailed(s, i)
    case ScriptDone(i, values) => ScriptCame(s, i, values)
    case ScriptFail(i) => ScriptCame(s, i, map[])
    case WindowClosed(w) => Closed(s, w)
    case Cancel => CancelLogin(s)
  }

  predicate Possible(s: State, events: seq<Event>)
    decreases |events|
  {
    events == [] || (Enabled(s, events[0]) && Possible(Next(s, events[0]), events[1..]))
  }

  function Run(s: State, events: seq<Event>): State
    requires Possible(s, events)
    decreases |events|
  {
    if events == [] then s else Run(Next(s, events[0]), events[1..])
  }

  // ----- the invariant

  /** The polls under way: an armed poll timer, open queries and scripts. */
  function PollsOut(s: State): nat
  {
    (if s.pollId.Some? && s.pollId.value in s.armed then 1 else 0) + |s.queries| + |s.scripts|
  }

  function Waiting(s: State): nat
  {
    if s.timeoutId.Some? && s.timeoutId.value in s.armed then 1 else 0
  }

  /** How many steps towards credentials are due: the minimum time to pass, or a poll. */
  function Due(s: State): nat
  {
    Waiting(s) + PollsOut(s)
  }

  /** The field that holds the handle of a timer of this kind. */
  function HandleOf(s: State, timer: Timer): Option<nat>
  {
    match timer
    case MinTime(_) => s.timeoutId
    case Overall(_) => s.timeoutTimer
    case Poll(_) => s.pollId
  }

  predicate NullFree(c: Credentials)
  {
    forall k :: k in c ==> c[k].Some?
  }

  /** A script runs for a login with storage items, and holds values of its cookies. */
  predicate ScriptFits(script: Script)
  {
    script.login.config.storageKeys != [] && NullFree(script.found) &&
    script.found.Keys <= CookieNames(script.login.config.cookieSources)
  }

  /** Whatever is owed is owed to the present login. */
  ghost predicate AllOwn(s: State)
  {
    (forall h :: h in s.armed ==>
       h < s.next && Some(h) == HandleOf(s, s.armed[h]) && s.armed[h].login == s.login) &&
    (forall i :: 0 <= i < |s.queries| ==> s.queries[i] == s.login) &&
    (forall i :: 0 <= i < |s.scripts| ==> s.scripts[i].login == s.login && ScriptFits(s.scripts[i]))
  }

  /** A login is under way: its promise is open, its window and overall timer are there, all that is owed is its own. */
  ghost predicate Open(s: State)
  {
    s.provider == Some(s.login.providerId) && !s.completed && s.settled == [] && s.statuses == [] &&
    s.window.Some? && s.window.value < s.next && s.windows == map[s.window.value := s.login] &&
    s.timeoutTimer.Some? && s.timeoutTimer.value in s.armed && s.armed[s.timeoutTimer.value] == Overall(s.login) &&
    (s.timeoutId.Some? ==> s.timeoutId.value < s.next) && (s.pollId.Some? ==> s.pollId.value < s.next) &&
    AllOwn(s)
  }

  ghost predicate Active(s: State)
  {
    Open(s) && Due(s) == 1
  }

  /** A success has exactly the credentials the login asks for; only a cancelled one may go without its provider. */
  ghost predicate Agrees(login: Login, status: Status, r: Resolution)
  {
    match r
    case Success(c) =>
      status == Status(Complete, Some(login.providerId)) && c.Keys == RequiredKeys(login.config) && c != map[]
    case Failure(why) =>
      why != Complete &&
      (status == Status(why, Some(login.providerId)) || (why == Cancelled && status == Status(why, None)))
  }

  /** After settlement no timer is held or armed, no provider is active, and at most one poll is still to drain. */
  ghost predicate Quiet(s: State)
  {
    s.provider.None? && s.window.None? && s.timeoutId.None? && s.timeoutTimer.None? && s.pollId.None? &&
    s.armed == map[] && PollsOut(s) <= 1 && |s.settled| == |s.statuses| <= 1 &&
    (forall i :: 0 <= i < |s.scripts| ==> ScriptFits(s.scripts[i])) && (forall w :: w in s.windows ==> w < s.next) &&
    (s.completed <==> |s.settled| == 1) && (s.completed || Drained(s)) &&
    (s.completed ==> Agrees(s.login, s.statuses[0], s.settled[0]))
  }

  ghost predicate Inv(s: State)
  {
    Active(s) || Quiet(s)
  }

  /** Whatever timers run, they are the manager's own. */
  ghost predicate TimersHeld(s: State)
  {
    forall h :: h in s.armed ==> Some(h) == HandleOf(s, s.armed[h])
  }

  lemma CleanupStops(s: State)
    requires TimersHeld(s)
    ensures Cleanup(s).armed == map[]
  {
    assert forall h :: h in Cleanup(s).armed ==> h in s.armed;
  }

  lemma SettleQuiet(s: State, t: State, status: Status, r: Resolution)
    requires Open(s) && Agrees(s.login, status, r)
    requires t == s.(armed := t.armed, queries := t.queries, scripts := t.scripts, windows := t.windows)
    requires forall h :: h in t.armed ==> h in s.armed && t.armed[h] == s.armed[h]
    requires forall w :: w in t.windows ==> w in s.windows
    requires forall i :: 0 <= i < |t.scripts| ==> ScriptFits(t.scripts[i])
    requires |t.queries| + |t.scripts| <= 1
    ensures Quiet(Settle(t, status, r))
  {
    CleanupStops(t);
  }

  lemma PollArmed(t: State)
    requires Open(t) && Due(t) == 0
    ensures Active(ArmPoll(t, t.login))
  {
  }

  lemma FireKeeps(s: State, timer: nat)
    requires Active(s) && timer in s.armed
    ensures Inv(FireTimer(s, timer))
  {
    var t := s.(armed := s.armed - {timer});
    match s.armed[timer] {
      case Overall(_) => SettleQuiet(s, t, Status(Error, s.provider), Failure(Error));
      case MinTime(_) => PollArmed(t);
      case Poll(_) =>
    }
  }

  lemma CheckKeeps(t: State, c: Credentials)
    requires Open(t) && Due(t) == 0 && c.Keys <= RequiredKeys(t.login.config)
    ensures Inv(Check(t, t.login, c))
  {
    if AllFound(t.login.config, c) {
      SettleQuiet(t, t, Status(Complete, t.provider), Success(c));
    } else {
      PollArmed(t);
    }
  }

  /** The poll under way belongs to the present login, and when it ends nothing else is due. */
  lemma PollEnds(s: State, i: nat)
    requires Active(s)
    ensures i < |s.queries| ==>
      var t := s.(queries := Without(s.queries, i));
      s.queries[i] == s.login && t.queries == [] && Open(t) && Due(t) == 0 && s.scripts == []
    ensures i < |s.scripts| ==>
      var t := s.(scripts := Without(s.scripts, i));
      s.scripts[i].login == s.login && ScriptFits(s.scripts[i]) && t.scripts == [] && Open(t) && Due(t) == 0
  {
  }

  lemma ScriptStarts(s: State, c: Credentials)
    requires Open(s) && Due(s) == 0 && ScriptFits(Script(s.login, c))
    ensures Active(s.(scripts := s.scripts + [Script(s.login, c)]))
  {
  }

  lemma CookiesKeep(s: State, i: nat, cookies: seq<Cookie>)
    requires Active(s) && i < |s.queries|
    ensures Inv(CookiesCame(s, i, cookies))
  {
    hide Open, Due, Gather, Quiet, Check;
    var t, c := s.(queries := Without(s.queries, i)), Gather(s.login.config.cookieSources, cookies);
    PollEnds(s, i);
    GatherFits(s.login.config.cookieSources, cookies);
    if s.login.config.storageKeys != [] { ScriptStarts(t, c); }
    CheckKeeps(t, c);
  }

  lemma ScriptKeeps(s: State, i: nat, values: Credentials)
    requires Active(s) && i < |s.scripts| && values.Keys <= Elems(s.scripts[i].login.config.storageKeys)
    ensures Inv(ScriptCame(s, i, values))
  {
    hide Open, Due, Quiet, Check, Inv;
    PollEnds(s, i);
    CheckKeeps(s.(scripts := Without(s.scripts, i)), s.scripts[i].found + values);
  }

  lemma CloseKeeps(s: State, w: nat)
    requires Active(s) && w in s.windows
    ensures Inv(Closed(s, w))
  {
    SettleQuiet(s, s.(windows := s.windows - {w}), Status(Cancelled, s.provider), Failure(Cancelled));
  }

  lemma CancelKeeps(s: State)
    requires Active(s)
    ensures Inv(CancelLogin(s))
  {
    SettleQuiet(s, s, Status(Cancelled, None), Failure(Cancelled));
  }

  lemma FailureKeeps(s: State, i: nat)
    requires Active(s) && i < |s.queries|
    ensures Inv(CookiesFailed(s, i))
  {
    PollEnds(s, i);
    PollArmed(s.(queries := Without(s.queries, i)));
  }

  /** Every event of an active session keeps it active or settles it. */
  lemma ActiveKeeps(s: State, e: Event)
    requires Active(s) && Enabled(s, e)
    ensures Inv(Next(s, e))
  {
    hide Open, Quiet, FireTimer, CookiesCame, CookiesFailed, ScriptCame, Closed, CancelLogin;
    match e
    case Start(_, _, _) => ActiveIsBusy(s);
    case Fire(timer) => FireKeeps(s, timer);
    case CookiesArrive(i, cookies) => CookiesKeep(s, i, cookies);
    case CookiesFail(i) => FailureKeeps(s, i);
    case ScriptDone(i, values) => ScriptKeeps(s, i, values);
    case ScriptFail(i) => ScriptKeeps(s, i, map[]);
    case WindowClosed(w) => CloseKeeps(s, w);
    case Cancel => CancelKeeps(s);
  }

  lemma ActiveIsBusy(s: State)
    requires Active(s)
    ensures Busy(s)
  {
  }

  lemma StartKeeps(s: State, providerId: string, config: Config, opens: bool)
    requires Quiet(s) && Drained(s)
    ensures Inv(StartLogin(s, providerId, Some(config), opens))
  {
    var login := Login(providerId, config);
    if opens { OpenWindowActive(s.(provider := Some(providerId), completed := false, login := login, settled := [],
                                   statuses := [])); }
  }

  lemma OpenWindowActive(t: State)
    requires t.provider == Some(t.login.providerId) && !t.completed && t.settled == [] && t.statuses == []
    requires Drained(t) && t.pollId.None?
    ensures Active(OpenWindow(t, t.login))
  {
  }

  lemma QuietKeeps(s: State, e: Event)
    requires Quiet(s) && Enabled(s, e)
    ensures Inv(Next(s, e))
  {
    match e
    case Start(providerId, known, opens) => if known.Some? { StartKeeps(s, providerId, known.value, opens); }
    case _ =>
  }

  lemma {:induction false} RunKeeps(s: State, events: seq<Event>)
    requires Inv(s) && Possible(s, events)
    ensures Inv(Run(s, events))
    decreases |events|
  {
    hide Inv, Active, Quiet, Next, Enabled;
    if events == [] {
    } else {
      StepKeeps(s, events[0]);
      RunKeeps(Next(s, events[0]), events[1..]);
    }
  }

  lemma StepKeeps(s: State, e: Event)
    requires Inv(s) && Enabled(s, e)
    ensures Inv(Next(s, e))
  {
    hide Active, Quiet, Next, Enabled;
    if Active(s) { ActiveKeeps(s, e); } else { QuietKeeps(s, e); }
  }

  // ----- what follows

  ghost predicate Settled(s: State)
  {
    s.completed && |s.settled| == 1 && |s.statuses| == 1 && Agrees(s.login, s.statuses[0], s.settled[0]) &&
    s.provider.None? && s.armed == map[] && s.timeoutId.None? && s.timeoutTimer.None? && s.pollId.None?
  }

  /**
   * Under every interleaving: at most one poll is outstanding; an active session is unresolved and has its overall
   * timer running; any other is resolved once, with its own credentials or a failure and one matching terminal status,
   * holds and arms no timer, and has no active provider.
   */
  lemma SettlesOnce(events: seq<Event>)
    requires Possible(IDLE, events)
    ensures var s := Run(IDLE, events);
      PollsOut(s) <= 1 &&
      (Busy(s) ==> s.settled == [] && s.statuses == [] && s.timeoutTimer.Some? && s.timeoutTimer.value in s.armed) &&
      (!Busy(s) && s.completed ==> Settled(s)) && (!Busy(s) && !s.completed ==> Drained(s))
  {
    RunKeeps(IDLE, events);
  }

  /** When nothing is left to happen, no session is open: every login that began has been resolved. */
  lemma ExhaustedIsSettled(events: seq<Event>)
    requires Possible(IDLE, events) && Drained(Run(IDLE, events))
    ensures !Busy(Run(IDLE, events))
  {
    RunKeeps(IDLE, events);
  }

  /** Once settled, late callbacks change neither the resolution nor the status, and arm nothing. */
  lemma LateCallbacksIdle(s: State, e: Event)
    requires Quiet(s) && s.completed && Enabled(s, e) && !e.Start?
    ensures var t := Next(s, e);
      t.settled == s.settled && t.statuses == s.statuses && t.armed == map[] && t.next == s.next && t.completed &&
      PollsOut(t) <= PollsOut(s)
  {
  }

  /** In every run, the status that ends a login names its provider exactly unless it was ended by cancel. */
  lemma StatusNamesProviderIff(events: seq<Event>, e: Event)
    requires Possible(IDLE, events) && Enabled(Run(IDLE, events), e)
    requires Busy(Run(IDLE, events)) && Next(Run(IDLE, events), e).completed
    ensures var s, t := Run(IDLE, events), Next(Run(IDLE, events), e);
      |t.statuses| == 1 && (t.statuses[0].providerId == Some(s.login.providerId) <==> !e.Cancel?)
  {
    hide Run, Active, Next;
    RunKeeps(IDLE, events);
    EndingStatus(Run(IDLE, events), e);
  }

  lemma EndingStatus(s: State, e: Event)
    requires Inv(s) && Busy(s) && Enabled(s, e) && Next(s, e).completed
    ensures |Next(s, e).statuses| == 1
    ensures Next(s, e).statuses[0].providerId == Some(s.login.providerId) <==> !e.Cancel?
  {
    hide AllFound, Gather;
  }

  /** Some source of this name has a matching cookie. */
  ghost predicate NameFound(sources: seq<Source>, name: string, cookies: seq<Cookie>)
  {
    exists j :: 0 <= j < |sources| && sources[j].name == name && Found(sources[j], cookies).Some?
  }

  /** A cookie query completes the session exactly when each cookie source's name is found and there are no others. */
  lemma CompletesOnCookiesIff(s: State, i: nat, cookies: seq<Cookie>)
    requires Active(s) && i < |s.queries|
    ensures CookiesCame(s, i, cookies).completed <==>
      (s.login.config.storageKeys == [] && s.login.config.cookieSources != [] &&
       forall j :: 0 <= j < |s.login.config.cookieSources| ==>
         NameFound(s.login.config.cookieSources, s.login.config.cookieSources[j].name, cookies))
  {
    hide Gather, NameFound, AllFound;
    if s.login.config.storageKeys == [] { CookiesSufficeIff(s.login.config, cookies); }
  }

  /** The cookies of a poll are all its login asks for exactly when each source's name is found, and there is one. */
  lemma CookiesSufficeIff(config: Config, cookies: seq<Cookie>)
    requires config.storageKeys == []
    ensures AllFound(config, Gather(config.cookieSources, cookies)) <==>
      config.cookieSources != [] &&
      forall j :: 0 <= j < |config.cookieSources| ==>
        NameFound(config.cookieSources, config.cookieSources[j].name, cookies)
  {
    hide NameFound, Gather;
    var sources := config.cookieSources;
    var c := Gather(sources, cookies);
    GatherKeys(sources, cookies);
    forall j | 0 <= j < |sources| ensures sources[j].name in RequiredKeys(config) {
    }
    assert RequiredKeys(config) <= c.Keys <==>
      forall j :: 0 <= j < |sources| ==> NameFound(sources, sources[j].name, cookies);
    if sources != [] && c == map[] {
      assert sources[0].name !in c && !NameFound(sources, sources[0].name, cookies);
    }
    if sources == [] { NoSources(cookies); }
  }

  ghost predicate FirstMatch(source: Source, cookies: seq<Cookie>, i: nat)
  {
    i < |cookies| && Matches(source, cookies[i]) && forall j :: 0 <= j < i ==> !Matches(source, cookies[j])
  }

  /** A source's value is that of the first cookie with its name on its domain, if there is one. */
  lemma {:induction false} FoundIsFirst(source: Source, cookies: seq<Cookie>, i: nat)
    ensures FirstMatch(source, cookies, i) ==> Found(source, cookies) == Some(cookies[i].value)
    ensures Found(source, cookies).None? <==> forall j :: 0 <= j < |cookies| ==> !Matches(source, cookies[j])
  {
    hide Matches;
    if cookies == [] {
    } else {
      FoundIsFirst(source, cookies[1..], if i > 0 then i - 1 else 0);
      assert forall j :: 0 < j < |cookies| ==> cookies[1..][j - 1] == cookies[j];
      if FirstMatch(source, cookies, i) && i > 0 { assert FirstMatch(source, cookies[1..], i - 1); }
    }
  }

  lemma NoSources(cookies: seq<Cookie>)
    ensures Gather([], cookies) == map[]
  {
  }

  lemma {:induction false} GatherKeys(sources: seq<Source>, cookies: seq<Cookie>)
    ensures forall k :: k in Gather(sources, cookies) <==> NameFound(sources, k, cookies)
    decreases |sources|
  {
    if sources == [] {
    } else {
      var n := |sources| - 1;
      GatherKeys(sources[..n], cookies);
      forall k ensures NameFound(sources, k, cookies) <==>
        NameFound(sources[..n], k, cookies) || (sources[n].name == k && Found(sources[n], cookies).Some?)
      {
        if NameFound(sources[..n], k, cookies) {
          var j :| 0 <= j < n && sources[..n][j].name == k && Found(sources[..n][j], cookies).Some?;
          assert sources[j] == sources[..n][j];
        }
        if j :| 0 <= j < |sources| && sources[j].name == k && Found(sources[j], cookies).Some? && j < n {
          assert sources[..n][j] == sources[j];
        }
      }
    }
  }

  /** The source asks for this cookie: its name, on a domain that contains the source's without its leading dot. */
  ghost predicate Wants(source: Source, c: Cookie)
  {
    c.name == source.name &&
    (source.domain == "" ||
     Contains(c.domain, if source.domain[0] == '.' then source.domain[1..] else source.domain))
  }

  ghost predicate Contains(s: string, part: string)
  {
    exists a, b :: s == a + part + b
  }

  lemma MatchesIff(source: Source, c: Cookie)
    ensures Matches(source, c) <==> Wants(source, c)
  {
    var d := DropDot(source.domain);
    if source.domain != "" {
      if i :| 0 <= i <= |c.domain| && d <= c.domain[i..] {
        assert c.domain == c.domain[..i] + d + c.domain[i + |d|..];
      }
      if a, b :| c.domain == a + d + b {
        assert c.domain[|a|..] == d + b;
        assert d <= c.domain[|a|..];
      }
    }
  }

  /** v is the value of the first cookie that the source asks for. */
  ghost predicate FirstValue(source: Source, cookies: seq<Cookie>, v: string)
  {
    exists i :: 0 <= i < |cookies| && Wants(source, cookies[i]) && cookies[i].value == v &&
                forall h :: 0 <= h < i ==> !Wants(source, cookies[h])
  }

  /** The j-th source is the last of its name that some cookie satisfies. */
  ghost predicate LastServed(sources: seq<Source>, cookies: seq<Cookie>, j: nat)
  {
    j < |sources| && Served(sources[j], cookies) &&
    forall h :: j < h < |sources| && sources[h].name == sources[j].name ==> !Served(sources[h], cookies)
  }

  ghost predicate Served(source: Source, cookies: seq<Cookie>)
  {
    exists i :: 0 <= i < |cookies| && Wants(source, cookies[i])
  }

  /** c has, for each source name that some cookie satisfies, the value that the last such source finds first. */
  ghost predicate FromCookies(sources: seq<Source>, cookies: seq<Cookie>, c: Credentials)
  {
    (forall k :: k in c ==> exists j: nat :: LastServed(sources, cookies, j) && sources[j].name == k) &&
    forall j: nat :: LastServed(sources, cookies, j) ==>
      sources[j].name in c && c[sources[j].name].Some? && FirstValue(sources[j], cookies, c[sources[j].name].value)
  }

  lemma {:induction false} FoundFirst(source: Source, cookies: seq<Cookie>)
    ensures Found(source, cookies).Some? <==> Served(source, cookies)
    ensures Found(source, cookies).Some? ==> FirstValue(source, cookies, Found(source, cookies).value)
  {
    hide Matches, Wants;
    if cookies == [] {
    } else {
      MatchesIff(source, cookies[0]);
      FoundFirst(source, cookies[1..]);
      assert forall i :: 0 < i < |cookies| ==> cookies[1..][i - 1] == cookies[i];
      if Matches(source, cookies[0]) {
        assert FirstValue(source, cookies, cookies[0].value);
      } else if Found(source, cookies).Some? {
        var v := Found(source, cookies).value;
        var i :| 0 <= i < |cookies[1..]| && Wants(source, cookies[1..][i]) && cookies[1..][i].value == v &&
                 forall h :: 0 <= h < i ==> !Wants(source, cookies[1..][h]);
        forall h | 0 <= h < i + 1 ensures !Wants(source, cookies[h]) {
          if h > 0 { assert cookies[h] == cookies[1..][h - 1]; }
        }
        assert cookies[i + 1] == cookies[1..][i];
      }
    }
  }

  lemma ServedMore(sources: seq<Source>, cookies: seq<Cookie>, n: nat)
    requires n + 1 == |sources|
    ensures LastServed(sources, cookies, n) <==> Served(sources[n], cookies)
    ensures forall j: nat :: j < n ==>
      (LastServed(sources, cookies, j) <==>
       LastServed(sources[..n], cookies, j) && (sources[j].name != sources[n].name || !Served(sources[n], cookies)))
  {
    hide Served;
    var front := sources[..n];
    forall j: nat | j < n && LastServed(front, cookies, j) &&
                    (sources[j].name != sources[n].name || !Served(sources[n], cookies))
      ensures LastServed(sources, cookies, j)
    {
      assert front[j] == sources[j];
      assert forall h :: j < h < n ==> front[h] == sources[h];
    }
    forall j: nat | j < n && LastServed(sources, cookies, j) ensures LastServed(front, cookies, j) {
      assert front[j] == sources[j];
      assert forall h :: j < h < n ==> front[h] == sources[h];
    }
  }

  /** What is gathered is what the cookies say. */
  lemma {:induction false} GatheredFromCookies(sources: seq<Source>, cookies: seq<Cookie>)
    ensures FromCookies(sources, cookies, Gather(sources, cookies))
    decreases |sources|
  {
    hide Found, Wants, FirstValue, LastServed, Served;
    if sources == [] {
      assert forall j: nat :: !LastServed(sources, cookies, j) by { NoneServed(cookies); }
    } else {
      var n := |sources| - 1;
      GatheredFromCookies(sources[..n], cookies);
      FoundFirst(sources[n], cookies);
      ServedMore(sources, cookies, n);
      ServedBounds(sources, cookies);
      ServedBounds(sources[..n], cookies);
      forall k | k in Gather(sources, cookies)
        ensures exists j: nat :: LastServed(sources, cookies, j) && sources[j].name == k
      {
        if k == sources[n].name && Found(sources[n], cookies).Some? {
          assert LastServed(sources, cookies, n);
        } else {
          var j: nat :| LastServed(sources[..n], cookies, j) && sources[..n][j].name == k;
          assert sources[..n][j] == sources[j];
        }
      }
    }
  }

  lemma NoneServed(cookies: seq<Cookie>)
    ensures forall j: nat :: !LastServed([], cookies, j)
  {
  }

  lemma ServedBounds(sources: seq<Source>, cookies: seq<Cookie>)
    ensures forall j: nat :: LastServed(sources, cookies, j) ==> j < |sources|
  {
  }

  /** Cookies give values, of the sources' names only. */
  lemma {:induction false} GatherFits(sources: seq<Source>, cookies: seq<Cookie>)
    ensures NullFree(Gather(sources, cookies)) && Gather(sources, cookies).Keys <= CookieNames(sources)
    decreases |sources|
  {
    if sources == [] {
      assert Gather(sources, cookies) == map[];
    } else {
      var n := |sources| - 1;
      GatherFits(sources[..n], cookies);
      assert forall j :: 0 <= j < n ==> sources[..n][j] == sources[j];
    }
  }

  // ----- null tokens

  /** A script completes the session exactly when cookies and script together have every name. */
  lemma ScriptCompletesIff(s: State, i: nat, values: Credentials)
    requires Active(s) && i < |s.scripts|
    ensures ScriptCame(s, i, values).completed <==>
      RequiredKeys(s.login.config) <= s.scripts[i].found.Keys + values.Keys
  {
    hide CookieNames;
    var config, c := s.login.config, s.scripts[i].found + values;
    PollEnds(s, i);
    assert c.Keys == s.scripts[i].found.Keys + values.Keys;
    assert config.storageKeys[0] in RequiredKeys(config);
    assert RequiredKeys(config) <= c.Keys ==> c != map[];
  }

  /** Event e settles the login that is under way in s with these credentials. */
  predicate Completes(s: State, e: Event, c: Credentials)
  {
    Enabled(s, e) && Busy(s) && Next(s, e).settled == [Success(c)]
  }

  /**
   * In every run, the credentials a login is resolved with are all real values exactly unless the event that resolves
   * it is a script which read a null: an item absent from storage.
   */
  lemma RealCredentialsIff(events: seq<Event>, e: Event, c: Credentials)
    requires Possible(IDLE, events) && Completes(Run(IDLE, events), e, c)
    ensures NullFree(c) <==> (e.ScriptDone? ==> NullFree(e.values))
  {
    hide Gather, AllFound, Next, Run, Open;
    var s := Run(IDLE, events);
    RunKeeps(IDLE, events);
    CompletedBy(s, e, c);
    match e
    case CookiesArrive(i, cookies) => GatherFits(s.queries[i].config.cookieSources, cookies);
    case ScriptDone(i, values) =>
      PollEnds(s, i);
      forall k | k in values ensures c[k] == values[k] {
      }
    case ScriptFail(i) => PollEnds(s, i);
  }

  /** The answers to cookie queries among the events. */
  function Answers(events: seq<Event>): set<seq<Cookie>>
  {
    if events == [] then {}
    else (if events[0].CookiesArrive? then {events[0].cookies} else {}) + Answers(events[1..])
  }

  ghost predicate FoundIn(script: Script, seen: set<seq<Cookie>>)
  {
    exists cookies :: cookies in seen && FromCookies(script.login.config.cookieSources, cookies, script.found)
  }

  ghost predicate ScriptsFrom(s: State, seen: set<seq<Cookie>>)
  {
    forall i :: 0 <= i < |s.scripts| ==> FoundIn(s.scripts[i], seen)
  }

  lemma StepFrom(s: State, e: Event, seen: set<seq<Cookie>>)
    requires ScriptsFrom(s, seen) && Enabled(s, e)
    ensures ScriptsFrom(Next(s, e), seen + if e.CookiesArrive? then {e.cookies} else {})
  {
    hide Next, FromCookies;
    var t, more := Next(s, e), seen + if e.CookiesArrive? then {e.cookies} else {};
    SameScripts(s, e);
    forall i | 0 <= i < |t.scripts| ensures FoundIn(t.scripts[i], more) {
      if t.scripts[i] in s.scripts {
        var j :| 0 <= j < |s.scripts| && s.scripts[j] == t.scripts[i];
        var cookies :| cookies in seen &&
                       FromCookies(s.scripts[j].login.config.cookieSources, cookies, s.scripts[j].found);
        assert cookies in more;
      } else {
        assert t.scripts[i] in t.scripts && e.cookies in more;
        GatheredFromCookies(s.queries[e.which].config.cookieSources, e.cookies);
      }
    }
  }

  /** Only a cookie answer starts a script. */
  lemma SameScripts(s: State, e: Event)
    requires Enabled(s, e)
    ensures forall script :: script in Next(s, e).scripts && script !in s.scripts ==>
      e.CookiesArrive? && e.which < |s.queries| &&
      var login := s.queries[e.which];
      script == Script(login, Gather(login.config.cookieSources, e.cookies))
  {
    hide Gather, AllFound;
  }

  lemma {:induction false} RunFrom(s: State, events: seq<Event>, seen: set<seq<Cookie>>)
    requires ScriptsFrom(s, seen) && Possible(s, events)
    ensures ScriptsFrom(Run(s, events), seen + Answers(events))
    decreases |events|
  {
    hide ScriptsFrom, Next, Enabled;
    if events == [] {
      assert seen + Answers(events) == seen;
    } else {
      var more := seen + if events[0].CookiesArrive? then {events[0].cookies} else {};
      StepFrom(s, events[0], seen);
      RunFrom(Next(s, events[0]), events[1..], more);
      assert more + Answers(events[1..]) == seen + Answers(events);
    }
  }

  /**
   * In every run, the credentials of a completed login are the values its cookie sources find first in one answer, and
   * over these what the completing script read.
   */
  lemma CredentialValues(events: seq<Event>, e: Event, c: Credentials)
    requires Possible(IDLE, events) && Completes(Run(IDLE, events), e, c)
    ensures var sources := Run(IDLE, events).login.config.cookieSources;
      match e
      case CookiesArrive(_, cookies) => FromCookies(sources, cookies, c)
      case ScriptDone(_, values) =>
        exists cookies, found ::
          cookies in Answers(events) && FromCookies(sources, cookies, found) && c == found + values
      case ScriptFail(_) => exists cookies :: cookies in Answers(events) && FromCookies(sources, cookies, c)
      case _ => false
  {
    hide Gather, AllFound, Next, Run, Open, FromCookies;
    var s := Run(IDLE, events);
    RunKeeps(IDLE, events);
    RunFrom(IDLE, events, {});
    assert {} + Answers(events) == Answers(events);
    CompletedBy(s, e, c);
    match e
    case CookiesArrive(i, cookies) =>
      PollEnds(s, i);
      GatheredFromCookies(s.queries[i].config.cookieSources, cookies);
    case ScriptDone(i, values) =>
      PollEnds(s, i);
      assert FoundIn(s.scripts[i], Answers(events));
    case ScriptFail(i) =>
      PollEnds(s, i);
      assert FoundIn(s.scripts[i], Answers(events));
  }

  /** A login asks for each of its sources' cookies and each of its storage items, and for nothing else. */
  lemma RequiredAre(config: Config, k: string)
    ensures k in RequiredKeys(config) <==>
      k in config.storageKeys || exists j :: 0 <= j < |config.cookieSources| && config.cookieSources[j].name == k
  {
  }

  /** Only an answered query or a script completes a login. */
  lemma CompletedBy(s: State, e: Event, c: Credentials)
    requires Inv(s) && Completes(s, e, c)
    ensures Active(s)
    ensures match e
      case CookiesArrive(i, cookies) => c == Gather(s.queries[i].config.cookieSources, cookies)
      case ScriptDone(i, values) => c == s.scripts[i].found + values
      case ScriptFail(i) => c == s.scripts[i].found
      case _ => false
  {
    hide Gather, AllFound, Check, Settle, StartLogin;
    assert s.settled == [] && Next(s, e).settled[0] == Success(c);
    match e
    case CookiesArrive(i, cookies) =>
      CheckResult(s.(queries := Without(s.queries, i)), s.queries[i],
                  Gather(s.queries[i].config.cookieSources, cookies));
    case ScriptDone(i, values) =>
      CheckResult(s.(scripts := Without(s.scripts, i)), s.scripts[i].login, s.scripts[i].found + values);
    case ScriptFail(i) =>
      assert s.scripts[i].found + map[] == s.scripts[i].found;
      CheckResult(s.(scripts := Without(s.scripts, i)), s.scripts[i].login, s.scripts[i].found + map[]);
    case Fire(h) => SettleResult(s.(armed := s.armed - {h}), Status(Error, s.provider), Failure(Error));
    case WindowClosed(w) =>
      SettleResult(s.(windows := s.windows - {w}), Status(Cancelled, s.provider), Failure(Cancelled));
    case Cancel => SettleResult(s, Status(Cancelled, None), Failure(Cancelled));
    case CookiesFail(_) =>
    case Start(providerId, known, opens) => StartBusy(s, providerId, known, opens);
  }

  lemma CheckResult(t: State, login: Login, c: Credentials)
    requires t.settled == []
    ensures Check(t, login, c).settled == [] || Check(t, login, c).settled == [Success(c)]
  {
    hide AllFound;
  }

  lemma SettleResult(t: State, status: Status, r: Resolution)
    requires t.settled == []
    ensures Settle(t, status, r).settled == [r]
  {
  }

  lemma StartBusy(s: State, providerId: string, known: Option<Config>, opens: bool)
    requires Busy(s)
    ensures StartLogin(s, providerId, known, opens) == s
  {
  }

  /** For instance, with one storage item to find: the login completes although the item is absent. */
  lemma NullTokenCompletes(s: State, key: string)
    requires Active(s) && s.scripts != [] && s.login.config == Config([], [key])
    ensures var t := ScriptCame(s, 0, map[key := None]);
      t.completed && t.settled[0].Success? && t.settled[0].credentials[key] == None
  {
    var c := s.scripts[0].found + map[key := None];
    PollEnds(s, 0);
    assert Elems(s.login.config.storageKeys) == {key};
    assert RequiredKeys(s.login.config) == {key};
    assert key in c;
  }

  // ----- nothing but the overall timer ends the polling

  /** A run put together from its first event and the rest. */
  lemma RunCons(s: State, e: Event, rest: seq<Event>)
    requires Enabled(s, e) && Possible(Next(s, e), rest)
    ensures Possible(s, [e] + rest) && Run(s, [e] + rest) == Run(Next(s, e), rest)
  {
    hide Enabled, Next;
    assert ([e] + rest)[0] == e && ([e] + rest)[1..] == rest;
  }

  const ONE_COOKIE := Config([Source("k", "")], [])

  const COOKIE_LOGIN := Login("p", ONE_COOKIE)

  /** A login after its minimum time and n polls that found nothing. */
  function Polled(n: nat): State
  {
    State(Some("p"), false, Some(0), Some(1), Some(2), Some(n + 3),
          map[2 := Overall(COOKIE_LOGIN), n + 3 := Poll(COOKIE_LOGIN)], n + 4, [], [], map[0 := COOKIE_LOGIN],
          COOKIE_LOGIN, [], [])
  }

  /** The events of m more polls that find nothing. */
  function MorePolls(n: nat, m: nat): seq<Event>
    decreases m
  {
    if m == 0 then [] else [Fire(n + 3), CookiesArrive(0, [])] + MorePolls(n + 1, m - 1)
  }

  lemma OnePoll(n: nat)
    ensures Enabled(Polled(n), Fire(n + 3))
    ensures Enabled(Next(Polled(n), Fire(n + 3)), CookiesArrive(0, []))
    ensures Next(Next(Polled(n), Fire(n + 3)), CookiesArrive(0, [])) == Polled(n + 1)
  {
    var none: seq<Cookie> := [];
    var t := Next(Polled(n), Fire(n + 3));
    assert t.queries == [COOKIE_LOGIN];
    GatherNothing(ONE_COOKIE.cookieSources);
    assert ONE_COOKIE.cookieSources[0].name in RequiredKeys(ONE_COOKIE);
    assert Next(t, CookiesArrive(0, none)).armed == Polled(n + 1).armed;
  }

  lemma {:induction false} GatherNothing(sources: seq<Source>)
    ensures Gather(sources, []) == map[]
    decreases |sources|
  {
    if sources == [] {
      assert Gather(sources, []) == map[];
    } else {
      GatherNothing(sources[..|sources| - 1]);
    }
  }

  lemma {:induction false} ManyPolls(n: nat, m: nat)
    ensures |MorePolls(n, m)| == 2 * m && Possible(Polled(n), MorePolls(n, m))
    ensures Run(Polled(n), MorePolls(n, m)) == Polled(n + m)
    decreases m
  {
    hide Next, Enabled;
    if m == 0 {
      assert MorePolls(n, m) == [];
    } else {
      OnePoll(n);
      ManyPolls(n + 1, m - 1);
      var all := MorePolls(n, m);
      assert all[1..][1..] == MorePolls(n + 1, m - 1);
    }
  }

  const FIRST_POLL := [Start("p", Some(ONE_COOKIE), true), Fire(1)]

  /** However many polls have been made, a login may still be under way: no number of them ends it. */
  lemma PollsWithoutEnd(m: nat)
    ensures Possible(IDLE, FIRST_POLL + MorePolls(0, m)) && |MorePolls(0, m)| == 2 * m
    ensures Busy(Run(IDLE, FIRST_POLL + MorePolls(0, m)))
  {
    hide Next, Enabled;
    FirstPolled();
    var first := Next(IDLE, FIRST_POLL[0]);
    ManyPolls(0, m);
    RunCons(first, FIRST_POLL[1], MorePolls(0, m));
    RunCons(IDLE, FIRST_POLL[0], [FIRST_POLL[1]] + MorePolls(0, m));
    assert FIRST_POLL + MorePolls(0, m) == [FIRST_POLL[0]] + ([FIRST_POLL[1]] + MorePolls(0, m));
  }

  lemma FirstPolled()
    ensures Enabled(IDLE, FIRST_POLL[0]) && Enabled(Next(IDLE, FIRST_POLL[0]), FIRST_POLL[1])
    ensures Next(Next(IDLE, FIRST_POLL[0]), FIRST_POLL[1]) == Polled(0) && Busy(Polled(0))
  {
    var t := Next(Next(IDLE, FIRST_POLL[0]), FIRST_POLL[1]);
    assert t.armed == Polled(0).armed && t.windows == Polled(0).windows;
  }
}
