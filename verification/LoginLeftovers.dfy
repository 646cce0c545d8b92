/** Why a login must wait for the callbacks of the one before: what these can do to it when it does not. */
module LoginLeftovers {
  import opened Collections
  import opened LoginSession

  /** A new login at a moment when callbacks of earlier ones may still be to come. */
  function StartEarly(s: State, providerId: string, config: Config): State
  {
    StartLogin(s, providerId, Some(config), true)
  }

  /** An event of the new login itself, by its timers, its window or its caller. */
  predicate OfNew(started: State, e: Event)
  {
    match e
    case Start(_, _, _) => true
    case Cancel => true
    case Fire(h) => Some(h) == started.timeoutId || Some(h) == started.timeoutTimer
    case WindowClosed(w) => Some(w) == started.window
    case _ => false
  }

  /** Only callbacks that earlier logins left behind, and what follows from these. */
  ghost predicate OldOnly(started: State, events: seq<Event>)
  {
    forall i :: 0 <= i < |events| ==> !OfNew(started, events[i])
  }

  /** The logins that a query or script still to come in s belongs to. */
  function Debts(s: State): set<Login>
  {
    (set i | 0 <= i < |s.queries| :: s.queries[i]) + (set i | 0 <= i < |s.scripts| :: s.scripts[i].login)
  }

  // ----- what can come of it

  /** A callback of an earlier login has resolved the new one: with what that login asks for, under its name. */
  ghost predicate SettledByOld(s: State, t: State)
  {
    t.completed && |t.settled| == 1 && |t.statuses| == 1 &&
    ((exists l :: l in Debts(s) && t.settled[0].Success? && Agrees(l, t.statuses[0], t.settled[0])) ||
     (exists w :: w in s.windows && t.settled[0] == Failure(Cancelled) &&
                  t.statuses[0] == Status(Cancelled, Some(s.windows[w].providerId))))
  }

  /** The new login is still open, and besides its own timers and window everything is owed to earlier logins. */
  ghost predicate Haunted(s: State, started: State, t: State)
  {
    !t.completed && t.settled == [] && t.statuses == [] && t.window == started.window &&
    t.window.Some? && t.window.value in t.windows &&
    (forall h :: h in t.armed && Some(h) != started.timeoutId && Some(h) != started.timeoutTimer ==>
       t.armed[h].Poll? && t.armed[h].login in Debts(s)) &&
    (forall i :: 0 <= i < |t.queries| ==> t.queries[i] in Debts(s)) &&
    (forall i :: 0 <= i < |t.scripts| ==> t.scripts[i].login in Debts(s) && ScriptFits(t.scripts[i])) &&
    (forall w :: w in t.windows && Some(w) != started.window ==> w in s.windows && t.windows[w] == s.windows[w]) &&
    (started.timeoutId.Some? ==> started.timeoutId.value < t.next) &&
    (started.timeoutTimer.Some? ==> started.timeoutTimer.value < t.next)
  }

  lemma HauntedStart(s: State, providerId: string, config: Config)
    requires Quiet(s)
    ensures var started := StartEarly(s, providerId, config); Haunted(s, started, started)
  {
  }

  lemma CheckHaunted(s: State, started: State, t: State, l: Login, c: Credentials)
    requires Haunted(s, started, t) && l in Debts(s) && c.Keys <= RequiredKeys(l.config)
    ensures var u := Check(t, l, c); Haunted(s, started, u) || SettledByOld(s, u)
  {
    hide Debts, RequiredKeys;
    var u := Check(t, l, c);
    if AllFound(l.config, c) {
      assert u.settled == [Success(c)] && u.statuses == [Status(Complete, Some(l.providerId))];
      assert Agrees(l, u.statuses[0], u.settled[0]);
    }
  }

  lemma FewerOwed(s: State, started: State, t: State, i: nat)
    requires Haunted(s, started, t)
    ensures i < |t.queries| ==> Haunted(s, started, t.(queries := Without(t.queries, i)))
    ensures i < |t.scripts| ==> Haunted(s, started, t.(scripts := Without(t.scripts, i)))
  {
    hide Debts, ScriptFits;
  }

  lemma CookiesHaunted(s: State, started: State, t: State, i: nat, cookies: seq<Cookie>)
    requires Haunted(s, started, t) && i < |t.queries|
    ensures var u := CookiesCame(t, i, cookies); Haunted(s, started, u) || SettledByOld(s, u)
  {
    hide Debts, Gather, Check, SettledByOld;
    var l := t.queries[i];
    GatherFits(l.config.cookieSources, cookies);
    FewerOwed(s, started, t, i);
    CheckHaunted(s, started, t.(queries := Without(t.queries, i)), l, Gather(l.config.cookieSources, cookies));
  }

  lemma ScriptHaunted(s: State, started: State, t: State, i: nat, values: Credentials)
    requires Haunted(s, started, t) && i < |t.scripts|
    requires values.Keys <= Elems(t.scripts[i].login.config.storageKeys)
    ensures var u := ScriptCame(t, i, values); Haunted(s, started, u) || SettledByOld(s, u)
  {
    hide Debts, Check, SettledByOld;
    FewerOwed(s, started, t, i);
    CheckHaunted(s, started, t.(scripts := Without(t.scripts, i)), t.scripts[i].login, t.scripts[i].found + values);
  }

  lemma CloseHaunted(s: State, started: State, t: State, w: nat)
    requires Haunted(s, started, t) && w in t.windows && Some(w) != started.window
    ensures SettledByOld(s, Closed(t, w))
  {
    hide Debts;
    var u := Closed(t, w);
    assert u.settled == [Failure(Cancelled)] && u.statuses == [Status(Cancelled, Some(s.windows[w].providerId))];
  }

  lemma FireHaunted(s: State, started: State, t: State, h: nat)
    requires Haunted(s, started, t) && h in t.armed && Some(h) != started.timeoutId && Some(h) != started.timeoutTimer
    ensures Haunted(s, started, FireTimer(t, h))
  {
    hide Debts, ScriptFits;
  }

  lemma FailHaunted(s: State, started: State, t: State, i: nat)
    requires Haunted(s, started, t) && i < |t.queries|
    ensures Haunted(s, started, CookiesFailed(t, i))
  {
    hide Debts, ScriptFits;
  }

  lemma HauntedStep(s: State, started: State, t: State, e: Event)
    requires Haunted(s, started, t) && Pending(t, e) && !OfNew(started, e)
    ensures Haunted(s, started, Next(t, e)) || SettledByOld(s, Next(t, e))
  {
    hide Haunted, SettledByOld, FireTimer, CookiesCame, CookiesFailed, ScriptCame, Closed;
    match e
    case Fire(h) => FireHaunted(s, started, t, h);
    case CookiesArrive(i, cookies) => CookiesHaunted(s, started, t, i, cookies);
    case CookiesFail(i) => FailHaunted(s, started, t, i);
    case ScriptDone(i, values) => ScriptHaunted(s, started, t, i, values);
    case ScriptFail(i) => ScriptHaunted(s, started, t, i, map[]);
    case WindowClosed(w) => CloseHaunted(s, started, t, w);
  }

  lemma SettledStays(s: State, t: State, e: Event)
    requires SettledByOld(s, t) && t.provider.None? && Pending(t, e) && !e.Start?
    ensures SettledByOld(s, Next(t, e)) && Next(t, e).provider.None?
  {
    hide Gather, AllFound, Agrees, Debts;
  }

  lemma SettledIdle(s: State, started: State, t: State, e: Event)
    requires Haunted(s, started, t) && Pending(t, e) && !OfNew(started, e)
    ensures Next(t, e).completed ==> Next(t, e).provider.None?
  {
    hide Gather, AllFound, Debts;
  }

  lemma {:induction false} OldRun(s: State, started: State, t: State, events: seq<Event>)
    requires Haunted(s, started, t) || (SettledByOld(s, t) && t.provider.None?)
    requires Possible(t, events) && OldOnly(started, events)
    ensures Haunted(s, started, Run(t, events)) || SettledByOld(s, Run(t, events))
    decreases |events|
  {
    hide Haunted, OfNew, Next, Pending;
    if events == [] {
    } else {
      assert !OfNew(started, events[0]);
      assert OldOnly(started, events[1..]);
      if Haunted(s, started, t) {
        HauntedStep(s, started, t, events[0]);
        SettledIdle(s, started, t, events[0]);
      } else {
        NotStart(started, events[0]);
        SettledStays(s, t, events[0]);
      }
      OldRun(s, started, Next(t, events[0]), events[1..]);
    }
  }

  lemma NotStart(started: State, e: Event)
    requires !OfNew(started, e)
    ensures !e.Start?
  {
  }

  /** Callbacks of earlier logins settle the new login in this run, before it has made a step of its own. */
  ghost predicate Hijacks(started: State, events: seq<Event>)
  {
    OldOnly(started, events) && Possible(started, events) && Run(started, events).completed
  }

  /**
   * When they do, the promise of the new login is resolved with exactly the credentials that an earlier one asked for,
   * under that one's provider; or as cancelled, by the closed event of an earlier window.
   */
  lemma HijackedByOld(s: State, providerId: string, config: Config, events: seq<Event>)
    requires Quiet(s) && Hijacks(StartEarly(s, providerId, config), events)
    ensures SettledByOld(s, Run(StartEarly(s, providerId, config), events))
  {
    hide StartEarly, SettledByOld, OldOnly, Run;
    var started := StartEarly(s, providerId, config);
    HauntedStart(s, providerId, config);
    OldRun(s, started, started, events);
  }

  // ----- when it can happen

  /** Cookies that match every source. */
  function Matching(sources: seq<Source>): seq<Cookie>
  {
    seq(|sources|, i requires 0 <= i < |sources| => Cookie(sources[i].name, DropDot(sources[i].domain), "v"))
  }

  lemma MatchingFound(sources: seq<Source>)
    ensures forall j :: 0 <= j < |sources| ==> NameFound(sources, sources[j].name, Matching(sources))
    ensures CookieNames(sources) <= Gather(sources, Matching(sources)).Keys
  {
    hide DropDot, Found, Gather;
    var cookies := Matching(sources);
    forall j | 0 <= j < |sources| ensures NameFound(sources, sources[j].name, cookies) {
      var d := DropDot(sources[j].domain);
      assert d <= d[0..];
      assert Matches(sources[j], cookies[j]);
      FoundIsFirst(sources[j], cookies, 0);
    }
    GatherKeys(sources, cookies);
  }

  /** An item value for every storage key. */
  function Items(keys: seq<string>): Credentials
  {
    map k | k in Elems(keys) :: Some("v")
  }

  /** A query left open can resolve the new login by its own answer exactly when its login looks for cookies only. */
  lemma StaleQueryIff(s: State, providerId: string, config: Config)
    requires Quiet(s) && |s.queries| == 1
    ensures var past, started := s.queries[0].config, StartEarly(s, providerId, config);
      (exists cookies :: CookiesCame(started, 0, cookies).completed) <==>
      past.storageKeys == [] && past.cookieSources != []
  {
    hide Gather, AllFound, NameFound, Quiet;
    var past, started := s.queries[0].config, StartEarly(s, providerId, config);
    QuietIdle(s);
    if past.storageKeys == [] {
      MatchingFound(past.cookieSources);
      CookiesSufficeIff(past, Matching(past.cookieSources));
      if past.cookieSources != [] { assert CookiesCame(started, 0, Matching(past.cookieSources)).completed; }
      forall cookies | CookiesCame(started, 0, cookies).completed ensures past.cookieSources != [] {
        CookiesSufficeIff(past, cookies);
      }
    }
  }

  lemma QuietIdle(s: State)
    requires Quiet(s)
    ensures s.provider.None? && |s.queries| + |s.scripts| <= 1 && forall w :: w in s.windows ==> w < s.next
    ensures forall i :: 0 <= i < |s.scripts| ==> ScriptFits(s.scripts[i])
  {
  }

  /** A script left open can exactly when its cookies and storage items are all that its login asks for. */
  lemma StaleScriptIff(s: State, providerId: string, config: Config)
    requires Quiet(s) && |s.scripts| == 1
    ensures var script, started := s.scripts[0], StartEarly(s, providerId, config);
      var keys := Elems(script.login.config.storageKeys);
      (exists values: Credentials :: values.Keys <= keys && ScriptCame(started, 0, values).completed) <==>
      CookieNames(script.login.config.cookieSources) <= script.found.Keys + keys
  {
    hide Quiet, CookieNames;
    var script, started := s.scripts[0], StartEarly(s, providerId, config);
    var past := script.login.config;
    var all := Items(past.storageKeys);
    QuietIdle(s);
    assert all.Keys == Elems(past.storageKeys);
    assert (script.found + all).Keys == script.found.Keys + all.Keys;
    assert past.storageKeys[0] in all;
    if CookieNames(past.cookieSources) <= script.found.Keys + all.Keys {
      assert AllFound(past, script.found + all);
      assert ScriptCame(started, 0, all).completed;
    }
    forall values: Credentials | values.Keys <= all.Keys && ScriptCame(started, 0, values).completed
      ensures CookieNames(past.cookieSources) <= script.found.Keys + all.Keys
    {
      assert AllFound(past, script.found + values);
      assert (script.found + values).Keys == script.found.Keys + values.Keys;
    }
  }

  /** The closed event of an earlier window always cancels the new login, whose own window is open. */
  lemma StaleCloseCancels(s: State, providerId: string, config: Config, w: nat)
    requires Quiet(s) && w in s.windows
    ensures var started := StartEarly(s, providerId, config);
      w in started.windows && Closed(started, w).settled == [Failure(Cancelled)] && w != s.next &&
      Closed(started, w).statuses == [Status(Cancelled, Some(s.windows[w].providerId))]
  {
  }

  /** An open query of a login that asks for anything leads on to a completed login. */
  lemma QueryLeads(t: State, l: Login) returns (events: seq<Event>)
    requires !t.completed && t.queries == [l] && t.scripts == [] && t.window.Some? && t.window.value in t.windows
    requires RequiredKeys(l.config) != {}
    ensures Possible(t, events) && Run(t, events).completed
    ensures forall i :: 0 <= i < |events| ==> events[i].CookiesArrive? || events[i].ScriptDone?
  {
    hide Gather, CookieNames, NameFound, Run, Possible;
    var config := l.config;
    var cookies := Matching(config.cookieSources);
    var e := CookiesArrive(0, cookies);
    var u := CookiesCame(t, 0, cookies);
    MatchingFound(config.cookieSources);
    if config.storageKeys == [] {
      events := [e];
      AskedForCookies(config);
      CookiesSufficeIff(config, cookies);
      RunNone(u);
      RunCons(t, e, []);
      assert [e] + [] == [e];
    } else {
      var all := Items(config.storageKeys);
      var done := ScriptDone(0, all);
      assert u.scripts == [Script(l, Gather(config.cookieSources, cookies))];
      ItemsComplete(config, Gather(config.cookieSources, cookies));
      RunNone(ScriptCame(u, 0, all));
      RunCons(u, done, []);
      RunCons(t, e, [done] + []);
      events := [e, done];
      assert [e] + ([done] + []) == events;
    }
  }

  lemma AskedForCookies(config: Config)
    requires config.storageKeys == [] && RequiredKeys(config) != {}
    ensures config.cookieSources != []
  {
  }

  lemma RunNone(s: State)
    ensures Possible(s, []) && Run(s, []) == s
  {
  }

  lemma ItemsComplete(config: Config, found: Credentials)
    requires CookieNames(config.cookieSources) <= found.Keys && config.storageKeys != []
    ensures Items(config.storageKeys).Keys == Elems(config.storageKeys)
    ensures AllFound(config, found + Items(config.storageKeys))
  {
    hide CookieNames;
    var all := Items(config.storageKeys);
    assert (found + all).Keys == found.Keys + all.Keys;
    assert config.storageKeys[0] in all;
  }

  /** So does a script, if need be through one more poll of its login. */
  lemma ScriptLeads(t: State, script: Script) returns (events: seq<Event>)
    requires !t.completed && t.queries == [] && t.scripts == [script] && t.window.Some? && t.window.value in t.windows
    requires ScriptFits(script)
    ensures Possible(t, events) && Run(t, events).completed
    ensures forall i :: 0 <= i < |events| ==>
      events[i].CookiesArrive? || events[i].ScriptDone? || events[i] == Fire(t.next) || events[i].ScriptFail?
  {
    hide AllFound, CookieNames, Run, Possible;
    var l := script.login;
    var e := ScriptFail(0);
    var u := ScriptCame(t, 0, map[]);
    if AllFound(l.config, script.found + map[]) {
      events := [e];
      RunNone(u);
      RunCons(t, e, []);
      assert [e] + [] == [e];
    } else {
      assert l.config.storageKeys[0] in RequiredKeys(l.config);
      assert u == ArmPoll(t.(scripts := []), l);
      var polled := FireTimer(u, t.next);
      var rest := QueryLeads(polled, l);
      RunCons(u, Fire(t.next), rest);
      RunCons(t, e, [Fire(t.next)] + rest);
      events := [e] + ([Fire(t.next)] + rest);
      forall i | 0 <= i < |events|
        ensures events[i].CookiesArrive? || events[i].ScriptDone? || events[i] == Fire(t.next) || events[i].ScriptFail?
      {
        if i >= 2 { assert events[i] == rest[i - 2]; }
      }
    }
  }

  /**
   * A login that starts too early can be settled by what earlier ones left behind exactly when that is the closed event
   * of a window, or a query or script of a login that asks for anything at all.
   */
  lemma MustDrainIff(s: State, providerId: string, config: Config)
    requires Quiet(s)
    ensures var started := StartEarly(s, providerId, config);
      (exists events :: Hijacks(started, events)) <==>
      s.windows != map[] || exists l :: l in Debts(s) && RequiredKeys(l.config) != {}
  {
    hide Quiet, RequiredKeys, Hijacks, StartEarly, Debts, CookieNames;
    var started := StartEarly(s, providerId, config);
    forall events | Hijacks(started, events)
      ensures s.windows != map[] || exists l :: l in Debts(s) && RequiredKeys(l.config) != {}
    {
      HijackedByOld(s, providerId, config, events);
    }
    if s.windows != map[] {
      CloseHijacks(s, providerId, config);
    } else if l :| l in Debts(s) && RequiredKeys(l.config) != {} {
      DebtHijacks(s, providerId, config, l);
    }
  }

  lemma CloseHijacks(s: State, providerId: string, config: Config)
    requires Quiet(s) && s.windows != map[]
    ensures exists events :: Hijacks(StartEarly(s, providerId, config), events)
  {
    hide Quiet;
    var started := StartEarly(s, providerId, config);
    QuietIdle(s);
    var w :| w in s.windows;
    var e := WindowClosed(w);
    RunNone(Closed(started, w));
    RunCons(started, e, []);
    assert [e] + [] == [e];
    assert Hijacks(started, [e]);
  }

  lemma DebtHijacks(s: State, providerId: string, config: Config, l: Login)
    requires Quiet(s) && l in Debts(s) && RequiredKeys(l.config) != {}
    ensures exists events :: Hijacks(StartEarly(s, providerId, config), events)
  {
    hide Quiet, RequiredKeys, Run, Possible, ScriptFits;
    var started := StartEarly(s, providerId, config);
    QuietIdle(s);
    if |s.queries| == 1 {
      assert started.queries == [l] && started.scripts == [];
      var events := QueryLeads(started, l);
      assert Hijacks(started, events);
    } else {
      assert started.scripts == [s.scripts[0]] && started.queries == [];
      var events := ScriptLeads(started, s.scripts[0]);
      assert Hijacks(started, events);
    }
  }

  // ----- that it is so in reachable states

  /** The events of a login up to its first cookie query. */
  function ToQuery(config: Config): seq<Event>
  {
    [Start("p", Some(config), true), Fire(1), Fire(3)]
  }

  /** A login in the middle of its first poll. */
  function Querying(config: Config): State
  {
    var l := Login("p", config);
    State(Some("p"), false, Some(0), Some(1), Some(2), Some(3), map[2 := Overall(l)], 4, [l], [], map[0 := l], l,
          [], [])
  }

  lemma QueryState(config: Config)
    ensures var e := ToQuery(config);
      Enabled(IDLE, e[0]) && Enabled(Next(IDLE, e[0]), e[1]) && Enabled(Next(Next(IDLE, e[0]), e[1]), e[2]) &&
      Next(Next(Next(IDLE, e[0]), e[1]), e[2]) == Querying(config)
  {
    var l, e := Login("p", config), ToQuery(config);
    var first := Next(IDLE, e[0]);
    assert first.armed == map[1 := MinTime(l), 2 := Overall(l)] && first.windows == map[0 := l];
    var second := Next(first, e[1]);
    assert second.armed == map[2 := Overall(l), 3 := Poll(l)];
    assert Next(second, e[2]).armed == Querying(config).armed;
  }

  lemma AfterQuery(config: Config, rest: seq<Event>)
    requires Possible(Querying(config), rest)
    ensures Possible(IDLE, ToQuery(config) + rest)
    ensures Run(IDLE, ToQuery(config) + rest) == Run(Querying(config), rest)
  {
    hide Next, Enabled;
    QueryState(config);
    var e := ToQuery(config);
    var first := Next(IDLE, e[0]);
    var second := Next(first, e[1]);
    RunCons(second, e[2], rest);
    RunCons(first, e[1], [e[2]] + rest);
    RunCons(IDLE, e[0], [e[1]] + ([e[2]] + rest));
    assert e + rest == [e[0]] + ([e[1]] + ([e[2]] + rest));
  }

  const END := [Cancel, WindowClosed(0)]

  lemma CancelAndClose(s: State)
    requires Busy(s) && s.windows.Keys == {0}
    ensures Possible(s, END)
    ensures var t := Run(s, END);
      t == Cleanup(s).(windows := map[], settled := t.settled, statuses := t.statuses) && t.completed
  {
    var closed := CancelLogin(s);
    assert closed.windows - {0} == map[];
    RunNone(Closed(closed, 0));
    RunCons(closed, WindowClosed(0), []);
    RunCons(s, Cancel, [WindowClosed(0)] + []);
    assert END == [Cancel] + ([WindowClosed(0)] + []);
  }

  const ONE_ITEM := Config([], ["k"])

  predicate Leaves(events: seq<Event>, queries: seq<Login>, scripts: nat, windows: set<nat>)
  {
    Possible(IDLE, events) && Run(IDLE, events).queries == queries && |Run(IDLE, events).scripts| == scripts &&
    Run(IDLE, events).windows.Keys == windows && Run(IDLE, events).completed
  }

  /** Each of the three can be all that is left: here after a cancelled login. */
  lemma EachCanBeLeft()
    ensures Leaves(ToQuery(ONE_COOKIE) + END, [COOKIE_LOGIN], 0, {})
    ensures Leaves(ToQuery(ONE_ITEM) + ([CookiesArrive(0, [])] + END), [], 1, {})
    ensures Leaves([ToQuery(ONE_COOKIE)[0], Cancel], [], 0, {0})
  {
    hide Gather, Run, Possible, CancelLogin, Clear;
    var none: seq<Cookie> := [];
    CancelAndClose(Querying(ONE_COOKIE));
    AfterQuery(ONE_COOKIE, END);
    var scripted := CookiesCame(Querying(ONE_ITEM), 0, none);
    CancelAndClose(scripted);
    RunCons(Querying(ONE_ITEM), CookiesArrive(0, none), END);
    AfterQuery(ONE_ITEM, [CookiesArrive(0, none)] + END);
    WindowLeft();
  }

  lemma WindowLeft()
    ensures Leaves([ToQuery(ONE_COOKIE)[0], Cancel], [], 0, {0})
  {
    var e := ToQuery(ONE_COOKIE)[0];
    var first := Next(IDLE, e);
    assert first.windows.Keys == {0};
    RunNone(CancelLogin(first));
    RunCons(first, Cancel, []);
    RunCons(IDLE, e, [Cancel] + []);
    assert [e, Cancel] == [e] + ([Cancel] + []);
  }

  /** A login of "q" for cookie "c" is resolved with cookie "k", as complete for "p", whose login left a query. */
  lemma WrongCredentials()
    ensures Possible(IDLE, ToQuery(ONE_COOKIE) + END)
    ensures var s := Run(IDLE, ToQuery(ONE_COOKIE) + END);
      var started := StartEarly(s, "q", Config([Source("c", "")], []));
      started.queries == s.queries == [COOKIE_LOGIN] &&
      var t := CookiesCame(started, 0, [Cookie("k", "", "v")]);
      t.settled == [Success(map["k" := Some("v")])] && t.statuses == [Status(Complete, Some("p"))]
  {
    hide Run, Possible, Clear;
    var cookies := [Cookie("k", "", "v")];
    EachCanBeLeft();
    var s := Run(IDLE, ToQuery(ONE_COOKIE) + END);
    CancelAndClose(Querying(ONE_COOKIE));
    AfterQuery(ONE_COOKIE, END);
    assert ONE_COOKIE.cookieSources[..0] == [];
    assert Found(Source("k", ""), cookies) == Some("v");
    assert Gather(ONE_COOKIE.cookieSources, cookies) == map["k" := Some("v")];
    assert RequiredKeys(ONE_COOKIE) == {"k"};
  }
}
