/** How every request is answered, in terms of the requests before it alone. */
module AdminAnswers {
  import opened Common
  import opened Sessions
  import opened AdminRuns
  import Limits = RateLimiter

  /** The CSRF value that the token's login handed out. */
  function Handed(run: seq<Request>, token: string, c: Config): Option<string> {
    if run == [] then None
    else
      var r := run[|run| - 1];
      if r.Login? && r.token == token && Answer(run, c) == LoggedIn then Some(r.draw)
      else Handed(run[..|run| - 1], token, c)
  }

  /** What a login leaves of a token's session. */
  lemma LoginSession(s: State, r: Request, t: string, c: Config)
    requires r.Login? && DistinctKeys(s.sessions)
    ensures var (s1, o) := Handled(s, r, c);
      && (o != LoggedIn ==> s1.sessions == s.sessions)
      && (o == LoggedIn && t != r.token ==> Get(s1.sessions, t) in {None, Get(s.sessions, t)})
      && (o == LoggedIn && t == r.token ==>
            Get(s1.sessions, t) in {None, Some(Session(r.draw, r.now, r.now, c.idleTtl, c.absoluteTtl))})
  {
    var session := Session(r.draw, r.now, r.now, c.idleTtl, c.absoluteTtl);
    GetCreated(s.sessions, r.token, session, r.now, c.cap, t);
    hide Created, Get, Drop, Limits.Pruned, Limits.Allowed, Limits.Recorded;
  }

  lemma AliveSession(s: State, r: Request, t: string, c: Config)
    requires r.Alive? && DistinctKeys(s.sessions)
    ensures var (s1, o) := Handled(s, r, c);
      && (o == Ran <==> Accepts(s.sessions, r.token, r.now)) && o in {Ran, Unauthenticated}
      && Get(s1.sessions, t) ==
           (if t != r.token then Get(s.sessions, t)
            else if o == Ran then Some(Get(s.sessions, t).value.(lastSeen := r.now))
            else None)
  {
    GetValidated(s.sessions, r.token, r.now, t);
    hide Validated, Get, Expired;
  }

  /** A stored session carries the CSRF value of its login. */
  lemma {:induction false} HandedHolds(run: seq<Request>, t: string, c: Config)
    requires Sane(run) && c.cap >= 1
    ensures var e := Get(After(run, c).sessions, t); e.Some? ==> Handed(run, t, c) == Some(e.value.csrf)
  {
    if run != [] {
      var n := |run| - 1;
      var s, r := After(run[..n], c), run[n];
      SanePrefix(run);
      Invariant(run[..n], t, c);
      HandedHolds(run[..n], t, c);
      if r.Login? {
        LoginSession(s, r, t, c);
      } else if r.Call? {
        CallSession(s, r, t, c);
      } else {
        AliveSession(s, r, t, c);
      }
      hide Handled, Get, Sane, Knows, SeenBy, DistinctKeys;
    }
  }

  /** The token's session is stored, and using it now would keep to the idle and the absolute limit. */
  ghost predicate Usable(run: seq<Request>, token: string, now: real, c: Config) {
    Has(After(run, c).sessions, token) && Held(Uses(run, token, c) + [now], c)
  }

  lemma HeldIff(uses: seq<real>, now: real, c: Config)
    requires Held(uses, c)
    ensures Held(uses + [now], c) <==> now - uses[|uses| - 1] < c.idleTtl && now - uses[0] < c.absoluteTtl
  {
    var more := uses + [now];
    assert more[|uses|] == now && more[|uses| - 1] == uses[|uses| - 1] && more[0] == uses[0];
    if now - uses[|uses| - 1] < c.idleTtl && now - uses[0] < c.absoluteTtl {
      HeldMore(uses, now, c);
    }
  }

  /** A token is accepted exactly when its session is stored and in time. */
  lemma AcceptsIff(run: seq<Request>, token: string, now: real, c: Config)
    requires Sane(run) && c.cap >= 1
    ensures Accepts(After(run, c).sessions, token, now) <==> Usable(run, token, now, c)
  {
    Invariant(run, token, c);
    var e := Get(After(run, c).sessions, token);
    if e.Some? {
      HeldIff(Uses(run, token, c), now, c);
    }
    hide After, Uses, Proof, Held, Tidy, Sane, Drawn, Get;
  }

  /** The peer is not locked out, as the limiter sees the password attempts so far. */
  predicate MayGuess(run: seq<Request>, peer: string, now: real, c: Config) {
    Limits.Allowed(Limits.Pruned(Limits.After(Guesses(run, c), c.limits), now, c.limits), peer, now)
  }

  ghost predicate CsrfMatches(run: seq<Request>, r: Request, c: Config)
    requires r.Call?
  {
    r.unsafe ==> r.csrf.Some? && Handed(run, r.token, c) == r.csrf
  }

  /** The token's last right password, not undone by a logout, is less than the window ago. */
  ghost predicate InWindow(run: seq<Request>, token: string, now: real, c: Config) {
    var proof := Proof(run, token, c);
    proof.Some? && now - proof.value < REAUTH_WINDOW
  }

  /** What authorisation looks at, in the state that the run left, is what the run says. */
  lemma LooksAre(run: seq<Request>, r: Request, c: Config)
    requires Sane(run + [r]) && c.cap >= 1 && r.Call?
    ensures var s := After(run, c);
      var d := Validated(s.sessions, r.token, r.now);
      && (Accepts(s.sessions, r.token, r.now) <==> Usable(run, r.token, r.now, c))
      && (Accepts(s.sessions, r.token, r.now) ==>
            && ((r.unsafe ==> CsrfOk(d, r.token, r.csrf)) <==> CsrfMatches(run, r, c))
            && (Fresh(OpenWindows(s.reauthAt, d, r.now), r.token, r.now) <==> InWindow(run, r.token, r.now, c)))
      && (Limits.Allowed(Limits.Pruned(s.failures, r.now, c.limits), r.peer, r.now) <==>
          MayGuess(run, r.peer, r.now, c))
  {
    var s := After(run, c);
    var d := Validated(s.sessions, r.token, r.now);
    assert (run + [r])[..|run|] == run;
    SanePrefix(run + [r]);
    Invariant(run, r.token, c);
    AcceptsIff(run, r.token, r.now, c);
    HandedHolds(run, r.token, c);
    FailuresFollowGuesses(run, c);
    GetValidated(s.sessions, r.token, r.now, r.token);
    GetOpen(s.reauthAt, d, r.now, r.token);
    hide Held, Validated, OpenWindows, DistinctKeys, Drawn, Get, SeenBy, Expired, After, Proof, Uses, Sane, Usable,
      Guesses;
    hide Limits.Pruned, Limits.Allowed, Limits.After, Handed;
  }

  /**
   * The answer to every authenticated request, from the requests before it: each of the six exactly in its case.
   * A plain request runs when its session is usable and its CSRF value is the one handed out at login. A request
   * that needs re-authentication runs inside the window, proves the password when there is none, the peer may
   * guess and the password is right, and is refused otherwise.
   */
  lemma CallAnswers(run: seq<Request>, r: Request, c: Config)
    requires Sane(run + [r]) && c.cap >= 1 && r.Call?
    ensures var o, usable, csrf := Answer(run + [r], c), Usable(run, r.token, r.now, c), CsrfMatches(run, r, c);
      var window, may := InWindow(run, r.token, r.now, c), MayGuess(run, r.peer, r.now, c);
      && (o == Unauthenticated <==> !usable)
      && (o == BadCsrf <==> usable && !csrf)
      && (o == Ran <==> usable && csrf && (r.route in {Plain, Logout} || window))
      && (o == Proved <==> usable && csrf && r.route == ReauthRequired && !window && may && r.correct)
      && (o == Limited <==> usable && csrf && r.route == ReauthRequired && !window && !may)
      && (o == ReauthNeeded <==>
            usable && csrf && !window && (r.route == WindowOnly || (r.route == ReauthRequired && may && !r.correct)))
  {
    assert (run + [r])[..|run|] == run;
    LooksAre(run, r, c);
    hide Validated, OpenWindows, Accepts, CsrfOk, Fresh, Usable, CsrfMatches, InWindow, MayGuess, After, Sane, Put,
      Drop;
    hide Limits.Pruned, Limits.Allowed, Limits.Recorded;
  }

  /** The answer to every login, and to every other use of a session. */
  lemma OtherAnswers(run: seq<Request>, r: Request, c: Config)
    requires Sane(run + [r]) && c.cap >= 1 && !r.Call?
    ensures var o := Answer(run + [r], c);
      && (r.Login? ==>
            && (o == LoggedIn <==> MayGuess(run, r.peer, r.now, c) && r.correct)
            && (o == Refused <==> MayGuess(run, r.peer, r.now, c) && !r.correct)
            && (o == Limited <==> !MayGuess(run, r.peer, r.now, c)))
      && (r.Alive? ==> o == if Usable(run, r.token, r.now, c) then Ran else Unauthenticated)
  {
    assert (run + [r])[..|run|] == run;
    SanePrefix(run + [r]);
    FailuresFollowGuesses(run, c);
    AcceptsIff(run, r.token, r.now, c);
    hide Validated, Accepts, Usable, Guesses, Sane, Created, Put, Drop, After;
    hide Limits.Pruned, Limits.Allowed, Limits.Recorded;
  }

  /** A session stays stored until it is used out of time, logged out, or makes room for a login. */
  lemma StoredIff(run: seq<Request>, r: Request, t: string, c: Config)
    requires Sane(run + [r]) && c.cap >= 1
    ensures !r.Login? ==>
      (Has(After(run + [r], c).sessions, t) <==>
         && Has(After(run, c).sessions, t)
         && (r.token == t ==>
               Usable(run, t, r.now, c) && !(r.Call? && r.route == Logout && Answer(run + [r], c) == Ran)))
    ensures r.Login? && Answer(run + [r], c) != LoggedIn ==>
      After(run + [r], c).sessions == After(run, c).sessions
    ensures r.Login? && Answer(run + [r], c) == LoggedIn && |Live(After(run, c).sessions, r.now)| < c.cap ==>
      (Has(After(run + [r], c).sessions, t) <==> t == r.token || Usable(run, t, r.now, c))
  {
    assert (run + [r])[..|run|] == run;
    SanePrefix(run + [r]);
    Invariant(run, r.token, c);
    AcceptsIff(run, t, r.now, c);
    var s := After(run, c);
    if r.Login? {
      LoginSession(s, r, t, c);
      GetLive(s.sessions, r.token, r.now);
      GetLive(s.sessions, t, r.now);
      if run != [] {
        SeenLater(s.sessions, LastMoment(run), r.now);
      }
      var session := Session(r.draw, r.now, r.now, c.idleTtl, c.absoluteTtl);
      CreateKeepsNewest(s.sessions, r.token, session, r.now, c.cap);
    } else if r.Call? {
      CallSession(s, r, t, c);
    } else {
      AliveSession(s, r, t, c);
    }
    hide Usable, Sane, Created, Live, SeenBy, DistinctKeys, Get, Put, Drop, Validated, OpenWindows, Expired, Agrees,
      Authorized;
    hide Limits.Pruned, Limits.Allowed, Limits.Recorded;
  }
}
