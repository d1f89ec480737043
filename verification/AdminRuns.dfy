/**
 * Login, request authorisation, the re-authentication window and logout of `app/admin_http.py`,
 * and what they guarantee over whole runs of requests.
 */
module AdminRuns {
  import opened Common
  import opened Sessions
  import Limits = RateLimiter

  const REAUTH_WINDOW := 300.0

  /** The route policies that differ for authorisation; logout is an authenticated route with its own handler. */
  datatype Route = Plain | Logout | ReauthRequired | WindowOnly

  /**
   * `correct` is whether the request's password is the admin password, `unsafe` whether its method
   * changes state, and a login's `token` the fresh random draw it takes when it succeeds.
   */
  datatype Request =
    | Login(peer: string, now: real, correct: bool, token: string, draw: string)
    | Call(peer: string, now: real, correct: bool, token: string, route: Route, unsafe: bool, csrf: Option<string>)
    | Alive(now: real, token: string)

  datatype Outcome = LoggedIn | Refused | Limited | Unauthenticated | BadCsrf | ReauthNeeded | Proved | Ran

  datatype Config = Config(idleTtl: real, absoluteTtl: real, cap: nat, limits: Limits.Config)

  datatype State = State(sessions: Store, reauthAt: Dict<string, real>, failures: Limits.Table)

  /** The windows that are still open and whose session is still stored. */
  function OpenWindows(w: Dict<string, real>, d: Store, now: real): Dict<string, real> {
    if w == [] then []
    else (if now - w[0].1 >= REAUTH_WINDOW || !Has(d, w[0].0) then [] else [w[0]]) + OpenWindows(w[1..], d, now)
  }

  lemma OpenAt(w: Dict<string, real>, d: Store, k: nat, now: real)
    requires k < |w|
    ensures OpenWindows(w[k..], d, now) ==
            (if now - w[k].1 >= REAUTH_WINDOW || !Has(d, w[k].0) then [] else [w[k]]) + OpenWindows(w[k + 1..], d, now)
  {
    assert w[k..][0] == w[k] && w[k..][1..] == w[k + 1..];
  }

  predicate Fresh(w: Dict<string, real>, token: string, now: real) {
    Has(w, token) && now - Get(w, token).value < REAUTH_WINDOW
  }

  function Authorized(s: State, r: Request, c: Config): (State, Outcome)
    requires r.Call?
  {
    var d := Validated(s.sessions, r.token, r.now);
    var s1 := s.(sessions := d, reauthAt := OpenWindows(s.reauthAt, d, r.now));
    if !Accepts(s.sessions, r.token, r.now) then (s.(sessions := d), Unauthenticated)
    else if r.unsafe && !CsrfOk(d, r.token, r.csrf) then (s1, BadCsrf)
    else if r.route in {Plain, Logout} || Fresh(s1.reauthAt, r.token, r.now) then (s1, Ran)
    else if r.route == WindowOnly then (s1, ReauthNeeded)
    else
      var f := Limits.Pruned(s.failures, r.now, c.limits);
      if !Limits.Allowed(f, r.peer, r.now) then (s1.(failures := f), Limited)
      else if r.correct
      then (s1.(failures := Drop(f, r.peer), reauthAt := Put(s1.reauthAt, r.token, r.now)), Proved)
      else (s1.(failures := Limits.Recorded(f, r.peer, r.now, c.limits)), ReauthNeeded)
  }

  function LoginHandled(s: State, r: Request, c: Config): (State, Outcome)
    requires r.Login?
  {
    var f := Limits.Pruned(s.failures, r.now, c.limits);
    if !Limits.Allowed(f, r.peer, r.now) then (s.(failures := f), Limited)
    else if r.correct then
      var session := Session(r.draw, r.now, r.now, c.idleTtl, c.absoluteTtl);
      (s.(failures := Drop(f, r.peer), sessions := Created(s.sessions, r.token, session, r.now, c.cap)), LoggedIn)
    else (s.(failures := Limits.Recorded(f, r.peer, r.now, c.limits)), Refused)
  }

  /** One request: authorisation and, for logout, the handler. */
  function Handled(s: State, r: Request, c: Config): (State, Outcome) {
    match r
    case Login(_, _, _, _, _) => LoginHandled(s, r, c)
    case Alive(now, token) =>
      (s.(sessions := Validated(s.sessions, token, now)),
       if Accepts(s.sessions, token, now) then Ran else Unauthenticated)
    case Call(_, _, _, token, route, _, _) =>
      var a := Authorized(s, r, c);
      if route == Logout && a.1 == Ran
      then (a.0.(sessions := Drop(a.0.sessions, token), reauthAt := Drop(a.0.reauthAt, token)), Ran)
      else a
  }

  class AdminApp {
    const store: SessionStore
    const limiter: Limits.Limiter
    var reauthAt: Dict<string, real>

    ghost function Now(): State
      reads this, store, limiter
    {
      State(store.sessions, reauthAt, limiter.entries)
    }

    function Settings(): Config { Config(store.idleTtl, store.absoluteTtl, store.cap, limiter.config) }

    constructor (store: SessionStore, limiter: Limits.Limiter)
      ensures this.store == store && this.limiter == limiter && reauthAt == []
    {
      this.store, this.limiter := store, limiter;
      reauthAt := [];
    }

    method PruneReauth(now: real)
      modifies this`reauthAt
      ensures reauthAt == OpenWindows(old(reauthAt), store.sessions, now)
    {
      var kept: Dict<string, real> := [];
      for k := 0 to |reauthAt|
        invariant reauthAt == old(reauthAt)
        invariant kept + OpenWindows(reauthAt[k..], store.sessions, now) == OpenWindows(reauthAt, store.sessions, now)
      {
        var stale := now - reauthAt[k].1 >= REAUTH_WINDOW || !Has(store.sessions, reauthAt[k].0);
        var part := if stale then [] else [reauthAt[k]];
        OpenAt(reauthAt, store.sessions, k, now);
        Assoc(kept, part, OpenWindows(reauthAt[k + 1..], store.sessions, now));
        kept := kept + part;
      }
      assert reauthAt[|reauthAt|..] == [];
      assert kept + [] == kept;
      reauthAt := kept;
    }

    method ReauthFresh(token: string, now: real) returns (ok: bool)
      modifies this`reauthAt
      ensures ok <==> Fresh(old(reauthAt), token, now)
      ensures reauthAt == if Has(old(reauthAt), token) && !ok then Drop(old(reauthAt), token) else old(reauthAt)
    {
      var moment := Get(reauthAt, token);
      if moment.None? {
        return false;
      }
      if now - moment.value >= REAUTH_WINDOW {
        reauthAt := Drop(reauthAt, token);
        return false;
      }
      return true;
    }

    method Authorize(r: Request) returns (outcome: Outcome)
      requires r.Call? && DistinctKeys(reauthAt)
      modifies this`reauthAt, store`sessions, limiter`entries
      ensures (Now(), outcome) == Authorized(old(Now()), r, Settings())
    {
      hide Limits.Pruned, Limits.Recorded, OpenWindows, Validated, CsrfOk, DistinctKeys, Drop, Put;
      var live := store.Validate(r.token, r.now);
      if !live {
        return Unauthenticated;
      }
      ghost var windows := reauthAt;
      PruneReauth(r.now);
      if r.unsafe && !CsrfOk(store.sessions, r.token, r.csrf) {
        return BadCsrf;
      }
      if r.route in {ReauthRequired, WindowOnly} {
        GetOpen(windows, store.sessions, r.now, r.token);
        var open := ReauthFresh(r.token, r.now);
        if open {
          return Ran;
        }
        if r.route == WindowOnly {
          return ReauthNeeded;
        }
        var allowed, _ := limiter.Check(r.peer, r.now);
        if !allowed {
          return Limited;
        }
        if r.correct {
          limiter.RecordSuccess(r.peer);
          reauthAt := Put(reauthAt, r.token, r.now);
          return Proved;
        }
        limiter.RecordFailure(r.peer, r.now);
        return ReauthNeeded;
      }
      return Ran;
    }

    method HandleLogin(r: Request) returns (outcome: Outcome)
      requires r.Login? && !Has(Live(store.sessions, r.now), r.token)
      modifies store`sessions, limiter`entries
      ensures (Now(), outcome) == LoginHandled(old(Now()), r, Settings())
    {
      var allowed, _ := limiter.Check(r.peer, r.now);
      if !allowed {
        return Limited;
      }
      if r.correct {
        limiter.RecordSuccess(r.peer);
        assert !Has(Live(store.sessions, r.now), [r.token][0]);
        var _ := store.Create(r.now, [r.token], r.draw);
        return LoggedIn;
      }
      limiter.RecordFailure(r.peer, r.now);
      return Refused;
    }

    method HandleLogout(token: string)
      modifies this`reauthAt, store`sessions
      ensures store.sessions == Drop(old(store.sessions), token) && reauthAt == Drop(old(reauthAt), token)
    {
      var _ := store.Revoke(token);
      reauthAt := Drop(reauthAt, token);
    }
  }

  // ------------------------------------------------------------------ runs and their histories

  function After(run: seq<Request>, c: Config): State {
    if run == [] then State([], [], []) else Handled(After(run[..|run| - 1], c), run[|run| - 1], c).0
  }

  /** How the last request of the run was answered. */
  function Answer(run: seq<Request>, c: Config): Outcome
    requires run != []
  {
    Handled(After(run[..|run| - 1], c), run[|run| - 1], c).1
  }

  /** The moments at which the token was handed out and then accepted. */
  function Uses(run: seq<Request>, token: string, c: Config): seq<real> {
    if run == [] then []
    else
      var r := run[|run| - 1];
      var uses := Uses(run[..|run| - 1], token, c);
      if r.token != token then uses
      else if r.Login? then if Answer(run, c) == LoggedIn then [r.now] else uses
      else if Answer(run, c) == Unauthenticated then uses
      else uses + [r.now]
  }

  /** The moment of the token's last accepted password since it was handed out or logged out. */
  function Proof(run: seq<Request>, token: string, c: Config): Option<real> {
    if run == [] then None
    else
      var r := run[|run| - 1];
      if r.token == token && Answer(run, c) == Proved then Some(r.now)
      else if r.token == token && Ends(run, c) then None
      else Proof(run[..|run| - 1], token, c)
  }

  /** The last request hands out a token or logs it out. */
  predicate Ends(run: seq<Request>, c: Config)
    requires run != []
  {
    var r := run[|run| - 1];
    (r.Login? && Answer(run, c) == LoggedIn) || (r.Call? && r.route == Logout && Answer(run, c) == Ran)
  }

  ghost predicate Drawn(run: seq<Request>, token: string) {
    exists i :: 0 <= i < |run| && run[i].Login? && run[i].token == token
  }

  /** The clock never goes back, and no two logins draw the same token. */
  ghost predicate Sane(run: seq<Request>) {
    && (forall i, j :: 0 <= i < j < |run| ==> run[i].now <= run[j].now)
    && (forall i, j :: 0 <= i < j < |run| && run[i].Login? && run[j].Login? ==> run[i].token != run[j].token)
  }

  /** Consecutive uses closer than the idle limit, all under the absolute limit. */
  ghost predicate Held(uses: seq<real>, c: Config) {
    && uses != []
    && (forall i :: 0 < i < |uses| ==> uses[i] - uses[i - 1] < c.idleTtl && uses[i] - uses[0] < c.absoluteTtl)
  }

  // ------------------------------------------------------------------ lookups

  lemma {:induction false} GetOpen(w: Dict<string, real>, d: Store, now: real, token: string)
    requires DistinctKeys(w)
    ensures DistinctKeys(OpenWindows(w, d, now))
    ensures Get(OpenWindows(w, d, now), token) == if Fresh(w, token, now) && Has(d, token) then Get(w, token) else None
  {
    if w != [] {
      DistinctTail(w);
      GetOpen(w[1..], d, now, token);
      GetOpen(w[1..], d, now, w[0].0);
      if now - w[0].1 >= REAUTH_WINDOW || !Has(d, w[0].0) {
        assert OpenWindows(w, d, now) == OpenWindows(w[1..], d, now);
      } else {
        DistinctCons(w[0].0, w[0].1, OpenWindows(w[1..], d, now));
        assert OpenWindows(w, d, now)[1..] == OpenWindows(w[1..], d, now);
      }
    }
  }

  lemma GetValidated(d: Store, token: string, now: real, t: string)
    requires DistinctKeys(d)
    ensures DistinctKeys(Validated(d, token, now)) && |Validated(d, token, now)| <= |d|
    ensures Get(Validated(d, token, now), t) ==
            if t != token then Get(d, t)
            else if Accepts(d, t, now) then Some(Get(d, t).value.(lastSeen := now))
            else None
  {
    if Has(d, token) {
      var e := Get(d, token).value.(lastSeen := now);
      GetDrop(d, token, t);
      DropShrinks(d, token);
      GetPut(d, token, e, t);
      PutDistinct(d, token, e);
      PutSameSize(d, token, e);
    }
  }

  lemma {:induction false} DropShrinks<K, V>(d: Dict<K, V>, k: K)
    ensures |Drop(d, k)| <= |d|
  {
    if d != [] && d[0].0 != k {
      DropShrinks(d[1..], k);
    }
  }

  lemma {:induction false} PutSameSize<K, V>(d: Dict<K, V>, k: K, v: V)
    requires Has(d, k)
    ensures |Put(d, k, v)| == |d|
  {
    if d[0].0 != k {
      PutSameSize(d[1..], k, v);
    }
  }

  /** Being seen by a moment, lookup by lookup. */
  lemma SeenIff(d: Store, now: real)
    requires DistinctKeys(d)
    ensures SeenBy(d, now) <==> forall t :: Has(d, t) ==> Get(d, t).value.lastSeen <= now
  {
    if SeenBy(d, now) {
      forall t | Has(d, t) ensures Get(d, t).value.lastSeen <= now {
        GetIn(d, t);
      }
    } else {
      var i :| 0 <= i < |d| && d[i].1.lastSeen > now;
      GetAt(d, i);
      assert Has(d, d[i].0);
    }
  }

  lemma SeenValidated(d: Store, token: string, before: real, now: real)
    requires DistinctKeys(d) && SeenBy(d, before) && before <= now
    ensures DistinctKeys(Validated(d, token, now)) && SeenBy(Validated(d, token, now), now)
  {
    GetValidated(d, token, now, token);
    SeenIff(d, before);
    forall t | Has(Validated(d, token, now), t) ensures Get(Validated(d, token, now), t).value.lastSeen <= now {
      GetValidated(d, token, now, t);
      hide Validated;
    }
    SeenIff(Validated(d, token, now), now);
  }

  lemma SeenDropped(d: Store, token: string, now: real)
    requires DistinctKeys(d) && SeenBy(d, now)
    ensures DistinctKeys(Drop(d, token)) && SeenBy(Drop(d, token), now) && |Drop(d, token)| <= |d|
  {
    GetDrop(d, token, token);
    DropShrinks(d, token);
    SeenIff(d, now);
    forall t | Has(Drop(d, token), t) ensures Get(Drop(d, token), t).value.lastSeen <= now {
      GetDrop(d, token, t);
    }
    SeenIff(Drop(d, token), now);
  }

  lemma GetCreated(d: Store, token: string, s: Session, now: real, cap: nat, t: string)
    requires DistinctKeys(d)
    ensures DistinctKeys(Created(d, token, s, now, cap))
    ensures t != token ==> Get(Created(d, token, s, now, cap), t) in {None, Get(d, t)}
    ensures t == token ==> Get(Created(d, token, s, now, cap), t) in {None, Some(s)}
  {
    GetLive(d, t, now);
    var d1 := Put(Live(d, now), token, s);
    PutDistinct(Live(d, now), token, s);
    GetPut(Live(d, now), token, s, t);
    hide Live, Put, Get, Omit, DistinctKeys;
    if |d1| > cap && d1 != [] {
      GetOmit(d1, Oldest(d1), t);
    }
  }

  lemma SeenCreated(d: Store, token: string, s: Session, before: real, now: real, cap: nat)
    requires DistinctKeys(d) && SeenBy(d, before) && before <= now && s.lastSeen == now
    ensures DistinctKeys(Created(d, token, s, now, cap)) && SeenBy(Created(d, token, s, now, cap), now)
  {
    GetCreated(d, token, s, now, cap, token);
    SeenIff(d, before);
    forall t | Has(Created(d, token, s, now, cap), t)
      ensures Get(Created(d, token, s, now, cap), t).value.lastSeen <= now {
      GetCreated(d, token, s, now, cap, t);
      hide Created;
    }
    SeenIff(Created(d, token, s, now, cap), now);
  }

  // ------------------------------------------------------------------ the store's own invariant

  ghost predicate Tidy(s: State, now: real, c: Config) {
    && DistinctKeys(s.sessions) && DistinctKeys(s.reauthAt)
    && |s.sessions| <= c.cap
    && SeenBy(s.sessions, now)
  }

  lemma SeenLater(d: Store, before: real, now: real)
    requires SeenBy(d, before) && before <= now
    ensures SeenBy(d, now)
  {
  }

  lemma TidyStep(s: State, r: Request, before: real, c: Config)
    requires Tidy(s, before, c) && before <= r.now && c.cap >= 1
    requires r.Login? ==> !Has(Live(s.sessions, r.now), r.token)
    ensures Tidy(Handled(s, r, c).0, r.now, c)
  {
    hide DistinctKeys, SeenBy, Created, Validated, OpenWindows, Drop, Put, Live, Get, Accepts, Fresh, CsrfOk;
    hide Limits.Pruned, Limits.Allowed, Limits.Recorded;
    SeenLater(s.sessions, before, r.now);
    if r.Login? {
      var session := Session(r.draw, r.now, r.now, c.idleTtl, c.absoluteTtl);
      CreateKeepsNewest(s.sessions, r.token, session, r.now, c.cap);
      SeenCreated(s.sessions, r.token, session, before, r.now, c.cap);
    } else {
      SeenValidated(s.sessions, r.token, before, r.now);
      GetValidated(s.sessions, r.token, r.now, r.token);
      if r.Call? {
        var d := Validated(s.sessions, r.token, r.now);
        var w := OpenWindows(s.reauthAt, d, r.now);
        GetOpen(s.reauthAt, d, r.now, r.token);
        PutDistinct(w, r.token, r.now);
        GetDrop(w, r.token, r.token);
        SeenDropped(d, r.token, r.now);
      }
    }
  }

  // ------------------------------------------------------------------ state against history

  /** How a token's session and window agree with its history at the clock reading `now`. */
  ghost predicate Agrees(e: Option<Session>, w: Option<real>, uses: seq<real>, proof: Option<real>, now: real,
                         c: Config)
  {
    && (e.Some? ==>
          && e.value.idleTtl == c.idleTtl && e.value.absoluteTtl == c.absoluteTtl
          && Held(uses, c) && e.value.created == uses[0] && e.value.lastSeen == uses[|uses| - 1])
    && (w.Some? ==> w == proof)
    && (e.Some? && w.None? && proof.Some? ==> now - proof.value >= REAUTH_WINDOW)
  }

  ghost predicate Knows(s: State, run: seq<Request>, now: real, token: string, c: Config) {
    && Agrees(Get(s.sessions, token), Get(s.reauthAt, token), Uses(run, token, c), Proof(run, token, c), now, c)
    && (Has(s.sessions, token) || Has(s.reauthAt, token) ==> Drawn(run, token))
  }

  lemma HeldMore(uses: seq<real>, now: real, c: Config)
    requires Held(uses, c) && now - uses[|uses| - 1] < c.idleTtl && now - uses[0] < c.absoluteTtl
    ensures Held(uses + [now], c)
  {
  }

  lemma DrawnMore(run: seq<Request>, token: string)
    requires run != []
    ensures Drawn(run, token) <==>
            Drawn(run[..|run| - 1], token) || (run[|run| - 1].Login? && run[|run| - 1].token == token)
  {
    var n := |run| - 1;
    if Drawn(run[..n], token) {
      var i :| 0 <= i < n && run[..n][i].Login? && run[..n][i].token == token;
      assert run[i].Login? && run[i].token == token;
    }
    if Drawn(run, token) && !(run[n].Login? && run[n].token == token) {
      var i :| 0 <= i < |run| && run[i].Login? && run[i].token == token;
      assert run[..n][i] == run[i];
    }
  }

  lemma CallShape(s: State, r: Request, c: Config)
    requires r.Call?
    ensures var (s1, o) := Handled(s, r, c);
      var d := Validated(s.sessions, r.token, r.now);
      var w := OpenWindows(s.reauthAt, d, r.now);
      && (o == Unauthenticated <==> !Accepts(s.sessions, r.token, r.now))
      && s1.sessions == (if r.route == Logout && o == Ran then Drop(d, r.token) else d)
      && s1.reauthAt == (if o == Unauthenticated then s.reauthAt
                         else if o == Proved then Put(w, r.token, r.now)
                         else if r.route == Logout && o == Ran then Drop(w, r.token)
                         else w)
  {
    hide Validated, OpenWindows, Accepts, Drop, Put, Fresh, CsrfOk;
    hide Limits.Pruned, Limits.Allowed, Limits.Recorded;
  }

  /** What a call leaves of a token's session. */
  lemma CallSession(s: State, r: Request, t: string, c: Config)
    requires r.Call? && DistinctKeys(s.sessions)
    ensures var (s1, o) := Handled(s, r, c);
      && (o == Unauthenticated <==> !Accepts(s.sessions, r.token, r.now))
      && Get(s1.sessions, t) ==
           (if t != r.token then Get(s.sessions, t)
            else if o == Unauthenticated || (r.route == Logout && o == Ran) then None
            else Some(Get(s.sessions, t).value.(lastSeen := r.now)))
  {
    var d := Validated(s.sessions, r.token, r.now);
    CallShape(s, r, c);
    GetValidated(s.sessions, r.token, r.now, t);
    GetDrop(d, r.token, t);
    hide Handled, Get, Validated, OpenWindows, DistinctKeys, Drop, Put, Expired;
  }

  /** What a call leaves of a token's window. */
  lemma CallWindow(s: State, r: Request, t: string, c: Config)
    requires r.Call? && DistinctKeys(s.sessions) && DistinctKeys(s.reauthAt)
    ensures var (s1, o) := Handled(s, r, c);
      && (o == Unauthenticated <==> !Accepts(s.sessions, r.token, r.now))
      && Get(s1.reauthAt, t) ==
           (if o == Unauthenticated then Get(s.reauthAt, t)
            else if t == r.token && o == Proved then Some(r.now)
            else if t == r.token && r.route == Logout && o == Ran then None
            else if Fresh(s.reauthAt, t, r.now) && Has(s.sessions, t) then Get(s.reauthAt, t)
            else None)
  {
    var d := Validated(s.sessions, r.token, r.now);
    var w := OpenWindows(s.reauthAt, d, r.now);
    CallShape(s, r, c);
    GetValidated(s.sessions, r.token, r.now, t);
    GetOpen(s.reauthAt, d, r.now, t);
    GetPut(w, r.token, r.now, t);
    GetDrop(w, r.token, t);
    hide Handled, Get, Validated, OpenWindows, DistinctKeys, Drop, Put, Expired, Fresh;
  }

  /** Agreement does not depend on the clock or on a session or stale window that goes away. */
  lemma AgreesLater(e: Option<Session>, w: Option<real>, uses: seq<real>, proof: Option<real>, before: real,
                    now: real, c: Config)
    requires Agrees(e, w, uses, proof, before, c) && before <= now
    ensures Agrees(e, w, uses, proof, now, c) && Agrees(None, w, uses, proof, now, c)
    ensures e.None? || w.None? || now - w.value >= REAUTH_WINDOW ==> Agrees(e, None, uses, proof, now, c)
  {
    hide Held;
  }

  /** Agreement after one more accepted use, with the window kept, gone stale, opened or closed. */
  lemma AgreesUsed(e: Session, w: Option<real>, uses: seq<real>, proof: Option<real>, before: real, now: real,
                   c: Config)
    requires Agrees(Some(e), w, uses, proof, before, c) && before <= now && !Expired(e, now)
    ensures var e1 := Some(e.(lastSeen := now));
      && Agrees(e1, w, uses + [now], proof, now, c)
      && (w.None? || now - w.value >= REAUTH_WINDOW ==> Agrees(e1, None, uses + [now], proof, now, c))
      && Agrees(e1, Some(now), uses + [now], Some(now), now, c)
    ensures Agrees(None, None, uses + [now], None, now, c)
  {
    HeldMore(uses, now, c);
    hide Held;
  }

  lemma AgreesNew(e: Session, now: real, c: Config)
    requires e.idleTtl == c.idleTtl && e.absoluteTtl == c.absoluteTtl && e.created == e.lastSeen == now
    ensures Agrees(Some(e), None, [now], None, now, c) && Agrees(None, None, [now], None, now, c)
  {
  }

  lemma KnowsCall(s: State, run: seq<Request>, before: real, t: string, c: Config)
    requires run != [] && run[|run| - 1].Call? && before <= run[|run| - 1].now
    requires s == After(run[..|run| - 1], c) && Tidy(s, before, c) && Knows(s, run[..|run| - 1], before, t, c)
    ensures Knows(After(run, c), run, run[|run| - 1].now, t, c)
  {
    hide Handled, Held, DistinctKeys, Drawn, Get, SeenBy, Agrees;
    var r := run[|run| - 1];
    CallSession(s, r, t, c);
    CallWindow(s, r, t, c);
    DrawnMore(run, t);
    var uses, proof, o := Uses(run[..|run| - 1], t, c), Proof(run[..|run| - 1], t, c), Handled(s, r, c).1;
    assert Uses(run, t, c) == if r.token == t && o != Unauthenticated then uses + [r.now] else uses;
    assert Proof(run, t, c) == if r.token == t && o == Proved then Some(r.now)
                               else if r.token == t && r.route == Logout && o == Ran then None
                               else proof;
    assert After(run, c) == Handled(s, r, c).0;
    hide Uses, Proof, After, Answer;
    AgreesLater(Get(s.sessions, t), Get(s.reauthAt, t), uses, proof, before, r.now, c);
    if t == r.token && o != Unauthenticated {
      AgreesUsed(Get(s.sessions, t).value, Get(s.reauthAt, t), uses, proof, before, r.now, c);
    }
  }

  lemma KnowsAlive(s: State, run: seq<Request>, before: real, t: string, c: Config)
    requires run != [] && run[|run| - 1].Alive? && before <= run[|run| - 1].now
    requires s == After(run[..|run| - 1], c) && Tidy(s, before, c) && Knows(s, run[..|run| - 1], before, t, c)
    ensures Knows(After(run, c), run, run[|run| - 1].now, t, c)
  {
    hide Held, Validated, DistinctKeys, Drawn, Get, SeenBy, Agrees;
    var r := run[|run| - 1];
    GetValidated(s.sessions, r.token, r.now, t);
    DrawnMore(run, t);
    var uses, proof := Uses(run[..|run| - 1], t, c), Proof(run[..|run| - 1], t, c);
    assert Uses(run, t, c) == if r.token == t && Accepts(s.sessions, t, r.now) then uses + [r.now] else uses;
    assert Proof(run, t, c) == proof;
    assert After(run, c) == s.(sessions := Validated(s.sessions, r.token, r.now));
    hide Uses, Proof, After, Answer, Handled;
    AgreesLater(Get(s.sessions, t), Get(s.reauthAt, t), uses, proof, before, r.now, c);
    if t == r.token && Accepts(s.sessions, t, r.now) {
      AgreesUsed(Get(s.sessions, t).value, Get(s.reauthAt, t), uses, proof, before, r.now, c);
    }
  }

  lemma KnowsLogin(s: State, run: seq<Request>, before: real, t: string, c: Config)
    requires run != [] && run[|run| - 1].Login? && before <= run[|run| - 1].now
    requires s == After(run[..|run| - 1], c) && Tidy(s, before, c) && Knows(s, run[..|run| - 1], before, t, c)
    requires !Drawn(run[..|run| - 1], run[|run| - 1].token)
    ensures Knows(After(run, c), run, run[|run| - 1].now, t, c)
  {
    hide Created, DistinctKeys, Drawn, Get, SeenBy, Limits.Pruned, Limits.Allowed, Limits.Recorded, Drop, Agrees;
    var r := run[|run| - 1];
    var session := Session(r.draw, r.now, r.now, c.idleTtl, c.absoluteTtl);
    GetCreated(s.sessions, r.token, session, r.now, c.cap, t);
    DrawnMore(run, t);
    var (s1, o) := LoginHandled(s, r, c);
    assert s1.reauthAt == s.reauthAt;
    assert s1.sessions == if o == LoggedIn then Created(s.sessions, r.token, session, r.now, c.cap) else s.sessions;
    hide LoginHandled;
    var uses, proof := Uses(run[..|run| - 1], t, c), Proof(run[..|run| - 1], t, c);
    assert Uses(run, t, c) == if r.token == t && o == LoggedIn then [r.now] else uses;
    assert Proof(run, t, c) == if r.token == t && o == LoggedIn then None else proof;
    assert After(run, c) == s1;
    hide Uses, Proof, After, Answer;
    AgreesLater(Get(s.sessions, t), Get(s.reauthAt, t), uses, proof, before, r.now, c);
    AgreesNew(session, r.now, c);
  }

  function LastMoment(run: seq<Request>): real { if run == [] then 0.0 else run[|run| - 1].now }

  lemma SanePrefix(run: seq<Request>)
    requires Sane(run) && run != []
    ensures Sane(run[..|run| - 1])
    ensures |run| > 1 ==> LastMoment(run[..|run| - 1]) <= run[|run| - 1].now
    ensures run[|run| - 1].Login? ==> !Drawn(run[..|run| - 1], run[|run| - 1].token)
  {
    var n := |run| - 1;
    assert forall i :: 0 <= i < n ==> run[..n][i] == run[i];
  }

  /** Along every run the store stays within its cap and agrees with the history of every token. */
  lemma {:induction false} Invariant(run: seq<Request>, t: string, c: Config)
    requires Sane(run) && c.cap >= 1
    ensures Tidy(After(run, c), LastMoment(run), c)
    ensures Knows(After(run, c), run, LastMoment(run), t, c)
  {
    if run != [] {
      var n := |run| - 1;
      var s, r := After(run[..n], c), run[n];
      SanePrefix(run);
      Invariant(run[..n], t, c);
      Invariant(run[..n], r.token, c);
      var before := if n == 0 then r.now else LastMoment(run[..n]);
      GetLive(s.sessions, r.token, r.now);
      TidyStep(s, r, before, c);
      hide Handled, Sane, SeenBy, DistinctKeys, Uses, Proof, Live;
      match r {
        case Login(_, _, _, _, _) => KnowsLogin(s, run, before, t, c);
        case Call(_, _, _, _, _, _, _) => KnowsCall(s, run, before, t, c);
        case Alive(_, _) => KnowsAlive(s, run, before, t, c);
      }
    }
  }

  // ------------------------------------------------------------------ theorems

  /**
   * A window-only request runs exactly when its session is accepted, its CSRF token matches, and
   * the session's last password check, not undone by a logout, is less than the window ago.
   */
  lemma WindowOnlyIff(run: seq<Request>, c: Config)
    requires Sane(run) && c.cap >= 1 && run != []
    requires run[|run| - 1].Call? && run[|run| - 1].route == WindowOnly
    ensures var r := run[|run| - 1];
      var s, proof := After(run[..|run| - 1], c), Proof(run[..|run| - 1], r.token, c);
      Answer(run, c) == Ran <==>
        && Accepts(s.sessions, r.token, r.now)
        && (r.unsafe ==> CsrfOk(s.sessions, r.token, r.csrf))
        && proof.Some? && r.now - proof.value < REAUTH_WINDOW
  {
    var n := |run| - 1;
    var s, r := After(run[..n], c), run[n];
    SanePrefix(run);
    Invariant(run[..n], r.token, c);
    var d := Validated(s.sessions, r.token, r.now);
    GetValidated(s.sessions, r.token, r.now, r.token);
    GetOpen(s.reauthAt, d, r.now, r.token);
    hide Held, Validated, OpenWindows, DistinctKeys, Drawn, Get, SeenBy, Expired, After, Proof, Uses, Sane;
  }

  /** An accepted session was handed out, then used without an idle gap and within its absolute limit. */
  lemma AcceptedIsHeld(run: seq<Request>, c: Config)
    requires Sane(run) && c.cap >= 1 && run != []
    requires !run[|run| - 1].Login? && Answer(run, c) != Unauthenticated
    ensures var r := run[|run| - 1];
      Held(Uses(run, r.token, c), c) && Uses(run, r.token, c)[|Uses(run, r.token, c)| - 1] == r.now
  {
    var n := |run| - 1;
    var s, r := After(run[..n], c), run[n];
    SanePrefix(run);
    Invariant(run[..n], r.token, c);
    if r.Call? {
      CallShape(s, r, c);
    }
    HeldMore(Uses(run[..n], r.token, c), r.now, c);
    hide Held, DistinctKeys, Drawn, SeenBy, After, Proof, Sane;
  }

  /** Request `j` of the run gave the right password with this token, and no logout or new login of it came since. */
  ghost predicate ProvedAt(run: seq<Request>, j: nat, t: string, c: Config) {
    && j < |run| && run[j].token == t && run[j].Call? && run[j].correct
    && Answer(run[..j + 1], c) == Proved
    && (forall k :: j < k < |run| && run[k].token == t ==> !Ends(run[..k + 1], c))
  }

  lemma ProvedStill(run: seq<Request>, j: nat, t: string, c: Config)
    requires run != [] && ProvedAt(run[..|run| - 1], j, t, c)
    requires run[|run| - 1].token == t ==> !Ends(run, c)
    ensures ProvedAt(run, j, t, c)
  {
    hide Answer, Ends;
    var n := |run| - 1;
    assert run[..n + 1] == run;
    assert run[..n][..j + 1] == run[..j + 1];
    forall k | j < k < |run| && run[k].token == t ensures !Ends(run[..k + 1], c) {
      if k < n {
        assert run[..n][k].token == t;
        assert run[..n][..k + 1] == run[..k + 1];
      }
    }
  }

  /** The recorded proof is such a request. */
  lemma {:induction false} ProofMeans(run: seq<Request>, t: string, c: Config)
    ensures Proof(run, t, c).Some? ==>
              exists j: nat :: ProvedAt(run, j, t, c) && run[j].now == Proof(run, t, c).value
  {
    if run != [] && Proof(run, t, c).Some? {
      var n := |run| - 1;
      assert run[..n + 1] == run;
      if run[n].token == t && Answer(run, c) == Proved {
        ProvedIsCorrect(After(run[..n], c), run[n], c);
        hide Handled, After, Answer, Ends;
        assert ProvedAt(run, n, t, c);
      } else {
        ProofMeans(run[..n], t, c);
        hide Handled, After, Answer, Ends, ProvedAt;
        var j: nat :| ProvedAt(run[..n], j, t, c) && j < n && run[..n][j].now == Proof(run[..n], t, c).value;
        ProvedStill(run, j, t, c);
      }
    }
  }

  lemma ProvedIsCorrect(s: State, r: Request, c: Config)
    requires Handled(s, r, c).1 == Proved
    ensures r.Call? && r.correct && r.route == ReauthRequired
  {
  }

  /**
   * A window-only handler runs only after the same session gave the right password less than five
   * minutes earlier with no logout since, while the session is within its idle and absolute limits.
   */
  lemma WindowOnlyGuarded(run: seq<Request>, c: Config)
    requires Sane(run) && c.cap >= 1 && run != []
    requires run[|run| - 1].Call? && run[|run| - 1].route == WindowOnly && Answer(run, c) == Ran
    ensures var r, before := run[|run| - 1], run[..|run| - 1];
      && Held(Uses(run, r.token, c), c)
      && exists j: nat :: ProvedAt(before, j, r.token, c) && r.now - before[j].now < REAUTH_WINDOW
  {
    WindowOnlyIff(run, c);
    AcceptedIsHeld(run, c);
    ProofMeans(run[..|run| - 1], run[|run| - 1].token, c);
  }

  /** Sessions never exceed the cap, and a login's own session is stored when it is answered. */
  lemma CapAndNewest(run: seq<Request>, c: Config)
    requires Sane(run) && c.cap >= 1
    ensures |After(run, c).sessions| <= c.cap
    ensures run != [] && run[|run| - 1].Login? && Answer(run, c) == LoggedIn ==>
              Get(After(run, c).sessions, run[|run| - 1].token)
              == Some(Session(run[|run| - 1].draw, run[|run| - 1].now, run[|run| - 1].now, c.idleTtl, c.absoluteTtl))
  {
    Invariant(run, "", c);
    if run != [] && run[|run| - 1].Login? {
      var n := |run| - 1;
      var s, r := After(run[..n], c), run[n];
      SanePrefix(run);
      Invariant(run[..n], r.token, c);
      GetLive(s.sessions, r.token, r.now);
      if n > 0 {
        SeenLater(s.sessions, LastMoment(run[..n]), r.now);
      }
      hide SeenBy, Live, DistinctKeys, Sane, Created;
      CreateKeepsNewest(s.sessions, r.token, Session(r.draw, r.now, r.now, c.idleTtl, c.absoluteTtl), r.now, c.cap);
    }
  }

  // ------------------------------------------------------------------ password guesses

  /** The request gets as far as the rate limiter: every login, and a re-authentication without an open window. */
  predicate AsksPassword(s: State, r: Request) {
    r.Login? ||
    (r.Call? && r.route == ReauthRequired && Accepts(s.sessions, r.token, r.now)
     && (var d := Validated(s.sessions, r.token, r.now);
         (r.unsafe ==> CsrfOk(d, r.token, r.csrf)) && !Fresh(OpenWindows(s.reauthAt, d, r.now), r.token, r.now)))
  }

  /** The password attempts of a run, as the limiter sees them. */
  function Guesses(run: seq<Request>, c: Config): seq<Limits.Attempt> {
    if run == [] then []
    else
      var r := run[|run| - 1];
      Guesses(run[..|run| - 1], c)
      + if AsksPassword(After(run[..|run| - 1], c), r) then [Limits.Attempt(r.peer, r.now, r.correct)] else []
  }

  lemma GuessStep(s: State, r: Request, c: Config)
    ensures Handled(s, r, c).0.failures ==
            if AsksPassword(s, r) then Limits.Step(s.failures, Limits.Attempt(r.peer, r.now, r.correct), c.limits)
            else s.failures
  {
    hide Limits.Pruned, Limits.Recorded, Limits.Allowed, Accepts, CsrfOk, Fresh, Validated, OpenWindows, Put, Drop,
      Created;
  }

  /** Every password test, at login or at re-authentication, is one attempt of the same limiter. */
  lemma {:induction false} FailuresFollowGuesses(run: seq<Request>, c: Config)
    ensures After(run, c).failures == Limits.After(Guesses(run, c), c.limits)
  {
    if run != [] {
      var n := |run| - 1;
      var s, r, before := After(run[..n], c), run[n], Guesses(run[..n], c);
      FailuresFollowGuesses(run[..n], c);
      GuessStep(s, r, c);
      hide Handled, AsksPassword, Limits.Step;
      if AsksPassword(s, r) {
        assert Guesses(run, c)[..|before|] == before;
      } else {
        assert Guesses(run, c) == before;
      }
    }
  }

  lemma TimelyNothing()
    ensures Limits.Timely([])
  {
  }

  lemma TimelyMore(attempts: seq<Limits.Attempt>, a: Limits.Attempt)
    requires Limits.Timely(attempts) && a.now >= 0.0 && forall i :: 0 <= i < |attempts| ==> attempts[i].now <= a.now
    ensures Limits.Timely(attempts + [a])
  {
  }

  /** The guesses come in the order of the clock. */
  lemma {:induction false} GuessesTimely(run: seq<Request>, c: Config)
    requires Sane(run) && forall i :: 0 <= i < |run| ==> run[i].now >= 0.0
    ensures Limits.Timely(Guesses(run, c))
    ensures forall i :: 0 <= i < |Guesses(run, c)| ==> run != [] && Guesses(run, c)[i].now <= run[|run| - 1].now
  {
    if run == [] {
      TimelyNothing();
    } else {
      var before, r := run[..|run| - 1], run[|run| - 1];
      SanePrefix(run);
      var asks := AsksPassword(After(before, c), r);
      assert asks ==> !r.Alive?;
      assert Guesses(run, c) == Guesses(before, c) + if asks then [Limits.Attempt(r.peer, r.now, r.correct)] else [];
      hide AsksPassword, After, Limits.Timely, Sane, Guesses;
      GuessesTimely(before, c);
      assert before != [] ==> LastMoment(before) <= r.now;
      if asks {
        TimelyMore(Guesses(before, c), Limits.Attempt(r.peer, r.now, r.correct));
      } else {
        assert Guesses(before, c) + [] == Guesses(before, c);
      }
    }
  }

  /**
   * Over every run of requests, wrong passwords from one peer, given at login or at re-authentication,
   * are throttled: closer together than the window they number at most the threshold, and each lockout
   * is served in full.
   */
  lemma GuessesAreThrottled(run: seq<Request>, peer: string, c: Config)
    requires Sane(run) && (forall i :: 0 <= i < |run| ==> run[i].now >= 0.0) && Limits.Covering(c.limits)
    ensures Limits.Spaced(Limits.History(Guesses(run, c), peer, c.limits), c.limits)
    ensures Limits.LockoutsServed(Limits.History(Guesses(run, c), peer, c.limits), c.limits)
    ensures Limits.EntryOf(After(run, c).failures, peer).streak <= 1
  {
    GuessesTimely(run, c);
    FailuresFollowGuesses(run, c);
    hide Limits.Timely, Limits.Spaced, Limits.LockoutsServed, Limits.History, Sane;
    Limits.FailuresAreThrottled(Guesses(run, c), peer, c.limits);
  }
}
