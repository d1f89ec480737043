/** The server-side session store of `app/admin_auth.py`. */
module Sessions {
  import opened Common

  datatype Session = Session(csrf: string, created: real, lastSeen: real, idleTtl: real, absoluteTtl: real)

  type Store = Dict<string, Session>

  predicate Expired(s: Session, now: real) {
    now - s.created >= s.absoluteTtl || now - s.lastSeen >= s.idleTtl
  }

  /** The sessions that have not expired, in order. */
  function Live(d: Store, now: real): Store {
    if d == [] then []
    else (if Expired(d[0].1, now) then [] else [d[0]]) + Live(d[1..], now)
  }

  lemma LiveAt(d: Store, k: nat, now: real)
    requires k < |d|
    ensures Live(d[k..], now) == (if Expired(d[k].1, now) then [] else [d[k]]) + Live(d[k + 1..], now)
  {
    assert d[k..][0] == d[k] && d[k..][1..] == d[k + 1..];
  }

  /** The position of the first session of least `lastSeen`. */
  function Oldest(d: Store): (i: nat)
    requires d != []
    ensures i < |d|
    ensures forall j :: 0 <= j < |d| ==> d[i].1.lastSeen <= d[j].1.lastSeen
    ensures forall j :: 0 <= j < i ==> d[i].1.lastSeen < d[j].1.lastSeen
  {
    if |d| == 1 then 0
    else
      var k := Oldest(d[..|d| - 1]);
      assert forall j :: 0 <= j < |d| - 1 ==> d[..|d| - 1][j] == d[j];
      if d[|d| - 1].1.lastSeen < d[k].1.lastSeen then |d| - 1 else k
  }

  function Created(d: Store, token: string, s: Session, now: real, cap: nat): Store {
    var d1 := Put(Live(d, now), token, s);
    if |d1| > cap && d1 != [] then Omit(d1, Oldest(d1)) else d1
  }

  /** Whether the token is accepted. */
  predicate Accepts(d: Store, token: string, now: real) {
    Has(d, token) && !Expired(Get(d, token).value, now)
  }

  function Validated(d: Store, token: string, now: real): Store {
    if !Has(d, token) then d
    else if Expired(Get(d, token).value, now) then Drop(d, token)
    else Put(d, token, Get(d, token).value.(lastSeen := now))
  }

  predicate CsrfOk(d: Store, token: string, csrf: Option<string>) {
    csrf.Some? && Has(d, token) && Get(d, token).value.csrf == csrf.value
  }

  class SessionStore {
    const idleTtl: real
    const absoluteTtl: real
    const cap: nat
    var sessions: Store

    constructor (idleTtl: real, absoluteTtl: real, cap: nat)
      ensures this.idleTtl == idleTtl && this.absoluteTtl == absoluteTtl && this.cap == cap && sessions == []
    {
      this.idleTtl, this.absoluteTtl, this.cap := idleTtl, absoluteTtl, cap;
      sessions := [];
    }

    method Prune(now: real)
      modifies this`sessions
      ensures sessions == Live(old(sessions), now)
    {
      var kept: Store := [];
      for k := 0 to |sessions|
        invariant sessions == old(sessions)
        invariant kept + Live(sessions[k..], now) == Live(sessions, now)
      {
        var part := if Expired(sessions[k].1, now) then [] else [sessions[k]];
        LiveAt(sessions, k, now);
        Assoc(kept, part, Live(sessions[k + 1..], now));
        kept := kept + part;
      }
      assert sessions[|sessions|..] == [];
      assert kept + [] == kept;
      sessions := kept;
    }

    /** `draws` are the random tokens; the first one that no live session uses is taken. */
    method Create(now: real, draws: seq<string>, csrf: string) returns (token: string)
      requires exists i :: 0 <= i < |draws| && !Has(Live(sessions, now), draws[i])
      modifies this`sessions
      ensures token in draws && !Has(Live(old(sessions), now), token)
      ensures sessions == Created(old(sessions), token, Session(csrf, now, now, idleTtl, absoluteTtl), now, cap)
    {
      Prune(now);
      var i := 0;
      while Has(sessions, draws[i])
        invariant 0 <= i < |draws|
        invariant exists j :: i <= j < |draws| && !Has(sessions, draws[j])
        decreases |draws| - i
      {
        i := i + 1;
      }
      token := draws[i];
      sessions := Put(sessions, token, Session(csrf, now, now, idleTtl, absoluteTtl));
      if |sessions| > cap && sessions != [] {
        var oldest := Oldest(sessions);
        sessions := Omit(sessions, oldest);
      }
    }

    method Validate(token: string, now: real) returns (ok: bool)
      modifies this`sessions
      ensures sessions == Validated(old(sessions), token, now)
      ensures ok <==> Accepts(old(sessions), token, now)
    {
      var record := Get(sessions, token);
      if record.None? {
        return false;
      }
      if now - record.value.created >= record.value.absoluteTtl {
        sessions := Drop(sessions, token);
        return false;
      }
      if now - record.value.lastSeen >= record.value.idleTtl {
        sessions := Drop(sessions, token);
        return false;
      }
      sessions := Put(sessions, token, record.value.(lastSeen := now));
      return true;
    }

    method Revoke(token: string) returns (existed: bool)
      modifies this`sessions
      ensures sessions == Drop(old(sessions), token)
      ensures existed <==> Has(old(sessions), token)
    {
      existed := Has(sessions, token);
      sessions := Drop(sessions, token);
    }
  }

  // ------------------------------------------------------------------ lookups

  lemma {:induction false} GetLive(d: Store, token: string, now: real)
    requires DistinctKeys(d)
    ensures DistinctKeys(Live(d, now)) && |Live(d, now)| <= |d|
    ensures Get(Live(d, now), token) == if Accepts(d, token, now) then Get(d, token) else None
  {
    if d != [] {
      DistinctTail(d);
      GetLive(d[1..], token, now);
      GetLive(d[1..], d[0].0, now);
      if Expired(d[0].1, now) {
        assert Live(d, now) == Live(d[1..], now);
      } else {
        DistinctCons(d[0].0, d[0].1, Live(d[1..], now));
        assert Live(d, now)[1..] == Live(d[1..], now);
      }
    }
  }

  /** No session has been seen later than `now`. */
  ghost predicate SeenBy(d: Store, now: real) {
    forall i :: 0 <= i < |d| ==> d[i].1.lastSeen <= now
  }

  /**
   * Creating a session keeps the store within its cap, keeps the new session, and every other
   * session it drops had expired or was, at the cap, the one seen longest ago.
   */
  lemma CreateKeepsNewest(d: Store, token: string, s: Session, now: real, cap: nat)
    requires DistinctKeys(d) && |d| <= cap && SeenBy(d, now)
    requires cap >= 1 && !Has(Live(d, now), token) && s.lastSeen == now
    ensures |Created(d, token, s, now, cap)| <= cap
    ensures Get(Created(d, token, s, now, cap), token) == Some(s)
    ensures |Live(d, now)| < cap ==>
              forall t :: Get(Created(d, token, s, now, cap), t)
                          == if t == token then Some(s) else Get(Live(d, now), t)
    ensures |Live(d, now)| == cap ==>
              exists gone :: && Has(Live(d, now), gone)
                && (forall t :: Has(Live(d, now), t) ==>
                      Get(Live(d, now), gone).value.lastSeen <= Get(Live(d, now), t).value.lastSeen)
                && (forall t :: Get(Created(d, token, s, now, cap), t)
                                == if t == token then Some(s) else if t == gone then None else Get(Live(d, now), t))
  {
    GetLive(d, token, now);
    var l := Live(d, now);
    var d1 := Put(l, token, s);
    PutAppends(l, token, s);
    PutDistinct(l, token, s);
    assert d1 == l + [(token, s)];
    forall t ensures Get(d1, t) == if t == token then Some(s) else Get(l, t) {
      GetPut(l, token, s, t);
    }
    if |l| == cap {
      EvictsOlder(d, l, d1, token, s, now);
      hide Live, Oldest, Put, Get, Omit, DistinctKeys;
      var gone := d1[Oldest(d1)].0;
      forall t ensures Get(Created(d, token, s, now, cap), t)
                       == if t == token then Some(s) else if t == gone then None else Get(l, t) {
        GetOmit(d1, Oldest(d1), t);
      }
    }
  }

  lemma {:induction false} LiveSeen(d: Store, now: real)
    requires SeenBy(d, now)
    ensures SeenBy(Live(d, now), now)
  {
    if d != [] {
      LiveSeen(d[1..], now);
    }
  }

  /** The session evicted at the cap is an old one, seen longest ago. */
  lemma EvictsOlder(d: Store, l: Store, d1: Store, token: string, s: Session, now: real)
    requires l == Live(d, now) && l != [] && d1 == l + [(token, s)] && SeenBy(d, now) && s.lastSeen == now
    requires DistinctKeys(l) && DistinctKeys(d1)
    ensures var gone := d1[Oldest(d1)].0;
      gone != token && Has(l, gone) &&
      forall t :: Has(l, t) ==> Get(l, gone).value.lastSeen <= Get(l, t).value.lastSeen
  {
    LiveSeen(d, now);
    var i := Oldest(d1);
    assert d1[0] == l[0] && d1[|l|] == (token, s);
    assert i < |l|;
    assert d1[i] == l[i];
    GetAt(l, i);
    forall t | Has(l, t) ensures Get(l, l[i].0).value.lastSeen <= Get(l, t).value.lastSeen {
      GetIn(l, t);
      var j :| 0 <= j < |l| && l[j] == (t, Get(l, t).value);
      assert d1[j] == l[j];
    }
  }
}
