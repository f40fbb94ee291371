/** The session store of concepts/SessionConcept.ts: sessions keyed by id, each with a bearer
    token, an expiry instant and an active flag. Times are milliseconds; `now` stands for the
    `Date.now()` reading the action takes. */
module Sessions {
  import opened Wrappers
  import opened Keyed

  datatype Session = Session(id: string, userId: string, token: string,
                             createdAt: real, expiresAt: real, active: bool)

  /** The success output of `validate`: `{ id, userId }`. */
  datatype Validated = Validated(id: string, userId: string)

  const InvalidParameters := "Invalid session parameters"
  const NotFound := "Session not found"
  const Inactive := "Session is inactive"
  const InvalidToken := "Invalid token"
  const Expired := "Session has expired"

  /** The expiry instant of a session lasting `duration` seconds from `now`. */
  function Deadline(now: real, duration: real): real {
    now + duration * 1000.0
  }

  /** The session `id` is stored, active, holds `token`, and has not expired at `now`. */
  predicate Live(sessions: map<string, Session>, id: string, token: string, now: real) {
    id in sessions && sessions[id].active && sessions[id].token == token && now <= sessions[id].expiresAt
  }

  /** The checks `validate` and `refresh` make, in their order: missing, inactive, wrong token,
      expired. */
  function Verdict(sessions: map<string, Session>, id: string, token: string, now: real): (r: Result<Session>)
    ensures r.Ok? <==> Live(sessions, id, token, now)
    ensures r.Ok? ==> r.value == sessions[id]
    ensures r == Err(Expired) <==>
      id in sessions && sessions[id].active && sessions[id].token == token && now > sessions[id].expiresAt
    ensures r == Err(NotFound) <==> id !in sessions
  {
    if id !in sessions then Err(NotFound)
    else if !sessions[id].active then Err(Inactive)
    else if sessions[id].token != token then Err(InvalidToken)
    else if now > sessions[id].expiresAt then Err(Expired)
    else Ok(sessions[id])
  }

  /** The ids `cleanup(t)` removes. */
  function ExpiredIds(sessions: map<string, Session>, t: real): set<string> {
    set k | k in sessions && t > sessions[k].expiresAt
  }

  function HasToken(token: string): Session -> bool {
    (s: Session) => s.token == token
  }

  function ActiveOf(userId: string): Session -> bool {
    (s: Session) => s.userId == userId && s.active
  }

  function ExpiredAt(t: real): Session -> bool {
    (s: Session) => t > s.expiresAt
  }

  /** A session that `create` stores is live for its token from its creation until its deadline,
      and from then on `validate` reports it expired. */
  lemma CreatedSessionLifetime(sessions: map<string, Session>, id: string, userId: string, token: string,
                               duration: real, now: real, later: real)
    requires duration > 0.0 && now <= later
    ensures var s := sessions[id := Session(id, userId, token, now, Deadline(now, duration), true)];
      && (later <= Deadline(now, duration) ==> Verdict(s, id, token, later) == Ok(s[id]))
      && (later > Deadline(now, duration) ==> Verdict(s, id, token, later) == Err(Expired))
  {
  }

  class SessionConcept {
    var sessions: map<string, Session>
    var order: seq<string>

    ghost predicate Valid()
      reads this
    {
      Ordered(order, sessions) && forall k :: k in sessions ==> sessions[k].id == k
    }

    constructor ()
      ensures Valid() && sessions == map[] && order == []
    {
      sessions := map[];
      order := [];
    }

    /** `create`: rejects an empty user id, an empty token or a non-positive duration; otherwise
        stores (or replaces) the active session `id`. */
    method Create(id: string, userId: string, token: string, duration: real, now: real) returns (r: Result<string>)
      requires Valid()
      modifies this
      ensures Valid()
      ensures r.Err? <==> userId == "" || token == "" || duration <= 0.0
      ensures r.Err? ==> r.error == InvalidParameters && sessions == old(sessions) && order == old(order)
      ensures r.Ok? ==> (r.value == id && order == Put(old(order), id)
        && sessions == old(sessions)[id := Session(id, userId, token, now, Deadline(now, duration), true)])
    {
      if userId == "" || token == "" || duration <= 0.0 {
        return Err(InvalidParameters);
      }
      sessions := sessions[id := Session(id, userId, token, now, Deadline(now, duration), true)];
      order := Put(order, id);
      r := Ok(id);
    }

    /** `validate`: answers with the `Verdict`; only an expired session is touched, and it is
        deactivated. */
    method Validate(id: string, token: string, now: real) returns (r: Result<Validated>)
      requires Valid()
      modifies this
      ensures Valid() && order == old(order)
      ensures r.Ok? <==> Live(old(sessions), id, token, now)
      ensures r.Ok? ==> r.value == Validated(id, old(sessions)[id].userId)
      ensures r.Err? ==> r == Err(Verdict(old(sessions), id, token, now).error)
      ensures sessions == if r == Err(Expired) then old(sessions)[id := old(sessions)[id].(active := false)]
                          else old(sessions)
    {
      if id !in sessions {
        return Err(NotFound);
      }
      var session := sessions[id];
      if !session.active {
        return Err(Inactive);
      }
      if session.token != token {
        return Err(InvalidToken);
      }
      if now > session.expiresAt {
        sessions := sessions[id := session.(active := false)];
        return Err(Expired);
      }
      r := Ok(Validated(session.id, session.userId));
    }

    /** `invalidate`: with the matching token, deactivates the session whatever its state. */
    method Invalidate(id: string, token: string) returns (r: Result<string>)
      requires Valid()
      modifies this
      ensures Valid() && order == old(order)
      ensures r.Ok? <==> id in old(sessions) && old(sessions)[id].token == token
      ensures id !in old(sessions) ==> r == Err(NotFound)
      ensures id in old(sessions) && old(sessions)[id].token != token ==> r == Err(InvalidToken)
      ensures r.Ok? ==> r.value == id && sessions == old(sessions)[id := old(sessions)[id].(active := false)]
      ensures r.Err? ==> sessions == old(sessions)
    {
      if id !in sessions {
        return Err(NotFound);
      }
      var session := sessions[id];
      if session.token != token {
        return Err(InvalidToken);
      }
      sessions := sessions[id := session.(active := false)];
      r := Ok(id);
    }

    /** `refresh`: a live session gets the deadline `now + duration`; an expired one is
        deactivated instead; anything else changes nothing. */
    method Refresh(id: string, token: string, duration: real, now: real) returns (r: Result<string>)
      requires Valid()
      modifies this
      ensures Valid() && order == old(order)
      ensures r.Ok? <==> Live(old(sessions), id, token, now)
      ensures r.Ok? ==> (r.value == id
        && sessions == old(sessions)[id := old(sessions)[id].(expiresAt := Deadline(now, duration))])
      ensures r.Err? ==> r == Err(Verdict(old(sessions), id, token, now).error)
      ensures r == Err(Expired) ==> sessions == old(sessions)[id := old(sessions)[id].(active := false)]
      ensures r.Err? && r != Err(Expired) ==> sessions == old(sessions)
    {
      if id !in sessions {
        return Err(NotFound);
      }
      var session := sessions[id];
      if !session.active {
        return Err(Inactive);
      }
      if session.token != token {
        return Err(InvalidToken);
      }
      if now > session.expiresAt {
        sessions := sessions[id := session.(active := false)];
        return Err(Expired);
      }
      sessions := sessions[id := session.(expiresAt := Deadline(now, duration))];
      r := Ok(id);
    }

    /** `cleanup(t)`: collects the ids of the sessions with `t > expiresAt`, active or not, then
        deletes them; every other session stays as it was. */
    method Cleanup(currentTime: real)
      requires Valid()
      modifies this
      ensures Valid()
      ensures sessions == old(sessions) - ExpiredIds(old(sessions), currentTime)
      ensures order == Without(old(order), ExpiredIds(old(sessions), currentTime))
      ensures forall k :: k in sessions ==> currentTime <= sessions[k].expiresAt
    {
      var expired := CollectExpired(currentTime);
      ghost var gone := ExpiredIds(sessions, currentTime);
      assert Members(expired) == gone;
      DeleteAll(expired);
    }

    /** The second loop of `cleanup`: `sessions.delete(id)` for each collected id. */
    method DeleteAll(ids: seq<string>)
      requires Valid()
      modifies this
      ensures Valid()
      ensures sessions == old(sessions) - Members(ids)
      ensures order == Without(old(order), Members(ids))
    {
      DeletePreservesOrder(order, sessions, Members(ids));
      sessions, order := DeleteKeys(sessions, order, ids);
    }

    /** The first loop of `cleanup`: the ids of the expired sessions, in insertion order. */
    method CollectExpired(currentTime: real) returns (expired: seq<string>)
      requires Valid()
      ensures forall k :: k in expired <==> k in ExpiredIds(sessions, currentTime)
    {
      expired := [];
      for i := 0 to |order|
        invariant forall k :: k in expired <==> k in order[..i] && currentTime > sessions[k].expiresAt
      {
        var id := order[i];
        if currentTime > sessions[id].expiresAt {
          expired := expired + [id];
        }
      }
      assert order[..|order|] == order;
    }

    /** `_getById`: at most one session, the one stored under `id`. */
    function GetById(id: string): (r: seq<Session>)
      requires Valid()
      reads this
      ensures |r| <= 1
      ensures r != [] <==> id in sessions
      ensures forall s :: s in r ==> s.id == id && s in sessions.Values
    {
      if id in sessions then [sessions[id]] else []
    }

    /** `_getByToken`: the first session in insertion order that holds `token`, if any. */
    method GetByToken(token: string) returns (r: seq<Session>)
      requires Valid()
      ensures |r| <= 1
      ensures r == [] <==> forall k :: k in sessions ==> sessions[k].token != token
      ensures forall s :: s in r ==> s.token == token && s in sessions.Values
      ensures var i := FirstIndex(order, sessions, HasToken(token));
        r == if i < |order| then [sessions[order[i]]] else []
    {
      var i := Scan(order, sessions, HasToken(token));
      if i < |order| {
        r := [sessions[order[i]]];
      } else {
        r := [];
        NoneFound(order, sessions, HasToken(token));
      }
    }

    /** `_getByUserId`: the active sessions of `userId`, in insertion order. */
    method GetByUserId(userId: string) returns (r: seq<Session>)
      requires Valid()
      ensures r == Select(order, sessions, ActiveOf(userId))
      ensures forall s :: s in r <==> s in sessions.Values && s.userId == userId && s.active
    {
      r := Collect(order, sessions, ActiveOf(userId));
      SelectExactly(order, sessions, ActiveOf(userId));
    }

    /** `_getExpired(t)`: the sessions with `t > expiresAt`, active or not, in insertion order. */
    method GetExpired(currentTime: real) returns (r: seq<Session>)
      requires Valid()
      ensures r == Select(order, sessions, ExpiredAt(currentTime))
      ensures forall s :: s in r <==> s in sessions.Values && currentTime > s.expiresAt
    {
      r := Collect(order, sessions, ExpiredAt(currentTime));
      SelectExactly(order, sessions, ExpiredAt(currentTime));
    }
  }
}
