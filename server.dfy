/** The request-level logic of server.ts: reading the bearer token, checking a session before an
    endpoint acts, the access decisions of the logout and simulation-list endpoints, and the
    mapping from a URL path to a static file and its content type. */
module Server {
  import opened Wrappers
  import opened Text
  import opened Keyed
  import Sessions
  import Users
  import Storage

  // ---- the Authorization header ----

  const Bearer := "Bearer "

  /** `extractToken`: the text after `Bearer ` in the Authorization header, when there is such a
      header and it starts that way. */
  function ExtractToken(header: Option<string>): (r: Option<string>)
    ensures r.Some? <==> header.Some? && StartsWith(header.value, Bearer)
    ensures r.Some? ==> header.value == Bearer + r.value
  {
    if header.Some? && header.value != "" && StartsWith(header.value, Bearer) then
      assert header.value == Bearer + header.value[|Bearer|..];
      Some(header.value[|Bearer|..])
    else None
  }

  /** A JavaScript string that is neither missing nor empty, which `!token` tests for. */
  predicate Present(s: Option<string>) {
    s.Some? && s.value != ""
  }

  /** A header `Bearer t` yields a usable token exactly when `t` is not empty. */
  lemma BearerRoundTrip(t: string)
    ensures ExtractToken(Some(Bearer + t)) == Some(t)
    ensures Present(ExtractToken(Some(Bearer + t))) <==> t != ""
  {
    assert (Bearer + t)[..|Bearer|] == Bearer;
  }

  // ---- validateSession ----

  /** What `validateSession` answers on success. */
  datatype Caller = Caller(userId: string, username: string)

  /** `Session._getByToken(token)[0]`: the first session in insertion order holding `token`. */
  function Holder(sessions: map<string, Sessions.Session>, order: seq<string>, token: string)
    : (r: Option<Sessions.Session>)
    requires Ordered(order, sessions)
    ensures r.Some? ==> r.value.token == token && r.value in sessions.Values
    ensures r.None? <==> forall k :: k in sessions ==> sessions[k].token != token
  {
    var i := FirstIndex(order, sessions, Sessions.HasToken(token));
    if i < |order| then Some(sessions[order[i]])
    else
      NoneFound(order, sessions, Sessions.HasToken(token));
      None
  }

  /** The holder `validateSession` looks at, or none when the token is missing or empty. */
  function HolderOf(sessions: map<string, Sessions.Session>, order: seq<string>, token: Option<string>)
    : Option<Sessions.Session>
    requires Ordered(order, sessions)
  {
    if Present(token) then Holder(sessions, order, token.value) else None
  }

  /** The answer of `validateSession`: the holder must be active, unexpired at `now`, and belong
      to a stored user. */
  function Admitted(sessions: map<string, Sessions.Session>, order: seq<string>,
                    users: map<string, Users.User>, token: Option<string>, now: real): (r: Option<Caller>)
    requires Ordered(order, sessions)
    ensures r.Some? ==> Present(token) && r.value.userId in users
                        && r.value.username == users[r.value.userId].username
                        && exists id :: id in sessions && Sessions.Live(sessions, id, token.value, now)
                                        && sessions[id].userId == r.value.userId
  {
    var h := HolderOf(sessions, order, token);
    if h.None? || !h.value.active || now > h.value.expiresAt || h.value.userId !in users then None
    else
      assert exists id :: id in sessions && Sessions.Live(sessions, id, token.value, now)
                          && sessions[id].userId == h.value.userId by {
        var k :| k in sessions && sessions[k] == h.value;
        assert Sessions.Live(sessions, k, token.value, now);
      }
      Some(Caller(h.value.userId, users[h.value.userId].username))
  }

  /** Whether `validateSession` ends the holder's session: it is active but expired at `now`. */
  predicate Ends(h: Option<Sessions.Session>, now: real) {
    h.Some? && h.value.active && now > h.value.expiresAt
  }

  /** A caller is admitted only if no session of an earlier position holds the same token and
      the admitted session would also pass `validate`; conversely, when the first holder is
      live and its user exists, the caller is admitted. */
  lemma AdmittedIffLive(sessions: map<string, Sessions.Session>, order: seq<string>,
                        users: map<string, Users.User>, token: string, now: real)
    requires Ordered(order, sessions)
    requires forall k :: k in sessions ==> sessions[k].id == k
    ensures var h := Holder(sessions, order, token);
      Admitted(sessions, order, users, Some(token), now).Some? <==>
        token != "" && h.Some? && Sessions.Live(sessions, h.value.id, token, now) && h.value.userId in users
  {
    var h := Holder(sessions, order, token);
    if h.Some? {
      var k :| k in sessions && sessions[k] == h.value;
    }
  }

  /** `validateSession(token)`: looks the token up, ends the holder's session when it has
      expired, and admits the holder's user otherwise. */
  method ValidateSession(session: Sessions.SessionConcept, user: Users.UserConcept, token: Option<string>,
                         now: real) returns (r: Option<Caller>)
    requires session.Valid() && user.Valid()
    modifies session
    ensures session.Valid() && session.order == old(session.order)
    ensures r == Admitted(old(session.sessions), old(session.order), user.users, token, now)
    ensures var h := HolderOf(old(session.sessions), old(session.order), token);
      session.sessions == if Ends(h, now) then old(session.sessions)[h.value.id := h.value.(active := false)]
                          else old(session.sessions)
  {
    if !Present(token) {
      return None;
    }
    var held := session.GetByToken(token.value);
    if held == [] {
      return None;
    }
    var s := held[0];
    if !s.active {
      return None;
    }
    if now > s.expiresAt {
      var _ := session.Invalidate(s.id, token.value);
      return None;
    }
    var profiles := user.GetById(s.userId);
    if profiles == [] {
      return None;
    }
    r := Some(Caller(profiles[0].id, profiles[0].username));
  }

  // ---- endpoints ----

  const NoToken := "No token provided"
  const AuthRequired := "Authentication required"

  /** `POST /api/auth/logout`: without a token it fails; with one it ends the first session
      holding that token, if any, and succeeds. */
  method Logout(session: Sessions.SessionConcept, header: Option<string>) returns (r: Result<()>)
    requires session.Valid()
    modifies session
    ensures session.Valid() && session.order == old(session.order)
    ensures var token := ExtractToken(header);
      && (r.Ok? <==> Present(token))
      && (r.Err? ==> r.error == NoToken && session.sessions == old(session.sessions))
      && (r.Ok? ==> var h := Holder(old(session.sessions), old(session.order), token.value);
            session.sessions == if h.Some? then old(session.sessions)[h.value.id := h.value.(active := false)]
                                else old(session.sessions))
  {
    var token := ExtractToken(header);
    if !Present(token) {
      return Err(NoToken);
    }
    var held := session.GetByToken(token.value);
    if held != [] {
      var _ := session.Invalidate(held[0].id, token.value);
    }
    r := Ok(());
  }

  /** `GET /api/simulations/list?userId=`: the simulations of `userId`, in insertion order, but
      only for a caller whose session belongs to that very user; checking the session ends it when
      it has expired, and changes nothing else. */
  method List(session: Sessions.SessionConcept, user: Users.UserConcept, storage: Storage.SimulationStorageConcept,
              userId: Option<string>, header: Option<string>, now: real) returns (r: Result<seq<Storage.Saved>>)
    requires session.Valid() && user.Valid() && storage.Valid()
    modifies session
    ensures session.Valid() && session.order == old(session.order)
    ensures var token := ExtractToken(header);
      var caller := Admitted(old(session.sessions), old(session.order), user.users, token, now);
      && (!Present(userId) || !Present(token) ==> r == Err(AuthRequired) && session.sessions == old(session.sessions))
      && (Present(userId) && Present(token) && (caller.None? || caller.value.userId != userId.value) ==>
            r == Err(Storage.AccessDenied))
      && (r.Ok? <==> Present(userId) && Present(token) && caller.Some? && caller.value.userId == userId.value)
      && (r.Ok? ==> r.value == Select(storage.order, storage.saved, Storage.OwnedBy(userId.value)))
    ensures Present(userId) ==> var h := HolderOf(old(session.sessions), old(session.order), ExtractToken(header));
      session.sessions == if Ends(h, now) then old(session.sessions)[h.value.id := h.value.(active := false)]
                          else old(session.sessions)
    ensures r.Ok? ==> forall s :: s in r.value ==> s.userId == userId.value && s in storage.saved.Values
  {
    var token := ExtractToken(header);
    if !Present(userId) || !Present(token) {
      return Err(AuthRequired);
    }
    var caller := ValidateSession(session, user, token, now);
    if caller.None? || caller.value.userId != userId.value {
      return Err(Storage.AccessDenied);
    }
    var found := storage.GetByUserId(userId.value);
    r := Ok(found);
  }

  // ---- static files ----

  /** The file `serveStaticFile` reads for a URL path: `/` means `user-app.html`, and one leading
      slash is dropped. */
  function StaticPath(path: string): (r: string)
    ensures path == "/" ==> r == "user-app.html"
    ensures path != "/" && StartsWith(path, "/") ==> "/" + r == path
    ensures !StartsWith(path, "/") ==> r == path
  {
    var p := if path == "/" then "/user-app.html" else path;
    if StartsWith(p, "/") then
      assert p == "/" + p[1..];
      p[1..]
    else p
  }

  /** The content type `getContentType` gives a lower-cased extension. */
  function MimeType(ext: string): (r: string)
    ensures r == "text/plain" <==> ext !in {"html", "js", "css", "png", "jpg", "jpeg", "ico", "svg"}
    ensures r == "image/jpeg" <==> ext == "jpg" || ext == "jpeg"
  {
    match ext
    case "html" => "text/html"
    case "js" => "application/javascript"
    case "css" => "text/css"
    case "png" => "image/png"
    case "jpg" => "image/jpeg"
    case "jpeg" => "image/jpeg"
    case "ico" => "image/x-icon"
    case "svg" => "image/svg+xml"
    case _ => "text/plain"
  }

  /** `getContentType(filePath)`: by the lower-cased text after the last dot. */
  function ContentType(filePath: string): (r: string)
    ensures r in {"text/html", "application/javascript", "text/css", "image/png", "image/jpeg", "image/x-icon",
                  "image/svg+xml", "text/plain"}
    ensures r == "text/plain" <==>
      Lower(LastPart(filePath, '.')) !in {"html", "js", "css", "png", "jpg", "jpeg", "ico", "svg"}
  {
    MimeType(Lower(LastPart(filePath, '.')))
  }

  /** The type of `name.ext` depends only on `ext`, whatever case it is written in and whatever
      dots `name` holds; a path with no dot at all is read as if it were all extension. */
  lemma ContentTypeByExtension(name: string, ext: string)
    requires '.' !in ext
    ensures ContentType(name + "." + ext) == MimeType(Lower(ext))
    ensures ContentType(name + "." + ext) == ContentType(name + "." + Lower(ext))
    ensures '.' !in name ==> ContentType(name) == MimeType(Lower(name))
  {
    LastPartAfter(name, '.', ext);
    LastPartAfter(name, '.', Lower(ext));
    LowerIdempotent(ext);
  }
}
