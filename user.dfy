/** The account store of concepts/UserConcept.ts: users keyed by id with a unique username and
    e-mail address and a hex-encoded password digest. The SHA-256 digest itself is a parameter of
    the store (`digest`); only its hex encoding is modelled. */
module Users {
  import opened Wrappers
  import opened Text
  import opened Keyed

  type Byte = b: int | 0 <= b < 256

  datatype User = User(id: string, username: string, email: string, passwordHash: string,
                       createdAt: real, lastLogin: real)

  /** What `_getById` and `_getByEmail` show: a user without the password hash. */
  datatype Profile = Profile(id: string, username: string, email: string, createdAt: real, lastLogin: real)

  /** What `_validateToken` shows. */
  datatype Identity = Identity(id: string, username: string, email: string)

  /** The success output of `login`. */
  datatype SignedIn = SignedIn(id: string, token: string)

  const UsernameTaken := "Username already exists"
  const EmailTaken := "Email already exists"
  const ShortUsername := "Username must be at least 3 characters long"
  const BadEmail := "Invalid email address"
  const ShortPassword := "Password must be at least 6 characters long"
  const BadCredentials := "Invalid username or password"
  const UserNotFound := "User not found"
  const WrongPassword := "Incorrect old password"
  const ShortNewPassword := "New password must be at least 6 characters long"

  // ---- hashPassword's encoding: `b.toString(16).padStart(2, '0')` for each byte, joined ----

  /** The lower-case hexadecimal digit of `d`. */
  function HexDigit(d: nat): (c: char)
    requires d < 16
    ensures '0' <= c <= '9' || 'a' <= c <= 'f'
  {
    if d < 10 then ('0' as int + d) as char else ('a' as int + d - 10) as char
  }

  /** The value of a lower-case hexadecimal digit. */
  function DigitValue(c: char): (d: nat)
    ensures d < 16
  {
    if '0' <= c <= '9' then c as int - '0' as int
    else if 'a' <= c <= 'f' then c as int - 'a' as int + 10
    else 0
  }

  predicate IsHexDigit(c: char) {
    '0' <= c <= '9' || 'a' <= c <= 'f'
  }

  /** One byte as exactly two digits, the high one first. */
  function HexPair(b: Byte): (r: string)
    ensures |r| == 2 && IsHexDigit(r[0]) && IsHexDigit(r[1])
    ensures DigitValue(r[0]) * 16 + DigitValue(r[1]) == b
  {
    [HexDigit(b / 16), HexDigit(b % 16)]
  }

  /** The digest as a hexadecimal string. */
  function Hex(bs: seq<Byte>): (r: string)
    ensures |r| == 2 * |bs|
    ensures forall i :: 0 <= i < |r| ==> IsHexDigit(r[i])
  {
    if bs == [] then [] else HexPair(bs[0]) + Hex(bs[1..])
  }

  /** Reads pairs of hexadecimal digits back into bytes. */
  function Unhex(s: string): seq<Byte>
    decreases |s|
  {
    if |s| < 2 then [] else [DigitValue(s[0]) * 16 + DigitValue(s[1])] + Unhex(s[2..])
  }

  /** The encoding loses nothing: decoding it gives the digest back. */
  lemma {:induction false} UnhexHex(bs: seq<Byte>)
    ensures Unhex(Hex(bs)) == bs
  {
    if bs != [] {
      var h := Hex(bs);
      assert h[..2] == HexPair(bs[0]);
      assert h[2..] == Hex(bs[1..]);
      UnhexHex(bs[1..]);
    }
  }

  /** So two stored hashes are equal exactly when the digests are: `verifyPassword` compares
      digests. */
  lemma HexInjective(a: seq<Byte>, b: seq<Byte>)
    ensures Hex(a) == Hex(b) <==> a == b
  {
    if Hex(a) == Hex(b) {
      UnhexHex(a);
      UnhexHex(b);
    }
  }

  // ---- the duplicate checks of register and updateProfile ----

  /** The loop test of `register`: the stored user has the username or the e-mail. */
  function Clashes(username: string, email: string): User -> bool {
    (u: User) => u.username == username || u.email == email
  }

  /** The loop test of `updateProfile`: as `Clashes`, for users other than `id`. */
  function ClashesOther(id: string, username: string, email: string): User -> bool {
    (u: User) => u.id != id && (u.username == username || u.email == email)
  }

  /** The error of the first user (in insertion order) that `clash` catches: a username match is
      reported before an e-mail match of the same user. */
  function Conflict(users: map<string, User>, order: seq<string>, clash: User -> bool, username: string): (r: Option<string>)
    requires Ordered(order, users)
    ensures r.None? <==> forall k :: k in users ==> !clash(users[k])
    ensures r.Some? ==> r.value == UsernameTaken || r.value == EmailTaken
    ensures r == Some(UsernameTaken) <==>
      exists i :: FirstMatch(order, users, clash, i) && users[order[i]].username == username
    ensures r == Some(EmailTaken) <==>
      exists i :: FirstMatch(order, users, clash, i) && users[order[i]].username != username
  {
    var i := FirstIndex(order, users, clash);
    FirstMatchOnly(users, order, clash, i);
    if i == |order| then
      NoneFound(order, users, clash);
      None
    else if users[order[i]].username == username then Some(UsernameTaken)
    else Some(EmailTaken)
  }

  /** Every first match is the one the search found. */
  lemma FirstMatchOnly(users: map<string, User>, order: seq<string>, clash: User -> bool, i: nat)
    requires Ordered(order, users) && i == FirstIndex(order, users, clash)
    ensures forall j :: FirstMatch(order, users, clash, j) ==> j == i
  {
    forall j | FirstMatch(order, users, clash, j) ensures j == i {
      FirstMatchFound(order, users, clash, j);
    }
  }

  /** The username `register` and `updateProfile` store. */
  function NormalName(username: string): string {
    Trim(username)
  }

  /** The e-mail address `register` and `updateProfile` store. */
  function NormalEmail(email: string): string {
    Lower(Trim(email))
  }

  /** `register`'s duplicate check as written: the raw input against the stored, normalised
      values. */
  function RawRegisterConflict(users: map<string, User>, order: seq<string>, username: string, email: string): (r: Option<string>)
    requires Ordered(order, users)
    ensures r.None? <==> forall k :: k in users ==> users[k].username != username && users[k].email != email
    ensures r == Some(UsernameTaken) <==>
      exists i :: FirstMatch(order, users, Clashes(username, email), i) && users[order[i]].username == username
  {
    Conflict(users, order, Clashes(username, email), username)
  }

  /** `register`'s duplicate check on the values it is about to store. */
  function RegisterConflict(users: map<string, User>, order: seq<string>, username: string, email: string): (r: Option<string>)
    requires Ordered(order, users)
    ensures r.None? <==> forall k :: k in users ==>
      users[k].username != NormalName(username) && users[k].email != NormalEmail(email)
    ensures r == Some(UsernameTaken) <==>
      exists i :: FirstMatch(order, users, Clashes(NormalName(username), NormalEmail(email)), i)
                  && users[order[i]].username == NormalName(username)
  {
    Conflict(users, order, Clashes(NormalName(username), NormalEmail(email)), NormalName(username))
  }

  /** `updateProfile`'s duplicate check on the values it is about to store. */
  function ProfileConflict(users: map<string, User>, order: seq<string>, id: string, username: string, email: string): (r: Option<string>)
    requires Ordered(order, users)
    ensures r.None? <==> forall k :: k in users && users[k].id != id ==>
      users[k].username != NormalName(username) && users[k].email != NormalEmail(email)
    ensures r == Some(UsernameTaken) <==>
      exists i :: FirstMatch(order, users, ClashesOther(id, NormalName(username), NormalEmail(email)), i)
                  && users[order[i]].username == NormalName(username)
  {
    Conflict(users, order, ClashesOther(id, NormalName(username), NormalEmail(email)), NormalName(username))
  }

  /** `updateProfile`'s duplicate check as written: the raw input against the stored, normalised
      values of the other users. */
  function RawProfileConflict(users: map<string, User>, order: seq<string>, id: string, username: string, email: string): (r: Option<string>)
    requires Ordered(order, users)
    ensures r.None? <==> forall k :: k in users && users[k].id != id ==>
      users[k].username != username && users[k].email != email
    ensures r == Some(UsernameTaken) <==>
      exists i :: FirstMatch(order, users, ClashesOther(id, username, email), i) && users[order[i]].username == username
  {
    Conflict(users, order, ClashesOther(id, username, email), username)
  }

  /** The input checks of `register` and `updateProfile`, in order. */
  function ProfileError(username: string, email: string): (r: Option<string>)
    ensures r.None? <==> |Trim(username)| >= 3 && '@' in email
    ensures |Trim(username)| < 3 ==> r == Some(ShortUsername)
    ensures |Trim(username)| >= 3 && '@' !in email ==> r == Some(BadEmail)
  {
    IncludesChar(email, '@');
    if username == "" || |Trim(username)| < 3 then Some(ShortUsername)
    else if email == "" || !Includes(email, "@") then Some(BadEmail)
    else None
  }

  /** No two stored users share a username or an e-mail address. */
  ghost predicate Unique(users: map<string, User>) {
    forall a, b :: a in users && b in users && a != b ==>
      users[a].username != users[b].username && users[a].email != users[b].email
  }

  /** Storing a user whose username and e-mail no other user holds keeps them unique. */
  lemma StoreKeepsUnique(users: map<string, User>, u: User)
    requires Unique(users)
    requires forall k :: k in users && k != u.id ==> users[k].username != u.username && users[k].email != u.email
    ensures Unique(users[u.id := u])
  {
  }

  /** Replacing a user by one with the same username and e-mail keeps them unique. */
  lemma SameNamesKeepUnique(users: map<string, User>, u: User)
    requires Unique(users) && u.id in users
    requires u.username == users[u.id].username && u.email == users[u.id].email
    ensures Unique(users[u.id := u])
  {
    StoreKeepsUnique(users, u);
  }

  /** One stored user, "alice". */
  function AliceOnly(): map<string, User> {
    map["u1" := User("u1", "alice", "a@x.org", "", 0.0, 0.0)]
  }

  lemma PaddedAlice()
    ensures NormalName(" alice") == "alice"
  {
    var a := "alice";
    assert !IsSpace(a[0]) && !IsSpace(a[|a| - 1]);
    assert TrimStart(a) == a && TrimEnd(a) == a;
    assert IsSpace(" alice"[0]) && " alice"[1..] == a;
  }

  /** The duplicate check as written lets " alice" through next to a stored "alice": it sees no
      clash, the input passes the checks, and the stored username would be "alice" a second time. */
  lemma RawConflictAdmitsDuplicate()
    ensures RawRegisterConflict(AliceOnly(), ["u1"], " alice", "b@x.org").None?
    ensures ProfileError(" alice", "b@x.org").None?
    ensures NormalName(" alice") == AliceOnly()["u1"].username
  {
    RawMissesAlice();
    PaddedPasses();
    PaddedAlice();
  }

  lemma RawMissesAlice()
    ensures RawRegisterConflict(AliceOnly(), ["u1"], " alice", "b@x.org").None?
  {
    var clash := Clashes(" alice", "b@x.org");
    assert !clash(AliceOnly()["u1"]) by {
      assert " alice"[0] != "alice"[0];
      assert "b@x.org"[0] != "a@x.org"[0];
    }
    assert FirstIndex(["u1"], AliceOnly(), clash) == 1 by {
      assert ["u1"][1..] == [];
    }
  }

  lemma PaddedPasses()
    ensures ProfileError(" alice", "b@x.org").None?
  {
    PaddedAlice();
    assert '@' in "b@x.org" by { assert "b@x.org"[1] == '@'; }
  }

  /** The check on the normalised input refuses it. */
  lemma ConflictRefusesDuplicate()
    ensures RegisterConflict(AliceOnly(), ["u1"], " alice", "b@x.org") == Some(UsernameTaken)
  {
    var clash := Clashes(NormalName(" alice"), NormalEmail("b@x.org"));
    assert clash(AliceOnly()["u1"]) by {
      PaddedAlice();
    }
    assert FirstIndex(["u1"], AliceOnly(), clash) == 0;
    assert AliceOnly()["u1"].username == NormalName(" alice") by {
      PaddedAlice();
    }
  }

  /** Two stored users, "alice" and "bob". */
  function AliceAndBob(): map<string, User> {
    map["u1" := User("u1", "alice", "a@x.org", "", 0.0, 0.0), "u2" := User("u2", "bob", "b@x.org", "", 0.0, 0.0)]
  }

  /** The profile check as written lets "bob" rename himself to " alice": it sees no clash with
      the other user, the input passes the checks, and the stored username would be "alice" twice. */
  lemma RawProfileAdmitsDuplicate()
    ensures RawProfileConflict(AliceAndBob(), ["u1", "u2"], "u2", " alice", "b@x.org").None?
    ensures ProfileError(" alice", "b@x.org").None?
    ensures NormalName(" alice") == AliceAndBob()["u1"].username
  {
    var users := AliceAndBob();
    var clash := ClashesOther("u2", " alice", "b@x.org");
    assert !clash(users["u1"]) by {
      assert " alice"[0] != "alice"[0];
      assert "b@x.org"[0] != "a@x.org"[0];
    }
    assert !clash(users["u2"]);
    assert FirstIndex(["u1", "u2"], users, clash) == 2 by {
      assert ["u1", "u2"][1..] == ["u2"];
      assert ["u2"][1..] == [];
    }
    PaddedPasses();
    PaddedAlice();
  }

  /** The check on the normalised input refuses the rename. */
  lemma ProfileRefusesDuplicate()
    ensures ProfileConflict(AliceAndBob(), ["u1", "u2"], "u2", " alice", "b@x.org") == Some(UsernameTaken)
  {
    var users := AliceAndBob();
    var clash := ClashesOther("u2", NormalName(" alice"), NormalEmail("b@x.org"));
    assert clash(users["u1"]) by {
      PaddedAlice();
    }
    assert FirstIndex(["u1", "u2"], users, clash) == 0;
    assert users["u1"].username == NormalName(" alice") by {
      PaddedAlice();
    }
  }

  /** Logging in looks the user up by the exact username it was given. */
  function Named(username: string): User -> bool {
    (u: User) => u.username == username
  }

  function WithEmail(email: string): User -> bool {
    (u: User) => u.email == email
  }

  class UserConcept {
    var users: map<string, User>
    var order: seq<string>
    /** SHA-256 of the UTF-8 encoding of a password. */
    const digest: string -> seq<Byte>

    ghost predicate Valid()
      reads this
    {
      Ordered(order, users) && (forall k :: k in users ==> users[k].id == k) && Unique(users)
    }

    constructor (digest: string -> seq<Byte>)
      ensures Valid() && users == map[] && order == [] && this.digest == digest
    {
      users := map[];
      order := [];
      this.digest := digest;
    }

    /** `hashPassword`. */
    function Hash(password: string): (h: string)
      reads this
      ensures |h| == 2 * |digest(password)|
    {
      Hex(digest(password))
    }

    /** The duplicate-check loop of `register` and `updateProfile`: the first stored user the test
        catches decides the error. */
    method FindConflict(clash: User -> bool, username: string) returns (c: Option<string>)
      requires Valid()
      ensures c == Conflict(users, order, clash, username)
    {
      var i := Scan(order, users, clash);
      if i == |order| {
        return None;
      }
      if users[order[i]].username == username {
        return Some(UsernameTaken);
      }
      return Some(EmailTaken);
    }

    /** `register`: a duplicate is reported before the input checks; a new user is stored with the
        trimmed username, the trimmed lower-cased e-mail and no login yet. */
    method Register(id: string, username: string, email: string, password: string, now: real)
      returns (r: Result<string>)
      requires Valid()
      modifies this
      ensures Valid()
      ensures var c := RegisterConflict(old(users), old(order), username, email);
        && (c.Some? ==> r == Err(c.value))
        && (c.None? && ProfileError(username, email).Some? ==> r == Err(ProfileError(username, email).value))
        && (c.None? && ProfileError(username, email).None? && |password| < 6 ==> r == Err(ShortPassword))
        && (r.Ok? <==> c.None? && ProfileError(username, email).None? && |password| >= 6)
      ensures r.Err? ==> users == old(users) && order == old(order)
      ensures r.Ok? ==> (r.value == id && order == Put(old(order), id)
        && users == old(users)[id := User(id, NormalName(username), NormalEmail(email), Hash(password), now, 0.0)])
    {
      var name, mail := NormalName(username), NormalEmail(email);
      var c := FindConflict(Clashes(name, mail), name);
      if c.Some? {
        return Err(c.value);
      }
      var e := ProfileError(username, email);
      if e.Some? {
        return Err(e.value);
      }
      if |password| < 6 {
        return Err(ShortPassword);
      }
      var u := User(id, name, mail, Hash(password), now, 0.0);
      StoreKeepsUnique(users, u);
      users := users[id := u];
      order := Put(order, id);
      r := Ok(id);
    }

    /** `login`: the first user with that username whose stored hash matches gets `lastLogin :=
        now` and the fresh `token`; both failures give the same message and change nothing. */
    method Login(username: string, password: string, token: string, now: real) returns (r: Result<SignedIn>)
      requires Valid()
      modifies this
      ensures Valid() && order == old(order)
      ensures r.Ok? <==> exists k :: k in old(users) && old(users)[k].username == username
                                     && old(users)[k].passwordHash == Hash(password)
      ensures r.Err? ==> r == Err(BadCredentials) && users == old(users)
      ensures r.Ok? ==> (r.value.token == token && r.value.id in old(users)
        && old(users)[r.value.id].username == username
        && users == old(users)[r.value.id := old(users)[r.value.id].(lastLogin := now)])
    {
      var i := Scan(order, users, Named(username));
      if i == |order| {
        NoneFound(order, users, Named(username));
        return Err(BadCredentials);
      }
      var u := users[order[i]];
      if Hash(password) != u.passwordHash {
        forall k | k in users && users[k].username == username ensures users[k].passwordHash != Hash(password) {
          assert k == order[i];
        }
        return Err(BadCredentials);
      }
      SameNamesKeepUnique(users, u.(lastLogin := now));
      users := users[u.id := u.(lastLogin := now)];
      r := Ok(SignedIn(u.id, token));
    }

    /** `logout`: succeeds exactly for a known id and changes nothing. */
    function Logout(id: string, token: string): (r: Result<string>)
      reads this
      ensures r.Ok? <==> id in users
      ensures r.Ok? ==> r.value == id
      ensures r.Err? ==> r.error == UserNotFound
    {
      if id !in users then Err(UserNotFound) else Ok(id)
    }

    /** `updateProfile`: only other users count as duplicates; a successful update replaces the
        username and e-mail, normalised as in `register`, and nothing else. */
    method UpdateProfile(id: string, username: string, email: string) returns (r: Result<string>)
      requires Valid()
      modifies this
      ensures Valid() && order == old(order)
      ensures id !in old(users) ==> r == Err(UserNotFound)
      ensures id in old(users) ==> var c := ProfileConflict(old(users), old(order), id, username, email);
        && (c.Some? ==> r == Err(c.value))
        && (c.None? && ProfileError(username, email).Some? ==> r == Err(ProfileError(username, email).value))
        && (r.Ok? <==> c.None? && ProfileError(username, email).None?)
      ensures r.Err? ==> users == old(users)
      ensures r.Ok? ==> (r.value == id
        && users == old(users)[id := old(users)[id].(username := NormalName(username), email := NormalEmail(email))])
    {
      if id !in users {
        return Err(UserNotFound);
      }
      var name, mail := NormalName(username), NormalEmail(email);
      var c := FindConflict(ClashesOther(id, name, mail), name);
      if c.Some? {
        return Err(c.value);
      }
      var e := ProfileError(username, email);
      if e.Some? {
        return Err(e.value);
      }
      var u := users[id].(username := name, email := mail);
      StoreKeepsUnique(users, u);
      users := users[id := u];
      r := Ok(id);
    }

    /** `changePassword`: the old password must match and the new one be at least six characters;
        only the hash changes. */
    method ChangePassword(id: string, oldPassword: string, newPassword: string) returns (r: Result<string>)
      requires Valid()
      modifies this
      ensures Valid() && order == old(order)
      ensures id !in old(users) ==> r == Err(UserNotFound)
      ensures id in old(users) && old(users)[id].passwordHash != Hash(oldPassword) ==> r == Err(WrongPassword)
      ensures id in old(users) && old(users)[id].passwordHash == Hash(oldPassword) && |newPassword| < 6 ==>
        r == Err(ShortNewPassword)
      ensures r.Ok? <==> id in old(users) && old(users)[id].passwordHash == Hash(oldPassword) && |newPassword| >= 6
      ensures r.Err? ==> users == old(users)
      ensures r.Ok? ==> r.value == id && users == old(users)[id := old(users)[id].(passwordHash := Hash(newPassword))]
    {
      if id !in users {
        return Err(UserNotFound);
      }
      var u := users[id];
      if Hash(oldPassword) != u.passwordHash {
        return Err(WrongPassword);
      }
      if |newPassword| < 6 {
        return Err(ShortNewPassword);
      }
      SameNamesKeepUnique(users, u.(passwordHash := Hash(newPassword)));
      users := users[id := u.(passwordHash := Hash(newPassword))];
      r := Ok(id);
    }

    /** `_getById`: the user without its password hash. */
    function GetById(id: string): (r: seq<Profile>)
      reads this
      ensures |r| <= 1
      ensures r != [] <==> id in users
      ensures r != [] ==> var u := users[id];
        r[0] == Profile(u.id, u.username, u.email, u.createdAt, u.lastLogin)
    {
      if id in users then
        var u := users[id];
        [Profile(u.id, u.username, u.email, u.createdAt, u.lastLogin)]
      else []
    }

    /** `_getByUsername`: the user holding `username`, hash included; usernames are unique, so
        there is at most one. */
    method GetByUsername(username: string) returns (r: seq<User>)
      requires Valid()
      ensures |r| <= 1
      ensures r == [] <==> forall k :: k in users ==> users[k].username != username
      ensures forall u :: u in r <==> u in users.Values && u.username == username
    {
      var i := Scan(order, users, Named(username));
      if i < |order| {
        r := [users[order[i]]];
        forall u | u in users.Values && u.username == username ensures u == users[order[i]] {
          var k :| k in users && users[k] == u;
        }
      } else {
        NoneFound(order, users, Named(username));
        r := [];
      }
    }

    /** `_getByEmail`: the user holding `email`, without its hash. */
    method GetByEmail(email: string) returns (r: seq<Profile>)
      requires Valid()
      ensures |r| <= 1
      ensures r == [] <==> forall k :: k in users ==> users[k].email != email
      ensures forall p :: p in r ==> p.email == email && p.id in users && users[p.id].email == email
      ensures forall p :: p in r ==> var u := users[p.id];
        p == Profile(u.id, u.username, u.email, u.createdAt, u.lastLogin)
    {
      var i := Scan(order, users, WithEmail(email));
      if i < |order| {
        var u := users[order[i]];
        r := [Profile(u.id, u.username, u.email, u.createdAt, u.lastLogin)];
      } else {
        NoneFound(order, users, WithEmail(email));
        r := [];
      }
    }

    /** `_validateToken`: the user's identity when the id is known; the token is not looked at. */
    function ValidateToken(id: string, token: string): (r: seq<Identity>)
      reads this
      ensures |r| <= 1
      ensures r != [] <==> id in users
      ensures r != [] ==> r[0] == Identity(users[id].id, users[id].username, users[id].email)
    {
      if id in users then [Identity(users[id].id, users[id].username, users[id].email)] else []
    }
  }
}
