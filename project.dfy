/** The project catalogue of concepts/ProjectConcept.ts: a user's simulation projects with a
    configuration object, a visibility flag and a thumbnail. */
module Projects {
  import opened Wrappers
  import opened Keyed
  import opened Values

  datatype Project = Project(id: string, name: string, description: string, kind: string, userId: string,
                             createdAt: real, updatedAt: real, isPublic: bool, thumbnail: string,
                             config: Config)

  const NotFound := "Project not found"
  const PermissionDenied := "Permission denied"

  function OwnedBy(userId: string): Project -> bool {
    (p: Project) => p.userId == userId
  }

  function OfKind(kind: string): Project -> bool {
    (p: Project) => p.kind == kind
  }

  function Published(): Project -> bool {
    (p: Project) => p.isPublic
  }

  // ---- `_getRecent`: a stable sort by `updatedAt`, newest first, then `slice(0, limit)` ----

  /** Newest first: no project is followed by a newer one. */
  predicate NewestFirst(s: seq<Project>) {
    forall i, j :: 0 <= i < j < |s| ==> s[i].updatedAt >= s[j].updatedAt
  }

  /** Puts `p` in front of the first project that is not newer than it. */
  function Insert(p: Project, s: seq<Project>): (r: seq<Project>)
    ensures multiset(r) == multiset(s) + multiset{p}
  {
    if s == [] || s[0].updatedAt <= p.updatedAt then [p] + s
    else
      assert s == [s[0]] + s[1..];
      [s[0]] + Insert(p, s[1..])
  }

  /** Inserting into a newest-first list keeps it newest first. */
  lemma {:induction false} InsertNewestFirst(p: Project, s: seq<Project>)
    requires NewestFirst(s)
    ensures NewestFirst(Insert(p, s))
  {
    if s != [] && s[0].updatedAt > p.updatedAt {
      var rest := Insert(p, s[1..]);
      InsertNewestFirst(p, s[1..]);
      assert rest[0] == p || rest[0] == s[1];
      var r := [s[0]] + rest;
      forall i, j | 0 <= i < j < |r| ensures r[i].updatedAt >= r[j].updatedAt {
        if i == 0 {
          assert r[j] == rest[j - 1];
          assert rest[0].updatedAt >= rest[j - 1].updatedAt;
        } else {
          assert r[i] == rest[i - 1] && r[j] == rest[j - 1];
        }
      }
    }
  }

  /** `[...s].sort((a, b) => b.updatedAt - a.updatedAt)`, which is stable: an insertion sort. */
  function SortRecent(s: seq<Project>): (r: seq<Project>)
    ensures multiset(r) == multiset(s)
    ensures NewestFirst(r)
  {
    if s == [] then [] else
      assert s == [s[0]] + s[1..];
      InsertNewestFirst(s[0], SortRecent(s[1..]));
      Insert(s[0], SortRecent(s[1..]))
  }

  /** The projects last updated at `t`, in the order of `s`. */
  function UpdatedAt(s: seq<Project>, t: real): seq<Project> {
    if s == [] then [] else if s[0].updatedAt == t then [s[0]] + UpdatedAt(s[1..], t) else UpdatedAt(s[1..], t)
  }

  lemma {:induction false} InsertStable(p: Project, s: seq<Project>, t: real)
    ensures UpdatedAt(Insert(p, s), t) == if p.updatedAt == t then [p] + UpdatedAt(s, t) else UpdatedAt(s, t)
  {
    if s == [] || s[0].updatedAt <= p.updatedAt {
      assert ([p] + s)[1..] == s;
    } else {
      InsertStable(p, s[1..], t);
      var r := Insert(p, s);
      assert r[1..] == Insert(p, s[1..]);
      if p.updatedAt == t {
        assert UpdatedAt(r, t) == UpdatedAt([p] + s, t) by {
          assert ([p] + s)[1..] == s;
          assert s[0].updatedAt != t;
        }
      }
    }
  }

  /** The sort is stable: projects updated at the same instant keep their relative order. */
  lemma {:induction false} SortRecentStable(s: seq<Project>, t: real)
    ensures UpdatedAt(SortRecent(s), t) == UpdatedAt(s, t)
  {
    if s != [] {
      SortRecentStable(s[1..], t);
      InsertStable(s[0], SortRecent(s[1..]), t);
    }
  }

  /** `s.slice(0, limit)`: a negative limit counts back from the end. */
  function SliceTo<T>(s: seq<T>, limit: int): (r: seq<T>)
    ensures 0 <= limit ==> |r| == if limit < |s| then limit else |s|
    ensures limit < 0 ==> |r| == if |s| + limit > 0 then |s| + limit else 0
    ensures r == s[..|r|]
  {
    var end := if limit < 0 then (if |s| + limit > 0 then |s| + limit else 0)
               else if limit < |s| then limit else |s|;
    s[..end]
  }

  /** The first `limit` of `s` sorted newest first are newest first and are taken from `s`, no
      project it leaves out is newer than one it keeps, and with a limit that takes them all they
      are all of `s`. */
  lemma RecentOf(s: seq<Project>, limit: int)
    ensures var r := SliceTo(SortRecent(s), limit);
      && NewestFirst(r)
      && (forall p :: p in r ==> p in s)
      && multiset(r) <= multiset(s)
      && (forall p, q :: p in r && q in multiset(s) - multiset(r) ==> q.updatedAt <= p.updatedAt)
      && (limit >= |s| ==> multiset(r) == multiset(s))
  {
    var all := SortRecent(s);
    SliceKeeps(all, limit);
    PrefixNewest(all, |SliceTo(all, limit)|);
    assert forall p :: p in all ==> p in s by {
      forall p | p in all ensures p in s {
        assert p in multiset(all);
      }
    }
    assert |all| == |s| by {
      assert |multiset(all)| == |multiset(s)|;
    }
  }

  /** The front of a newest-first list is part of it, and nothing behind the front is newer
      than anything in it. */
  lemma {:induction false} PrefixNewest(s: seq<Project>, n: nat)
    requires NewestFirst(s) && n <= |s|
    ensures multiset(s[..n]) <= multiset(s)
    ensures forall p, q :: p in s[..n] && q in multiset(s) - multiset(s[..n]) ==> q.updatedAt <= p.updatedAt
  {
    assert s == s[..n] + s[n..];
    assert multiset(s) == multiset(s[..n]) + multiset(s[n..]);
    forall p, q | p in s[..n] && q in multiset(s) - multiset(s[..n]) ensures q.updatedAt <= p.updatedAt {
      assert q in s[n..];
      var i :| 0 <= i < n && s[..n][i] == p;
      var j :| 0 <= j < |s| - n && s[n..][j] == q;
      assert s[i] == p && s[n + j] == q;
    }
  }

  /** A slice from the front keeps the order of what it slices, holds only what that holds,
      and is all of it when the limit reaches its length. */
  lemma SliceKeeps(s: seq<Project>, limit: int)
    requires NewestFirst(s)
    ensures var r := SliceTo(s, limit);
      && NewestFirst(r) && (forall p :: p in r ==> p in s) && (limit >= |s| ==> r == s)
  {
    var r := SliceTo(s, limit);
    forall i, j | 0 <= i < j < |r| ensures r[i].updatedAt >= r[j].updatedAt {
      assert r[i] == s[i] && r[j] == s[j];
    }
    if limit >= |s| {
      assert r == s[..|s|] == s;
    }
  }

  class ProjectConcept {
    var projects: map<string, Project>
    var order: seq<string>

    ghost predicate Valid()
      reads this
    {
      Ordered(order, projects) && forall k :: k in projects ==> projects[k].id == k
    }

    constructor ()
      ensures Valid() && projects == map[] && order == []
    {
      projects := map[];
      order := [];
    }

    /** `create`: stores (or replaces) a private project with no thumbnail; the two timestamps are
        two separate clock readings. */
    method Create(id: string, name: string, description: string, kind: string, userId: string,
                  config: Option<Config>, createdAt: real, updatedAt: real) returns (r: Result<string>)
      requires Valid()
      modifies this
      ensures Valid()
      ensures r == Ok(id) && order == Put(old(order), id)
      ensures projects == old(projects)[id := Project(id, name, description, kind, userId, createdAt, updatedAt,
                                                      false, "", Spread(config))]
    {
      projects := projects[id := Project(id, name, description, kind, userId, createdAt, updatedAt, false, "", Spread(config))];
      order := Put(order, id);
      r := Ok(id);
    }

    /** `update`: replaces name and description, merges the new config over the old one and
        stamps `updatedAt`. */
    method Update(id: string, name: string, description: string, config: Option<Config>, now: real)
      returns (r: Result<string>)
      requires Valid()
      modifies this
      ensures Valid() && order == old(order)
      ensures r.Ok? <==> id in old(projects)
      ensures r.Err? ==> r.error == NotFound && projects == old(projects)
      ensures r.Ok? ==> (r.value == id
        && projects == old(projects)[id := old(projects)[id].(name := name, description := description,
                                                             config := Merge(old(projects)[id].config, Spread(config)),
                                                             updatedAt := now)])
    {
      if id !in projects {
        return Err(NotFound);
      }
      var p := projects[id];
      projects := projects[id := p.(name := name, description := description,
                                    config := Merge(p.config, Spread(config)), updatedAt := now)];
      r := Ok(id);
    }

    /** `delete`: only the owner may remove a project, and only that project goes. */
    method Delete(id: string, userId: string) returns (r: Result<string>)
      requires Valid()
      modifies this
      ensures Valid()
      ensures id !in old(projects) ==> r == Err(NotFound)
      ensures id in old(projects) && old(projects)[id].userId != userId ==> r == Err(PermissionDenied)
      ensures r.Ok? <==> id in old(projects) && old(projects)[id].userId == userId
      ensures r.Err? ==> projects == old(projects) && order == old(order)
      ensures r.Ok? ==> r.value == id && projects == old(projects) - {id} && order == Without(old(order), {id})
    {
      if id !in projects {
        return Err(NotFound);
      }
      if projects[id].userId != userId {
        return Err(PermissionDenied);
      }
      DeletePreservesOrder(order, projects, {id});
      projects := projects - {id};
      order := Without(order, {id});
      r := Ok(id);
    }

    /** `setPublic`: always answers `{id}`; an unknown id changes nothing. */
    method SetPublic(id: string, isPublic: bool, now: real) returns (r: Result<string>)
      requires Valid()
      modifies this
      ensures Valid() && order == old(order) && r == Ok(id)
      ensures projects == if id in old(projects)
        then old(projects)[id := old(projects)[id].(isPublic := isPublic, updatedAt := now)]
        else old(projects)
    {
      if id in projects {
        projects := projects[id := projects[id].(isPublic := isPublic, updatedAt := now)];
      }
      r := Ok(id);
    }

    /** `updateThumbnail`: always answers `{id}`; an unknown id changes nothing. */
    method UpdateThumbnail(id: string, thumbnail: string, now: real) returns (r: Result<string>)
      requires Valid()
      modifies this
      ensures Valid() && order == old(order) && r == Ok(id)
      ensures projects == if id in old(projects)
        then old(projects)[id := old(projects)[id].(thumbnail := thumbnail, updatedAt := now)]
        else old(projects)
    {
      if id in projects {
        projects := projects[id := projects[id].(thumbnail := thumbnail, updatedAt := now)];
      }
      r := Ok(id);
    }

    /** `_getById`. */
    function GetById(id: string): (r: seq<Project>)
      reads this
      ensures |r| <= 1
      ensures r != [] <==> id in projects
      ensures r != [] ==> r[0] == projects[id]
    {
      if id in projects then [projects[id]] else []
    }

    /** `_getByUser`: exactly the projects of `userId`, in insertion order. */
    function GetByUser(userId: string): (r: seq<Project>)
      requires Valid()
      reads this
      ensures forall p :: p in r <==> p in projects.Values && p.userId == userId
    {
      SelectExactly(order, projects, OwnedBy(userId));
      Select(order, projects, OwnedBy(userId))
    }

    /** `_getByType`: exactly the projects of that simulation type, in insertion order. */
    function GetByType(kind: string): (r: seq<Project>)
      requires Valid()
      reads this
      ensures forall p :: p in r <==> p in projects.Values && p.kind == kind
    {
      SelectExactly(order, projects, OfKind(kind));
      Select(order, projects, OfKind(kind))
    }

    /** `_getPublic`: exactly the public projects, in insertion order. */
    function GetPublic(): (r: seq<Project>)
      requires Valid()
      reads this
      ensures forall p :: p in r <==> p in projects.Values && p.isPublic
    {
      SelectExactly(order, projects, Published());
      Select(order, projects, Published())
    }

    /** `_getRecent(limit)`: the most recently updated projects, newest first; at most `limit`
        of them, each a stored project, and no stored project it leaves out is newer than one it
        answers. */
    function GetRecent(limit: int): (r: seq<Project>)
      requires Valid()
      reads this
      ensures NewestFirst(r)
      ensures 0 <= limit ==> |r| == if limit < |projects| then limit else |projects|
      ensures forall p :: p in r ==> p in projects.Values
      ensures multiset(r) <= multiset(ValuesOf(order, projects))
      ensures forall p, q :: p in r && q in multiset(ValuesOf(order, projects)) - multiset(r) ==>
        q.updatedAt <= p.updatedAt
      ensures limit >= |projects| ==> multiset(r) == multiset(ValuesOf(order, projects))
    {
      var all := ValuesOf(order, projects);
      assert |order| == |projects| by { OrderedSize(order, projects); }
      RecentOf(all, limit);
      ValuesOfIn(order, projects);
      SliceTo(SortRecent(all), limit)
    }
  }
}
