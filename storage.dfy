/** The saved-simulation store of concepts/SimulationStorageConcept.ts: named snapshots of a
    simulation, owned by a user, optionally shared publicly. */
module Storage {
  import opened Wrappers
  import opened Text
  import opened Keyed
  import opened Values

  datatype Saved = Saved(id: string, userId: string, name: string, description: string,
                         data: Value, createdAt: real, updatedAt: real, isPublic: bool)

  /** The success output of `load`: the record without its owner and timestamps. */
  datatype Loaded = Loaded(id: string, name: string, description: string, data: Value, isPublic: bool)

  const EmptyName := "Simulation name cannot be empty"
  const EmptyData := "Simulation data cannot be empty"
  const NoUser := "User ID is required"
  const NotFound := "Simulation not found"
  const NotOwnerUpdate := "You can only update your own simulations"
  const NotOwnerDelete := "You can only delete your own simulations"
  const NotOwnerShare := "You can only share your own simulations"
  const AccessDenied := "Access denied"

  /** `description || ""`: a missing description is the empty one. */
  function OrEmpty(s: Option<string>): string {
    if s.Some? then s.value else ""
  }

  /** `isPublic || false`: a missing flag is `false`. */
  function OrFalse(b: Option<bool>): bool {
    b.Some? && b.value
  }

  /** The input checks `save` and `update` share, in their order: a blank name, then falsy data. */
  function ContentError(name: string, data: Value): (r: Option<string>)
    ensures r.None? <==> Trim(name) != "" && Truthy(data)
    ensures Trim(name) == "" ==> r == Some(EmptyName)
    ensures Trim(name) != "" && !Truthy(data) ==> r == Some(EmptyData)
  {
    if name == "" || |Trim(name)| == 0 then Some(EmptyName)
    else if !Truthy(data) then Some(EmptyData)
    else None
  }

  /** Who may `load` a record: its owner, or anyone when it is public. */
  predicate MayRead(s: Saved, userId: string) {
    s.userId == userId || s.isPublic
  }

  function OwnedBy(userId: string): Saved -> bool {
    (s: Saved) => s.userId == userId
  }

  function Shared(): Saved -> bool {
    (s: Saved) => s.isPublic
  }

  /** `_searchByName(term)`'s test: public, and the lower-cased name contains the lower-cased term. */
  function NameMatches(term: string): Saved -> bool {
    (s: Saved) => Includes(Lower(s.name), Lower(term)) && s.isPublic
  }

  class SimulationStorageConcept {
    var saved: map<string, Saved>
    var order: seq<string>

    ghost predicate Valid()
      reads this
    {
      Ordered(order, saved) && forall k :: k in saved ==> saved[k].id == k
    }

    constructor ()
      ensures Valid() && saved == map[] && order == []
    {
      saved := map[];
      order := [];
    }

    /** `save`: a blank name, falsy data or an empty owner are refused in that order; otherwise the
        record is stored (or replaces the one with the same id) with the trimmed name. */
    method Save(id: string, userId: string, name: string, description: Option<string>, data: Value,
                isPublic: Option<bool>, now: real) returns (r: Result<string>)
      requires Valid()
      modifies this
      ensures Valid()
      ensures ContentError(name, data).Some? ==> r == Err(ContentError(name, data).value)
      ensures ContentError(name, data).None? && userId == "" ==> r == Err(NoUser)
      ensures r.Ok? <==> ContentError(name, data).None? && userId != ""
      ensures r.Err? ==> saved == old(saved) && order == old(order)
      ensures r.Ok? ==> (r.value == id && order == Put(old(order), id)
        && saved == old(saved)[id := Saved(id, userId, Trim(name), OrEmpty(description), data,
                                             now, now, OrFalse(isPublic))])
    {
      var e := ContentError(name, data);
      if e.Some? {
        return Err(e.value);
      }
      if userId == "" {
        return Err(NoUser);
      }
      saved := saved[id := Saved(id, userId, Trim(name), OrEmpty(description), data, now, now, OrFalse(isPublic))];
      order := Put(order, id);
      r := Ok(id);
    }

    /** `update`: existence and ownership are checked before the content; a successful update
        keeps the id, owner and creation time and stamps `updatedAt`. */
    method Update(id: string, userId: string, name: string, description: Option<string>, data: Value,
                  isPublic: Option<bool>, now: real) returns (r: Result<string>)
      requires Valid()
      modifies this
      ensures Valid() && order == old(order)
      ensures id !in old(saved) ==> r == Err(NotFound)
      ensures id in old(saved) && old(saved)[id].userId != userId ==> r == Err(NotOwnerUpdate)
      ensures id in old(saved) && old(saved)[id].userId == userId && ContentError(name, data).Some? ==>
        r == Err(ContentError(name, data).value)
      ensures r.Ok? <==> id in old(saved) && old(saved)[id].userId == userId && ContentError(name, data).None?
      ensures r.Err? ==> saved == old(saved)
      ensures r.Ok? ==> (r.value == id
        && saved == old(saved)[id := old(saved)[id].(name := Trim(name), description := OrEmpty(description),
                                                     data := data, updatedAt := now,
                                                     isPublic := OrFalse(isPublic))])
    {
      if id !in saved {
        return Err(NotFound);
      }
      var existing := saved[id];
      if existing.userId != userId {
        return Err(NotOwnerUpdate);
      }
      var e := ContentError(name, data);
      if e.Some? {
        return Err(e.value);
      }
      saved := saved[id := existing.(name := Trim(name), description := OrEmpty(description), data := data,
                                     updatedAt := now, isPublic := OrFalse(isPublic))];
      r := Ok(id);
    }

    /** `delete`: only the owner may remove a record, and only that record goes. */
    method Delete(id: string, userId: string) returns (r: Result<string>)
      requires Valid()
      modifies this
      ensures Valid()
      ensures id !in old(saved) ==> r == Err(NotFound)
      ensures id in old(saved) && old(saved)[id].userId != userId ==> r == Err(NotOwnerDelete)
      ensures r.Ok? <==> id in old(saved) && old(saved)[id].userId == userId
      ensures r.Err? ==> saved == old(saved) && order == old(order)
      ensures r.Ok? ==> r.value == id && saved == old(saved) - {id} && order == Without(old(order), {id})
    {
      if id !in saved {
        return Err(NotFound);
      }
      if saved[id].userId != userId {
        return Err(NotOwnerDelete);
      }
      DeletePreservesOrder(order, saved, {id});
      saved := saved - {id};
      order := Without(order, {id});
      r := Ok(id);
    }

    /** `load`: the record's content, for its owner or when it is public. */
    function Load(id: string, userId: string): (r: Result<Loaded>)
      reads this
      ensures r.Ok? <==> id in saved && MayRead(saved[id], userId)
      ensures id !in saved ==> r == Err(NotFound)
      ensures id in saved && !MayRead(saved[id], userId) ==> r == Err(AccessDenied)
      ensures r.Ok? ==> var s := saved[id];
        r.value == Loaded(s.id, s.name, s.description, s.data, s.isPublic)
    {
      if id !in saved then Err(NotFound)
      else
        var s := saved[id];
        if s.userId != userId && !s.isPublic then Err(AccessDenied)
        else Ok(Loaded(s.id, s.name, s.description, s.data, s.isPublic))
    }

    /** `share`: only the owner may publish or withdraw a record; it changes `isPublic` and
        `updatedAt` and nothing else. */
    method Share(id: string, userId: string, isPublic: bool, now: real) returns (r: Result<string>)
      requires Valid()
      modifies this
      ensures Valid() && order == old(order)
      ensures id !in old(saved) ==> r == Err(NotFound)
      ensures id in old(saved) && old(saved)[id].userId != userId ==> r == Err(NotOwnerShare)
      ensures r.Ok? <==> id in old(saved) && old(saved)[id].userId == userId
      ensures r.Err? ==> saved == old(saved)
      ensures r.Ok? ==> (r.value == id
        && saved == old(saved)[id := old(saved)[id].(isPublic := isPublic, updatedAt := now)])
    {
      if id !in saved {
        return Err(NotFound);
      }
      var s := saved[id];
      if s.userId != userId {
        return Err(NotOwnerShare);
      }
      saved := saved[id := s.(isPublic := isPublic, updatedAt := now)];
      r := Ok(id);
    }

    /** `_getById`: the stored record, if any. */
    function GetById(id: string): (r: seq<Saved>)
      requires Valid()
      reads this
      ensures |r| <= 1
      ensures r != [] <==> id in saved
      ensures forall s :: s in r ==> s.id == id && s in saved.Values
    {
      if id in saved then [saved[id]] else []
    }

    /** `_getByUserId`: exactly the records owned by `userId`, in insertion order. */
    method GetByUserId(userId: string) returns (r: seq<Saved>)
      requires Valid()
      ensures r == Select(order, saved, OwnedBy(userId))
      ensures forall s :: s in r <==> s in saved.Values && s.userId == userId
    {
      r := Collect(order, saved, OwnedBy(userId));
      SelectExactly(order, saved, OwnedBy(userId));
    }

    /** `_getPublic`: exactly the public records, in insertion order. */
    method GetPublic() returns (r: seq<Saved>)
      requires Valid()
      ensures r == Select(order, saved, Shared())
      ensures forall s :: s in r <==> s in saved.Values && s.isPublic
    {
      r := Collect(order, saved, Shared());
      SelectExactly(order, saved, Shared());
    }

    /** `_searchByName(term)`: exactly the public records whose name contains `term`, both
        lower-cased, in insertion order. */
    method SearchByName(term: string) returns (r: seq<Saved>)
      requires Valid()
      ensures r == Select(order, saved, NameMatches(term))
      ensures forall s :: s in r <==> s in saved.Values && s.isPublic
                                      && exists i :: OccursAt(Lower(s.name), Lower(term), i)
    {
      r := Collect(order, saved, NameMatches(term));
      SelectExactly(order, saved, NameMatches(term));
      forall s | s in saved.Values && s.isPublic && exists i :: OccursAt(Lower(s.name), Lower(term), i)
        ensures NameMatches(term)(s)
      {
        var i :| OccursAt(Lower(s.name), Lower(term), i);
        IncludesComplete(Lower(s.name), Lower(term), i);
      }
    }
  }
}
