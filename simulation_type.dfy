/** The catalogue of simulation kinds of concepts/SimulationTypeConcept.ts: descriptive fields,
    an active flag, a default configuration and requirements. */
module SimulationTypes {
  import opened Wrappers
  import opened Keyed
  import opened Values

  /** `defaultConfig` and `requirements` are optional: `register` fills in `{}`, but `update`
      stores what it is given, `undefined` included. */
  datatype SimulationType = SimulationType(id: string, name: string, description: string, category: string,
                                           icon: string, thumbnail: string, isActive: bool,
                                           defaultConfig: Option<Config>, requirements: Option<Config>,
                                           version: string)

  function Active(): SimulationType -> bool {
    (t: SimulationType) => t.isActive
  }

  function InCategory(category: string): SimulationType -> bool {
    (t: SimulationType) => t.category == category
  }

  class SimulationTypeConcept {
    var types: map<string, SimulationType>
    var order: seq<string>

    ghost predicate Valid()
      reads this
    {
      Ordered(order, types) && forall k :: k in types ==> types[k].id == k
    }

    constructor ()
      ensures Valid() && types == map[] && order == []
    {
      types := map[];
      order := [];
    }

    /** `register`: stores (or replaces) an active type; missing configs become `{}`. */
    method Register(id: string, name: string, description: string, category: string, icon: string,
                    thumbnail: string, defaultConfig: Option<Config>, requirements: Option<Config>,
                    version: string) returns (r: Result<string>)
      requires Valid()
      modifies this
      ensures Valid() && r == Ok(id) && order == Put(old(order), id)
      ensures types == old(types)[id := SimulationType(id, name, description, category, icon, thumbnail, true,
                                                       Some(Spread(defaultConfig)), Some(Spread(requirements)),
                                                       version)]
    {
      types := types[id := SimulationType(id, name, description, category, icon, thumbnail, true,
                                          Some(Spread(defaultConfig)), Some(Spread(requirements)), version)];
      order := Put(order, id);
      r := Ok(id);
    }

    /** `update`: replaces every descriptive field of a known type and keeps its active flag; an
        unknown id changes nothing. */
    method Update(id: string, name: string, description: string, category: string, icon: string,
                  thumbnail: string, defaultConfig: Option<Config>, requirements: Option<Config>,
                  version: string) returns (r: Result<string>)
      requires Valid()
      modifies this
      ensures Valid() && r == Ok(id) && order == old(order)
      ensures types == if id in old(types)
        then old(types)[id := SimulationType(id, name, description, category, icon, thumbnail,
                                             old(types)[id].isActive, defaultConfig, requirements, version)]
        else old(types)
    {
      if id in types {
        types := types[id := types[id].(name := name, description := description, category := category,
                                         icon := icon, thumbnail := thumbnail, defaultConfig := defaultConfig,
                                         requirements := requirements, version := version)];
      }
      r := Ok(id);
    }

    /** `activate` (`active` true) and `deactivate` (`active` false): only the flag changes; an
        unknown id changes nothing. */
    method SetActive(id: string, active: bool) returns (r: Result<string>)
      requires Valid()
      modifies this
      ensures Valid() && r == Ok(id) && order == old(order)
      ensures types == if id in old(types) then old(types)[id := old(types)[id].(isActive := active)]
                       else old(types)
    {
      if id in types {
        types := types[id := types[id].(isActive := active)];
      }
      r := Ok(id);
    }

    /** `updateDefaultConfig`: the incoming entries are merged over the stored ones. */
    method UpdateDefaultConfig(id: string, defaultConfig: Option<Config>) returns (r: Result<string>)
      requires Valid()
      modifies this
      ensures Valid() && r == Ok(id) && order == old(order)
      ensures types == if id in old(types)
        then old(types)[id := old(types)[id].(defaultConfig :=
                                Some(Merge(Spread(old(types)[id].defaultConfig), Spread(defaultConfig))))]
        else old(types)
    {
      if id in types {
        var t := types[id];
        types := types[id := t.(defaultConfig := Some(Merge(Spread(t.defaultConfig), Spread(defaultConfig))))];
      }
      r := Ok(id);
    }

    /** `_getById`. */
    function GetById(id: string): (r: seq<SimulationType>)
      reads this
      ensures |r| <= 1
      ensures r != [] <==> id in types
      ensures r != [] ==> r[0] == types[id]
    {
      if id in types then [types[id]] else []
    }

    /** `_getActive`: exactly the active types, in insertion order. */
    function GetActive(): (r: seq<SimulationType>)
      requires Valid()
      reads this
      ensures forall t :: t in r <==> t in types.Values && t.isActive
    {
      SelectExactly(order, types, Active());
      Select(order, types, Active())
    }

    /** `_getByCategory`: exactly the types of that category, in insertion order. */
    function GetByCategory(category: string): (r: seq<SimulationType>)
      requires Valid()
      reads this
      ensures forall t :: t in r <==> t in types.Values && t.category == category
    {
      SelectExactly(order, types, InCategory(category));
      Select(order, types, InCategory(category))
    }

    /** `_getFeatured`: the active types. */
    function GetFeatured(): (r: seq<SimulationType>)
      requires Valid()
      reads this
      ensures r == GetActive()
      ensures forall t :: t in r <==> t in types.Values && t.isActive
    {
      GetActive()
    }
  }

  /** `updateDefaultConfig` with the same entries twice is the same as once, and with no entries
      it only turns a missing config into `{}`. */
  lemma UpdateDefaultConfigIdempotent(stored: Option<Config>, incoming: Option<Config>)
    ensures var once := Merge(Spread(stored), Spread(incoming));
      Merge(Spread(Some(once)), Spread(incoming)) == once
    ensures Merge(Spread(stored), Spread(None)) == Spread(stored)
  {
    MergeIdempotent(Spread(stored), Spread(incoming));
  }
}
