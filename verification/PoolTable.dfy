/** The pool fields of the miner's state, and the handlers that edit them. */
module PoolTable {
  import opened Pools

  ghost function SetOf(indices: seq<nat>): set<nat> { set i | i in indices }

  class MinerPools {
    var pools: seq<Pool>
    var names: map<nat, string>
    var onboarded: bool

    ghost function State(): Table
      reads this
    {
      Table(pools, names, onboarded)
    }

    constructor ()
      ensures State() == Table([], map[], false)
    {
      pools, names, onboarded := [], map[], false;
    }

    method AddPool(pool: Pool)
      modifies this
      ensures State() == Apply(old(State()), Add(pool))
    {
      pools := pools + [pool];
    }

    method SetPoolName(idx: nat, name: string)
      modifies this
      ensures State() == Apply(old(State()), SetName(idx, name))
    {
      if name == "" {
        names := names - {idx};
        return;
      }
      names := names[idx := name];
    }

    method ClearPools()
      modifies this
      ensures State() == Apply(old(State()), Clear)
    {
      pools, names := [], map[];
    }

    method RemovePools(indices: seq<nat>)
      modifies this
      ensures State() == Remove(old(State()), SetOf(indices))
    {
      var toRemove: set<nat> := {};
      for k := 0 to |indices|
        invariant toRemove == SetOf(indices[..k])
        invariant unchanged(this)
      {
        toRemove := toRemove + {indices[k]};
        assert indices[..k + 1] == indices[..k] + [indices[k]];
      }
      assert indices[..|indices|] == indices;
      var newPools := [];
      ghost var all := pools;
      for k := 0 to |pools|
        invariant pools == all && onboarded == old(onboarded)
        invariant newPools == Without(all[..k], toRemove)
        invariant names == old(names) - Numbers(all[..k], toRemove)
      {
        var pool := pools[k];
        assert all[..k + 1] == all[..k] + [pool];
        if pool.idx !in toRemove {
          newPools := newPools + [pool];
        } else {
          names := names - {pool.idx};
        }
      }
      assert all[..|all|] == all;
      pools := newPools;
    }

    /** All configs are checked before anything is changed. */
    method CreatePools(configs: seq<Config>, valid: (string, string) -> bool) returns (ok: bool)
      modifies this
      ensures State() == Create(old(State()), configs, valid)
      ensures ok <==> forall i :: 0 <= i < |configs| ==> Accepted(configs[i], valid)
    {
      for i := 0 to |configs|
        invariant forall j :: 0 <= j < i ==> Accepted(configs[j], valid)
        invariant unchanged(this)
      {
        if !Accepted(configs[i], valid) {
          return false;
        }
      }
      ghost var t := State();
      ClearPools();
      assert [Clear][..0] == [];
      for i := 0 to |configs|
        invariant State() == ApplyAll(t, CreateEdits(configs, i))
      {
        var config := configs[i];
        var priority := if config.priority.Some? then config.priority.value else i;
        var key := if config.key.Some? then config.key.value else "";
        var pool := Pool(i % UINT32, priority, config.url, config.username, config.password, key);
        ApplyTwo(t, CreateEdits(configs, i), Add(pool), SetName(pool.idx, config.name));
        AddPool(pool);
        SetPoolName(pool.idx, config.name);
      }
      ApplyOnboard(t, configs);
      if |configs| > 0 {
        onboarded := true;
      }
      return true;
    }

    /** The first pool with the id takes the fields that are given. */
    method UpdatePool(id: int, config: Config, valid: (string, string) -> bool) returns (found: bool, ghost k: nat)
      modifies this
      ensures found ==> Has(old(State()), id, k) && State() == UpdateAt(old(State()), k, config, valid)
      ensures !found ==> State() == old(State()) && forall i :: 0 <= i < |pools| ==> pools[i].idx != id
    {
      k := 0;
      for i := 0 to |pools|
        invariant unchanged(this)
        invariant forall j :: 0 <= j < i ==> pools[j].idx != id
      {
        var p := pools[i];
        if p.idx == id {
          k := i;
          var effectiveURL := if config.url != "" then config.url else p.url;
          var effectiveKey := if config.key.Some? then config.key.value else p.key;
          if !valid(effectiveURL, effectiveKey) {
            return true, k;
          }
          if config.name != "" {
            names := names[p.idx := config.name];
          }
          var username := if config.username != "" then config.username else p.username;
          var password := if config.password != "" then config.password else p.password;
          var priority := if config.priority.Some? then config.priority.value else p.priority;
          pools := pools[i := Pool(p.idx, priority, effectiveURL, username, password, effectiveKey)];
          return true, k;
        }
      }
      return false, k;
    }

    method DeletePool(id: int)
      modifies this
      ensures State() == Delete(old(State()), id)
    {
      RemovePools([id % UINT32]);
      assert SetOf([id % UINT32]) == {id % UINT32};
    }
  }
}
