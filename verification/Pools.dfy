/** The pool table of the simulated miner, its locked edits and the requests made of them.

    Whether a URL and an authority key go together is a parameter. */
module Pools {
  import opened Wrappers

  const UINT32: int := 0x1_0000_0000

  datatype Pool = Pool(idx: nat, priority: int, url: string, username: string, password: string, key: string)

  datatype Config = Config(name: string, url: string, username: string, password: string,
                           key: Option<string>, priority: Option<int>)

  datatype Table = Table(pools: seq<Pool>, names: map<nat, string>, onboarded: bool)

  function OrElse<T>(o: Option<T>, default: T): T { if o.Some? then o.value else default }

  function OrText(s: string, default: string): string { if s != "" then s else default }

  // ----- the edits, one per locked region -----

  datatype Edit = Clear | Add(pool: Pool) | SetName(idx: nat, name: string) | Onboard

  function Apply(t: Table, e: Edit): Table
  {
    match e
    case Clear => t.(pools := [], names := map[])
    case Add(pool) => t.(pools := t.pools + [pool])
    case SetName(idx, name) => t.(names := if name == "" then t.names - {idx} else t.names[idx := name])
    case Onboard => t.(onboarded := true)
  }

  function ApplyAll(t: Table, es: seq<Edit>): Table
    decreases |es|
  {
    if es == [] then t else Apply(ApplyAll(t, es[..|es| - 1]), es[|es| - 1])
  }

  // ----- creating -----

  function Accepted(c: Config, valid: (string, string) -> bool): bool { valid(c.url, OrElse(c.key, "")) }

  function MakePool(c: Config, i: nat): Pool
  {
    Pool(i % UINT32, OrElse(c.priority, i), c.url, c.username, c.password, OrElse(c.key, ""))
  }

  /** What a create request does to the table, edit by edit, with the first n pools done. */
  function CreateEdits(cs: seq<Config>, n: nat): seq<Edit>
    requires n <= |cs|
  {
    if n == 0 then [Clear]
    else CreateEdits(cs, n - 1) + [Add(MakePool(cs[n - 1], n - 1)), SetName((n - 1) % UINT32, cs[n - 1].name)]
  }

  /** A create with at least one pool marks the miner as onboarded in the end. */
  function AllEdits(cs: seq<Config>): seq<Edit>
  {
    CreateEdits(cs, |cs|) + if cs == [] then [] else [Onboard]
  }

  function Create(t: Table, cs: seq<Config>, valid: (string, string) -> bool): Table
  {
    if exists i :: 0 <= i < |cs| && !Accepted(cs[i], valid) then t else ApplyAll(t, AllEdits(cs))
  }

  // ----- updating and deleting -----

  function Merge(p: Pool, c: Config): Pool
  {
    Pool(p.idx, OrElse(c.priority, p.priority), OrText(c.url, p.url), OrText(c.username, p.username),
         OrText(c.password, p.password), OrElse(c.key, p.key))
  }

  predicate Has(t: Table, id: int, k: nat)
  {
    k < |t.pools| && t.pools[k].idx == id && forall j :: 0 <= j < k ==> t.pools[j].idx != id
  }

  function UpdateAt(t: Table, k: nat, c: Config, valid: (string, string) -> bool): Table
    requires k < |t.pools|
  {
    var p := Merge(t.pools[k], c);
    if !valid(p.url, p.key) then t
    else t.(pools := t.pools[k := p], names := if c.name == "" then t.names else t.names[p.idx := c.name])
  }

  function Without(pools: seq<Pool>, gone: set<nat>): seq<Pool>
  {
    if pools == [] then []
    else
      var rest := Without(pools[..|pools| - 1], gone);
      if pools[|pools| - 1].idx in gone then rest else rest + [pools[|pools| - 1]]
  }

  ghost predicate Lists(pools: seq<Pool>, idx: nat)
  {
    exists i :: 0 <= i < |pools| && pools[i].idx == idx
  }

  /** The pools with these numbers go, and their names with them. */
  ghost predicate Removes(t: Table, gone: set<nat>, u: Table)
  {
    && u.pools == Without(t.pools, gone) && u.onboarded == t.onboarded
    && (forall idx :: idx in u.names <==> idx in t.names && !(idx in gone && Lists(t.pools, idx)))
    && (forall idx :: idx in u.names ==> u.names[idx] == t.names[idx])
  }

  function Numbers(pools: seq<Pool>, gone: set<nat>): set<nat>
  {
    set p | p in pools && p.idx in gone :: p.idx
  }

  function Remove(t: Table, gone: set<nat>): (u: Table)
    ensures Removes(t, gone, u)
  {
    t.(pools := Without(t.pools, gone), names := t.names - Numbers(t.pools, gone))
  }

  /** The id of the request is cut to 32 bits. */
  function Delete(t: Table, id: int): Table { Remove(t, {id % UINT32}) }

  // ----- what the table keeps -----

  ghost predicate Distinct(pools: seq<Pool>)
  {
    forall i, j :: 0 <= i < j < |pools| ==> pools[i].idx != pools[j].idx
  }

  ghost predicate Good(t: Table, valid: (string, string) -> bool)
  {
    && Distinct(t.pools)
    && (forall i :: 0 <= i < |t.pools| ==> t.pools[i].idx < UINT32 && valid(t.pools[i].url, t.pools[i].key))
    && (forall idx :: idx in t.names ==> Lists(t.pools, idx) && t.names[idx] != "")
  }

  datatype Request = CreatePools(configs: seq<Config>) | UpdatePool(id: int, config: Config) | DeletePool(id: int)

  ghost function Position(t: Table, id: int): Option<nat>
  {
    if exists k :: Has(t, id, k) then var k :| Has(t, id, k); Some(k) else None
  }

  ghost function Handle(t: Table, r: Request, valid: (string, string) -> bool): Table
  {
    match r
    case CreatePools(cs) => Create(t, cs, valid)
    case UpdatePool(id, c) =>
      var k := Position(t, id);
      if k.None? then t else UpdateAt(t, k.value, c, valid)
    case DeletePool(id) => Delete(t, id)
  }

  ghost function Serve(t: Table, rs: seq<Request>, valid: (string, string) -> bool): Table
    decreases |rs|
  {
    if rs == [] then t else Handle(Serve(t, rs[..|rs| - 1], valid), rs[|rs| - 1], valid)
  }

  // ----- a created table -----

  lemma ApplyTwo(t: Table, es: seq<Edit>, a: Edit, b: Edit)
    ensures ApplyAll(t, es + [a, b]) == Apply(Apply(ApplyAll(t, es), a), b)
  {
    var all := es + [a, b];
    assert all[..|all| - 1] == es + [a];
    assert (es + [a])[..|es|] == es;
  }

  lemma ApplyOnboard(t: Table, cs: seq<Config>)
    ensures var u := ApplyAll(t, CreateEdits(cs, |cs|));
            ApplyAll(t, AllEdits(cs)) == if cs == [] then u else Apply(u, Onboard)
  {
    var es, all := CreateEdits(cs, |cs|), AllEdits(cs);
    if cs == [] {
      assert all == es;
    } else {
      assert all[..|all| - 1] == es;
    }
  }

  /** Pool i is made of config i. */
  ghost predicate PoolsFrom(pools: seq<Pool>, cs: seq<Config>, n: nat)
    requires n <= |cs|
  {
    |pools| == n && forall i :: 0 <= i < n ==> pools[i] == MakePool(cs[i], i)
  }

  /** A name is there exactly for the pools that were given one. */
  ghost predicate NamesFrom(names: map<nat, string>, cs: seq<Config>, n: nat)
    requires n <= |cs|
  {
    && (forall i :: i in names <==> 0 <= i < n && cs[i].name != "")
    && (forall i :: i in names ==> names[i] == cs[i].name)
  }

  lemma NameStep(t: Table, cs: seq<Config>, n: nat)
    requires 0 < n <= |cs| && n <= UINT32 && NamesFrom(t.names, cs, n - 1)
    ensures NamesFrom(Apply(t, SetName((n - 1) % UINT32, cs[n - 1].name)).names, cs, n)
  {
    assert (n - 1) % UINT32 == n - 1;
  }

  /** The table after n pools and their names. */
  ghost predicate CreatedSoFar(t: Table, cs: seq<Config>, n: nat)
    requires n <= |cs|
  {
    PoolsFrom(t.pools, cs, n) && (n <= UINT32 ==> NamesFrom(t.names, cs, n))
  }

  lemma CreatedMore(t: Table, cs: seq<Config>, n: nat)
    requires 0 < n <= |cs| && CreatedSoFar(t, cs, n - 1)
    ensures CreatedSoFar(Apply(Apply(t, Add(MakePool(cs[n - 1], n - 1))), SetName((n - 1) % UINT32, cs[n - 1].name)), cs, n)
  {
    if n <= UINT32 {
      NameStep(Apply(t, Add(MakePool(cs[n - 1], n - 1))), cs, n);
    }
  }

  lemma {:induction false} CreatedPools(t: Table, cs: seq<Config>, n: nat)
    requires n <= |cs|
    ensures var u := ApplyAll(t, CreateEdits(cs, n)); CreatedSoFar(u, cs, n) && u.onboarded == t.onboarded
  {
    if n == 0 {
      assert ApplyAll(t, [Clear]) == Apply(t, Clear) by { assert [Clear][..0] == []; }
    } else {
      var es := CreateEdits(cs, n - 1);
      CreatedPools(t, cs, n - 1);
      ApplyTwo(t, es, Add(MakePool(cs[n - 1], n - 1)), SetName((n - 1) % UINT32, cs[n - 1].name));
      CreatedMore(ApplyAll(t, es), cs, n);
    }
  }

  lemma FromIsGood(t: Table, cs: seq<Config>, valid: (string, string) -> bool)
    requires forall i :: 0 <= i < |cs| ==> Accepted(cs[i], valid)
    requires |cs| <= UINT32 && PoolsFrom(t.pools, cs, |cs|) && NamesFrom(t.names, cs, |cs|)
    ensures Good(t, valid)
  {
    forall i | 0 <= i < |cs|
      ensures t.pools[i].idx == i && valid(t.pools[i].url, t.pools[i].key)
    {
      MadePool(cs[i], i, valid);
    }
    forall idx | idx in t.names
      ensures Lists(t.pools, idx)
    {
      assert t.pools[idx].idx == idx;
    }
  }

  lemma MadePool(c: Config, i: nat, valid: (string, string) -> bool)
    requires i < UINT32 && Accepted(c, valid)
    ensures MakePool(c, i).idx == i && valid(MakePool(c, i).url, MakePool(c, i).key)
  {
  }

  /** A create of acceptable pools leaves a good table exactly if it numbers them within 32
      bits. */
  lemma CreateKeepsExactly(t: Table, cs: seq<Config>, valid: (string, string) -> bool)
    requires forall i :: 0 <= i < |cs| ==> Accepted(cs[i], valid)
    ensures Good(Create(t, cs, valid), valid) <==> |cs| <= UINT32
    ensures PoolsFrom(Create(t, cs, valid).pools, cs, |cs|)
    ensures |cs| <= UINT32 ==> NamesFrom(Create(t, cs, valid).names, cs, |cs|)
  {
    CreatedPools(t, cs, |cs|);
    ApplyOnboard(t, cs);
    var u := Create(t, cs, valid);
    if |cs| > UINT32 {
      assert u.pools[0].idx == u.pools[UINT32].idx;
    } else {
      FromIsGood(u, cs, valid);
    }
  }

  // ----- updates and deletes -----

  lemma UpdateKeeps(t: Table, k: nat, c: Config, valid: (string, string) -> bool)
    requires Good(t, valid) && k < |t.pools|
    ensures Good(UpdateAt(t, k, c, valid), valid)
  {
    var u := UpdateAt(t, k, c, valid);
    forall idx | idx in u.names
      ensures Lists(u.pools, idx)
    {
      if idx in t.names {
        var i :| 0 <= i < |t.pools| && t.pools[i].idx == idx;
        assert u.pools[i].idx == idx;
      } else {
        assert u.pools[k].idx == idx;
      }
    }
  }

  lemma {:induction false} WithoutIs(pools: seq<Pool>, gone: set<nat>)
    ensures forall p :: p in Without(pools, gone) <==> p in pools && p.idx !in gone
    ensures Distinct(pools) ==> Distinct(Without(pools, gone))
    decreases |pools|
  {
    if pools != [] {
      var before, last := pools[..|pools| - 1], pools[|pools| - 1];
      WithoutIs(before, gone);
      assert pools == before + [last];
      if Distinct(pools) {
        forall i | 0 <= i < |Without(before, gone)|
          ensures Without(before, gone)[i].idx != last.idx
        {
          assert Without(before, gone)[i] in before;
        }
      }
    }
  }

  lemma RemoveKeeps(t: Table, gone: set<nat>, valid: (string, string) -> bool)
    requires Good(t, valid)
    ensures Good(Remove(t, gone), valid)
  {
    var u := Remove(t, gone);
    WithoutIs(t.pools, gone);
    forall i | 0 <= i < |u.pools|
      ensures u.pools[i].idx < UINT32 && valid(u.pools[i].url, u.pools[i].key)
    {
      assert u.pools[i] in t.pools;
    }
    forall other | other in u.names
      ensures Lists(u.pools, other)
    {
      OthersListed(t.pools, gone, other);
    }
  }

  lemma OthersListed(pools: seq<Pool>, gone: set<nat>, other: nat)
    requires Lists(pools, other) && other !in gone
    ensures Lists(Without(pools, gone), other)
  {
    WithoutIs(pools, gone);
    var i :| 0 <= i < |pools| && pools[i].idx == other;
    assert pools[i] in Without(pools, gone);
  }

  /** Deleting takes out the pool listed under the id and no other: exactly if the id fits in 32
      bits or no pool has the number that is left of it. */
  lemma DeleteExactly(t: Table, id: int, valid: (string, string) -> bool)
    requires Good(t, valid)
    ensures (forall p :: p in Delete(t, id).pools <==> p in t.pools && p.idx != id)
            <==> 0 <= id < UINT32 || !Lists(t.pools, id % UINT32)
  {
    var idx := id % UINT32;
    WithoutIs(t.pools, {idx});
    if Lists(t.pools, idx) && !(0 <= id < UINT32) {
      var i :| 0 <= i < |t.pools| && t.pools[i].idx == idx;
      assert t.pools[i] in t.pools && t.pools[i] !in Delete(t, id).pools;
    }
  }

  // ----- every sequence of requests -----

  /** Requests served one after the other keep the table good, as long as no create numbers
      pools beyond 32 bits; a create with an unacceptable pool changes nothing. */
  lemma {:induction false} ServeKeeps(t: Table, rs: seq<Request>, valid: (string, string) -> bool)
    requires Good(t, valid)
    requires forall i :: 0 <= i < |rs| && rs[i].CreatePools? ==> |rs[i].configs| <= UINT32
    ensures Good(Serve(t, rs, valid), valid)
    decreases |rs|
  {
    if rs != [] {
      var before, last := Serve(t, rs[..|rs| - 1], valid), rs[|rs| - 1];
      ServeKeeps(t, rs[..|rs| - 1], valid);
      match last
      case CreatePools(cs) =>
        if forall i :: 0 <= i < |cs| ==> Accepted(cs[i], valid) { CreateKeepsExactly(before, cs, valid); }
      case UpdatePool(id, c) =>
        if Position(before, id).Some? { UpdateKeeps(before, Position(before, id).value, c, valid); }
      case DeletePool(id) => RemoveKeeps(before, {id % UINT32}, valid);
    }
  }
}
