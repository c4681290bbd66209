/** Deletes and updates served between the locked edits of a create. */
module PoolMeanwhile {
  import opened Pools
  import opened PoolOverlap

  /** The next edit of the create, or a whole request in between. */
  datatype Turn = Edit | Delete(id: int) | Update(id: int, config: Config)

  function Edits(turns: seq<Turn>): (n: nat)
    ensures n <= |turns|
  {
    if turns == [] then 0 else Edits(turns[..|turns| - 1]) + if turns[|turns| - 1].Edit? then 1 else 0
  }

  ghost function Serve(t: Table, r: Turn, valid: (string, string) -> bool): Table
    requires !r.Edit?
  {
    match r
    case Delete(id) => Handle(t, DeletePool(id), valid)
    case Update(id, c) => Handle(t, UpdatePool(id, c), valid)
  }

  ghost function Mix(t: Table, cs: seq<Config>, turns: seq<Turn>, valid: (string, string) -> bool): Table
    requires Edits(turns) <= |AllEdits(cs)|
    decreases |turns|
  {
    if turns == [] then t
    else
      var before, last := turns[..|turns| - 1], turns[|turns| - 1];
      var u := Mix(t, cs, before, valid);
      if last.Edit? then Apply(u, AllEdits(cs)[Edits(before)]) else Serve(u, last, valid)
  }

  // ----- where a delete does harm -----

  /** After i edits the last was to add pool q. */
  predicate IsLast(cs: seq<Config>, i: nat, q: nat)
  {
    q < |cs| && i == 2 * q + 2
  }

  /** After i edits the last added pool waits for a name that is not empty. */
  predicate Waits(cs: seq<Config>, i: nat)
  {
    0 < i < 2 * |cs| + 1 && i % 2 == 0 && cs[i / 2 - 1].name != ""
  }

  /** Turn k deletes that pool. */
  ghost predicate CutsAt(cs: seq<Config>, turns: seq<Turn>, k: nat)
    requires k < |turns|
  {
    var i := Edits(turns[..k]);
    turns[k].Delete? && IsLast(cs, i, turns[k].id % UINT32) && Waits(cs, i)
  }

  /** The last added pool has been deleted since it was added. */
  ghost predicate Gone(cs: seq<Config>, turns: seq<Turn>)
  {
    turns != [] && !turns[|turns| - 1].Edit? &&
      var before, last := turns[..|turns| - 1], turns[|turns| - 1];
      (Gone(cs, before) || (last.Delete? && IsLast(cs, Edits(before), last.id % UINT32)))
  }

  /** A name was given to a pool that had been deleted. */
  ghost predicate Dangles(cs: seq<Config>, turns: seq<Turn>)
  {
    turns != [] &&
      var before := turns[..|turns| - 1];
      (Dangles(cs, before) || (turns[|turns| - 1].Edit? && Gone(cs, before) && Waits(cs, Edits(before))))
  }

  ghost predicate Cut(cs: seq<Config>, turns: seq<Turn>)
  {
    exists k :: 0 <= k < |turns| && CutsAt(cs, turns, k)
  }

  lemma CutMore(cs: seq<Config>, turns: seq<Turn>)
    requires turns != []
    ensures Cut(cs, turns) <==> Cut(cs, turns[..|turns| - 1]) || CutsAt(cs, turns, |turns| - 1)
  {
    var before := turns[..|turns| - 1];
    forall k | 0 <= k < |before|
      ensures CutsAt(cs, before, k) <==> CutsAt(cs, turns, k)
    {
      assert before[..k] == turns[..k];
    }
    if Cut(cs, before) {
      var k :| 0 <= k < |before| && CutsAt(cs, before, k);
      assert CutsAt(cs, turns, k);
    }
  }

  /** A cut is a name that dangles, or is about to. */
  lemma {:induction false} CutIs(cs: seq<Config>, turns: seq<Turn>)
    ensures Cut(cs, turns) <==> Dangles(cs, turns) || (Gone(cs, turns) && Waits(cs, Edits(turns)))
  {
    if turns != [] {
      var before, last := turns[..|turns| - 1], turns[|turns| - 1];
      CutIs(cs, before);
      CutMore(cs, turns);
    }
  }

  // ----- what the table keeps -----

  /** After i edits, the first of which cleared the table. */
  ghost predicate MixInv(t: Table, cs: seq<Config>, i: nat, gone: bool, dangles: bool, valid: (string, string) -> bool)
  {
    && Distinct(t.pools) && AllValid(t.pools, valid)
    && (forall x: nat :: Lists(t.pools, x) ==> x < PoolsDone(cs, i))
    && (forall x :: x in t.names ==> t.names[x] != "" && x < PoolsDone(cs, i))
    && (0 < i < 2 * |cs| + 1 && i % 2 == 0 ==> (Lists(t.pools, i / 2 - 1) <==> !gone))
    && (gone ==> 0 < i < 2 * |cs| + 1 && i % 2 == 0)
    && (!dangles ==> NamesListed(t))
    && (dangles ==> exists x :: x in t.names && !Lists(t.pools, x) && x < NamesDone(cs, i))
  }

  lemma MixAdd(t: Table, cs: seq<Config>, i: nat, dangles: bool, valid: (string, string) -> bool)
    requires AllAccepted(cs, valid) && 1 <= i < 2 * |cs| + 1 && i % 2 == 1 && MixInv(t, cs, i, false, dangles, valid)
    ensures MixInv(Apply(t, Add(MakePool(cs[i / 2], i / 2))), cs, i + 1, false, dangles, valid)
  {
    Counts(cs, i);
    ValidMore(t.pools, cs[i / 2], i / 2, valid);
    ListsMore(t.pools, MakePool(cs[i / 2], i / 2));
  }

  lemma MixName(t: Table, cs: seq<Config>, i: nat, gone: bool, dangles: bool, valid: (string, string) -> bool)
    requires |cs| <= UINT32 && 1 <= i < 2 * |cs| + 1 && i % 2 == 0 && MixInv(t, cs, i, gone, dangles, valid)
    ensures var q := i / 2 - 1;
            MixInv(Apply(t, SetName(q % UINT32, cs[q].name)), cs, i + 1, false, dangles || (gone && cs[q].name != ""), valid)
  {
    var q := i / 2 - 1;
    Counts(cs, i);
    assert q % UINT32 == q;
    var t' := Apply(t, SetName(q, cs[q].name));
    if dangles {
      var x :| x in t.names && !Lists(t.pools, x) && x < NamesDone(cs, i);
      assert x in t'.names;
    } else if gone && cs[q].name != "" {
      assert q in t'.names && !Lists(t'.pools, q);
    }
  }

  lemma MixClear(t: Table, cs: seq<Config>, valid: (string, string) -> bool)
    ensures MixInv(Apply(t, Clear), cs, 1, false, false, valid)
  {
    assert forall x: nat :: !Lists(Apply(t, Clear).pools, x);
  }

  lemma MixOnboard(t: Table, cs: seq<Config>, gone: bool, dangles: bool, valid: (string, string) -> bool)
    requires MixInv(t, cs, 2 * |cs| + 1, gone, dangles, valid)
    ensures MixInv(Apply(t, Onboard), cs, 2 * |cs| + 2, false, dangles, valid)
  {
    Counts(cs, 2 * |cs| + 1);
  }

  lemma MixEdit(t: Table, cs: seq<Config>, i: nat, gone: bool, dangles: bool, valid: (string, string) -> bool)
    requires AllAccepted(cs, valid) && 1 <= i <= 2 * |cs| + 1 && MixInv(t, cs, i, gone, dangles, valid)
    ensures MixInv(Apply(t, EditOf(cs, i)), cs, i + 1, false, dangles || (gone && Waits(cs, i)), valid)
  {
    if i == 2 * |cs| + 1 {
      MixOnboard(t, cs, gone, dangles, valid);
    } else if i % 2 == 1 {
      assert !gone;
      MixAdd(t, cs, i, dangles, valid);
    } else {
      MixName(t, cs, i, gone, dangles, valid);
    }
  }

  lemma MixDelete(t: Table, cs: seq<Config>, i: nat, gone: bool, dangles: bool, id: int, valid: (string, string) -> bool)
    requires 1 <= i && MixInv(t, cs, i, gone, dangles, valid)
    ensures MixInv(Pools.Delete(t, id), cs, i, gone || IsLast(cs, i, id % UINT32), dangles, valid)
  {
    var idx, u := id % UINT32, Pools.Delete(t, id);
    WithoutIs(t.pools, {idx});
    forall x: nat
      ensures Lists(u.pools, x) <==> Lists(t.pools, x) && x != idx
    {
      ListsWithout(t.pools, idx, x);
    }
    assert AllValid(u.pools, valid) by { ValidWithout(t.pools, idx, valid); }
    if dangles {
      var x :| x in t.names && !Lists(t.pools, x) && x < NamesDone(cs, i);
      assert x in u.names;
    }
  }

  lemma ListsWithout(pools: seq<Pool>, idx: nat, x: nat)
    ensures Lists(Without(pools, {idx}), x) <==> Lists(pools, x) && x != idx
  {
    WithoutIs(pools, {idx});
    if Lists(pools, x) && x != idx {
      OthersListed(pools, {idx}, x);
    }
    if Lists(Without(pools, {idx}), x) {
      var i :| 0 <= i < |Without(pools, {idx})| && Without(pools, {idx})[i].idx == x;
      assert Without(pools, {idx})[i] in pools;
    }
  }

  lemma ValidWithout(pools: seq<Pool>, idx: nat, valid: (string, string) -> bool)
    requires AllValid(pools, valid)
    ensures AllValid(Without(pools, {idx}), valid)
  {
    WithoutIs(pools, {idx});
    forall i | 0 <= i < |Without(pools, {idx})|
      ensures var p := Without(pools, {idx})[i]; p.idx < UINT32 && valid(p.url, p.key)
    {
      assert Without(pools, {idx})[i] in pools;
    }
  }

  lemma MixUpdate(t: Table, cs: seq<Config>, i: nat, gone: bool, dangles: bool, k: nat, c: Config,
                  valid: (string, string) -> bool)
    requires 1 <= i && MixInv(t, cs, i, gone, dangles, valid) && k < |t.pools|
    ensures MixInv(UpdateAt(t, k, c, valid), cs, i, gone, dangles, valid)
  {
    var u := UpdateAt(t, k, c, valid);
    assert u.pools[k].idx == t.pools[k].idx && Lists(t.pools, t.pools[k].idx);
    forall x: nat
      ensures Lists(u.pools, x) <==> Lists(t.pools, x)
    {
      ListsUpdated(t, k, c, valid, x);
    }
    if dangles {
      var x :| x in t.names && !Lists(t.pools, x) && x < NamesDone(cs, i);
      assert x in u.names;
    }
  }

  lemma ListsUpdated(t: Table, k: nat, c: Config, valid: (string, string) -> bool, x: nat)
    requires k < |t.pools|
    ensures Lists(UpdateAt(t, k, c, valid).pools, x) <==> Lists(t.pools, x)
  {
    var u := UpdateAt(t, k, c, valid);
    assert |u.pools| == |t.pools| && forall i :: 0 <= i < |t.pools| ==> u.pools[i].idx == t.pools[i].idx;
    if Lists(t.pools, x) {
      var i :| 0 <= i < |t.pools| && t.pools[i].idx == x;
      assert u.pools[i].idx == x;
    }
  }

  lemma MixServe(t: Table, cs: seq<Config>, i: nat, gone: bool, dangles: bool, r: Turn, valid: (string, string) -> bool)
    requires 1 <= i && !r.Edit? && MixInv(t, cs, i, gone, dangles, valid)
    ensures MixInv(Serve(t, r, valid), cs, i, gone || (r.Delete? && IsLast(cs, i, r.id % UINT32)), dangles, valid)
  {
    match r
    case Delete(id) => MixDelete(t, cs, i, gone, dangles, id, valid);
    case Update(id, c) =>
      if Position(t, id).Some? {
        MixUpdate(t, cs, i, gone, dangles, Position(t, id).value, c, valid);
      }
  }

  ghost predicate MixedInv(t: Table, cs: seq<Config>, turns: seq<Turn>, valid: (string, string) -> bool)
  {
    MixInv(t, cs, Edits(turns), Gone(cs, turns), Dangles(cs, turns), valid)
  }

  lemma {:induction false} NotYet(cs: seq<Config>, turns: seq<Turn>)
    requires Edits(turns) == 0
    ensures !Gone(cs, turns) && !Dangles(cs, turns)
  {
    if turns != [] {
      NotYet(cs, turns[..|turns| - 1]);
    }
  }

  lemma MixMoreEdit(t: Table, cs: seq<Config>, turns: seq<Turn>, valid: (string, string) -> bool)
    requires AllAccepted(cs, valid) && turns != [] && turns[|turns| - 1].Edit?
    requires var before := turns[..|turns| - 1]; 0 < Edits(before) <= 2 * |cs| + 1 && MixedInv(t, cs, before, valid)
    ensures MixedInv(Apply(t, EditOf(cs, Edits(turns[..|turns| - 1]))), cs, turns, valid)
  {
    var before := turns[..|turns| - 1];
    MixEdit(t, cs, Edits(before), Gone(cs, before), Dangles(cs, before), valid);
  }

  lemma MixMoreServe(t: Table, cs: seq<Config>, turns: seq<Turn>, valid: (string, string) -> bool)
    requires turns != [] && !turns[|turns| - 1].Edit?
    requires var before := turns[..|turns| - 1]; 0 < Edits(before) && MixedInv(t, cs, before, valid)
    ensures MixedInv(Serve(t, turns[|turns| - 1], valid), cs, turns, valid)
  {
    var before := turns[..|turns| - 1];
    MixServe(t, cs, Edits(before), Gone(cs, before), Dangles(cs, before), turns[|turns| - 1], valid);
  }

  lemma MixMore(t: Table, cs: seq<Config>, turns: seq<Turn>, valid: (string, string) -> bool)
    requires AllAccepted(cs, valid) && turns != [] && 0 < Edits(turns) <= |AllEdits(cs)|
    requires var before := turns[..|turns| - 1]; Edits(before) > 0 ==> MixedInv(Mix(t, cs, before, valid), cs, before, valid)
    ensures MixedInv(Mix(t, cs, turns, valid), cs, turns, valid)
  {
    var before, last := turns[..|turns| - 1], turns[|turns| - 1];
    var u, i := Mix(t, cs, before, valid), Edits(before);
    AllEditsAt(cs, i);
    if i == 0 {
      NotYet(cs, before);
      MixClear(u, cs, valid);
    } else if last.Edit? {
      MixMoreEdit(u, cs, turns, valid);
    } else {
      MixMoreServe(u, cs, turns, valid);
    }
  }

  lemma {:induction false} MixRun(t: Table, cs: seq<Config>, turns: seq<Turn>, valid: (string, string) -> bool)
    requires AllAccepted(cs, valid) && 0 < Edits(turns) <= |AllEdits(cs)|
    ensures MixedInv(Mix(t, cs, turns, valid), cs, turns, valid)
    decreases |turns|
  {
    if Edits(turns[..|turns| - 1]) > 0 {
      MixRun(t, cs, turns[..|turns| - 1], valid);
    }
    MixMore(t, cs, turns, valid);
  }

  // ----- the exact condition -----

  /** A create whose edits are all made, with any deletes and updates in between, leaves a good table
      exactly if no delete hits the pool that was added last and still waits for its name. */
  lemma {:induction false} MeanwhileKeepsExactly(t: Table, cs: seq<Config>, turns: seq<Turn>,
                                                 valid: (string, string) -> bool)
    requires AllAccepted(cs, valid) && Edits(turns) == |AllEdits(cs)|
    ensures Good(Mix(t, cs, turns, valid), valid) <==> !Cut(cs, turns)
    ensures Distinct(Mix(t, cs, turns, valid).pools)
  {
    AllEditsAt(cs, 0);
    MixRun(t, cs, turns, valid);
    CutIs(cs, turns);
    GoodIs(Mix(t, cs, turns, valid), valid);
  }

  /** That does happen to every create with a named first pool. */
  lemma DeleteCutsName(t: Table, cs: seq<Config>, valid: (string, string) -> bool) returns (turns: seq<Turn>)
    requires AllAccepted(cs, valid) && cs != [] && cs[0].name != ""
    ensures Edits(turns) == |AllEdits(cs)| && !Good(Mix(t, cs, turns, valid), valid)
  {
    AllEditsAt(cs, 0);
    var n := |AllEdits(cs)|;
    turns := seq(n + 1, k => if k == 2 then Turn.Delete(0) else Turn.Edit);
    EditsOfCut(turns, n, 2);
    EditsOfCut(turns, n, n + 1);
    assert turns[..n + 1] == turns;
    assert CutsAt(cs, turns, 2);
    MeanwhileKeepsExactly(t, cs, turns, valid);
  }

  lemma {:induction false} EditsOfCut(turns: seq<Turn>, n: nat, k: nat)
    requires |turns| == n + 1 && k <= n + 1 && forall j :: 0 <= j <= n ==> (turns[j].Edit? <==> j != 2)
    ensures Edits(turns[..k]) == if k <= 2 then k else k - 1
  {
    if k > 0 {
      EditsOfCut(turns, n, k - 1);
      assert turns[..k][..k - 1] == turns[..k - 1];
    }
  }
}
