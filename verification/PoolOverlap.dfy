/** Two creates whose locked regions interleave: exactly when the table stays good. */
module PoolOverlap {
  import opened Pools

  // ----- interleavings -----

  /** How many of these turns are the first create's. */
  function Firsts(turns: seq<bool>): (n: nat)
    ensures n <= |turns|
  {
    if turns == [] then 0
    else Firsts(turns[..|turns| - 1]) + if turns[|turns| - 1] then 1 else 0
  }

  predicate Fits(xs: seq<Edit>, ys: seq<Edit>, turns: seq<bool>)
  {
    Firsts(turns) <= |xs| && |turns| - Firsts(turns) <= |ys|
  }

  /** Both creates have made all their edits. */
  predicate Complete(xs: seq<Edit>, ys: seq<Edit>, turns: seq<bool>)
  {
    Firsts(turns) == |xs| && |turns| == |xs| + |ys|
  }

  lemma FitsBefore(xs: seq<Edit>, ys: seq<Edit>, turns: seq<bool>)
    requires Fits(xs, ys, turns) && turns != []
    ensures var before := turns[..|turns| - 1];
            && Fits(xs, ys, before)
            && (turns[|turns| - 1] ==> Firsts(before) < |xs|)
            && (!turns[|turns| - 1] ==> |before| - Firsts(before) < |ys|)
  {
  }

  /** Each turn is the next edit of one of the two. */
  function Interleave(t: Table, xs: seq<Edit>, ys: seq<Edit>, turns: seq<bool>): Table
    requires Fits(xs, ys, turns)
    decreases |turns|
  {
    if turns == [] then t
    else
      var before := turns[..|turns| - 1];
      FitsBefore(xs, ys, turns);
      var u := Interleave(t, xs, ys, before);
      if turns[|turns| - 1] then Apply(u, xs[Firsts(before)]) else Apply(u, ys[|before| - Firsts(before)])
  }

  // ----- the edits of one create -----

  function Min(a: nat, b: nat): nat { if a <= b then a else b }

  /** Edit k of a create: clear, then a pool and its name in turn, then onboard. */
  lemma {:induction false} EditAt(cs: seq<Config>, n: nat, k: nat)
    requires n <= |cs| && k <= 2 * n
    ensures |CreateEdits(cs, n)| == 2 * n + 1
    ensures CreateEdits(cs, n)[k] == EditOf(cs, k)
  {
    if n > 0 && k <= 2 * (n - 1) {
      EditAt(cs, n - 1, k);
    } else if n > 0 {
      EditAt(cs, n - 1, 0);
    }
  }

  function EditOf(cs: seq<Config>, k: nat): Edit
    requires k <= 2 * |cs| + 1
  {
    if k == 0 then Clear
    else if k == 2 * |cs| + 1 then Onboard
    else if k % 2 == 1 then Add(MakePool(cs[k / 2], k / 2))
    else SetName((k / 2 - 1) % UINT32, cs[k / 2 - 1].name)
  }

  lemma AllEditsAt(cs: seq<Config>, k: nat)
    ensures |AllEdits(cs)| == if cs == [] then 1 else 2 * |cs| + 2
    ensures k < |AllEdits(cs)| ==> AllEdits(cs)[k] == EditOf(cs, k)
  {
    EditAt(cs, |cs|, 0);
    if k <= 2 * |cs| {
      EditAt(cs, |cs|, k);
    }
  }

  /** How many pools a create has added. */
  function Adds(es: seq<Edit>): nat
  {
    if es == [] then 0 else Adds(es[..|es| - 1]) + if es[|es| - 1].Add? then 1 else 0
  }

  lemma {:induction false} AddsOf(cs: seq<Config>, k: nat)
    requires k <= |AllEdits(cs)|
    ensures Adds(AllEdits(cs)[..k]) == Min(k / 2, |cs|)
  {
    if k > 0 {
      AddsOf(cs, k - 1);
      AllEditsAt(cs, k - 1);
      assert AllEdits(cs)[..k][..k - 1] == AllEdits(cs)[..k - 1];
    }
  }

  // ----- the pools -----

  /** The pools are those from a0 up to a of the first create and those up to b of the second. */
  ghost predicate PoolsAre(pools: seq<Pool>, a0: nat, a: nat, b: nat)
  {
    && (forall x: nat :: Lists(pools, x) <==> a0 <= x < a || x < b)
    && (Distinct(pools) <==> a == a0 || b == 0 || b <= a0)
  }

  lemma ListsMore(pools: seq<Pool>, p: Pool)
    ensures forall x: nat :: Lists(pools + [p], x) <==> Lists(pools, x) || x == p.idx
    ensures Distinct(pools + [p]) <==> Distinct(pools) && !Lists(pools, p.idx)
  {
    var more := pools + [p];
    assert more[|pools|] == p;
    assert forall i :: 0 <= i < |pools| ==> more[i] == pools[i];
  }

  lemma AddFirst(pools: seq<Pool>, a0: nat, a: nat, b: nat, p: Pool)
    requires PoolsAre(pools, a0, a, b) && a0 <= a && p.idx == a
    ensures PoolsAre(pools + [p], a0, a + 1, b)
  {
    ListsMore(pools, p);
  }

  lemma AddSecond(pools: seq<Pool>, a0: nat, a: nat, b: nat, p: Pool)
    requires PoolsAre(pools, a0, a, b) && a0 <= a && p.idx == b
    ensures PoolsAre(pools + [p], a0, a, b + 1)
  {
    ListsMore(pools, p);
  }

  // ----- the names -----

  /** Names come from the first create's turns from a0 up to a and the second's up to b; those
      the second never touches are all there. */
  ghost predicate NamesAre(names: map<nat, string>, cs: seq<Config>, ds: seq<Config>, a0: nat, a: nat, b: nat)
    requires a <= |cs| && b <= |ds|
  {
    && (forall x :: x in names ==> names[x] != "" && ((a0 <= x < a && cs[x].name != "") || x < b))
    && (forall x :: a0 <= x < a && |ds| <= x && cs[x].name != "" ==> x in names)
  }

  lemma NameFirst(t: Table, cs: seq<Config>, ds: seq<Config>, a0: nat, a: nat, b: nat)
    requires a < |cs| <= UINT32 && b <= |ds| && a0 <= a && NamesAre(t.names, cs, ds, a0, a, b)
    ensures NamesAre(Apply(t, SetName(a % UINT32, cs[a].name)).names, cs, ds, a0, a + 1, b)
  {
    assert a % UINT32 == a;
  }

  lemma NameSecond(t: Table, cs: seq<Config>, ds: seq<Config>, a0: nat, a: nat, b: nat)
    requires a <= |cs| && b < |ds| <= UINT32 && NamesAre(t.names, cs, ds, a0, a, b)
    ensures NamesAre(Apply(t, SetName(b % UINT32, ds[b].name)).names, cs, ds, a0, a, b + 1)
  {
    assert b % UINT32 == b;
  }

  // ----- both creates -----

  function PoolsDone(cs: seq<Config>, k: nat): (n: nat)
    ensures n <= |cs|
  {
    Min(k / 2, |cs|)
  }

  function NamesDone(cs: seq<Config>, k: nat): (n: nat)
    ensures n <= |cs|
  {
    Min(if k == 0 then 0 else (k - 1) / 2, |cs|)
  }

  ghost predicate AllValid(pools: seq<Pool>, valid: (string, string) -> bool)
  {
    forall i :: 0 <= i < |pools| ==> pools[i].idx < UINT32 && valid(pools[i].url, pools[i].key)
  }

  /** The table when the first create has made i edits and the second j, and had made lead of
      them when the second cleared the table. */
  ghost predicate Between(t: Table, cs: seq<Config>, ds: seq<Config>, lead: nat, i: nat, j: nat,
                          valid: (string, string) -> bool)
  {
    && PoolsAre(t.pools, PoolsDone(cs, lead), PoolsDone(cs, i), PoolsDone(ds, j)) && AllValid(t.pools, valid)
    && NamesAre(t.names, cs, ds, NamesDone(cs, lead), NamesDone(cs, i), NamesDone(ds, j))
  }

  ghost predicate AllAccepted(cs: seq<Config>, valid: (string, string) -> bool)
  {
    |cs| <= UINT32 && forall i :: 0 <= i < |cs| ==> Accepted(cs[i], valid)
  }

  /** What one more edit does to the counts. */
  lemma Counts(cs: seq<Config>, k: nat)
    requires 1 <= k <= 2 * |cs| + 1
    ensures k == 2 * |cs| + 1 ==> PoolsDone(cs, k + 1) == PoolsDone(cs, k) && NamesDone(cs, k + 1) == NamesDone(cs, k)
    ensures k < 2 * |cs| + 1 && k % 2 == 1 ==>
              k / 2 == PoolsDone(cs, k) < |cs| && PoolsDone(cs, k + 1) == k / 2 + 1
              && NamesDone(cs, k + 1) == NamesDone(cs, k)
    ensures k < 2 * |cs| + 1 && k % 2 == 0 ==>
              k / 2 - 1 == NamesDone(cs, k) < |cs| && NamesDone(cs, k + 1) == k / 2
              && PoolsDone(cs, k + 1) == PoolsDone(cs, k)
  {
  }

  lemma Starts(cs: seq<Config>, lead: nat, i: nat)
    requires lead <= i
    ensures PoolsDone(cs, lead) <= PoolsDone(cs, i) && NamesDone(cs, lead) <= NamesDone(cs, i)
  {
  }

  lemma ValidMore(pools: seq<Pool>, c: Config, i: nat, valid: (string, string) -> bool)
    requires AllValid(pools, valid) && i < UINT32 && Accepted(c, valid)
    ensures AllValid(pools + [MakePool(c, i)], valid) && MakePool(c, i).idx == i
  {
    MadePool(c, i, valid);
  }

  lemma FirstAdds(t: Table, cs: seq<Config>, ds: seq<Config>, lead: nat, i: nat, j: nat, valid: (string, string) -> bool)
    requires AllAccepted(cs, valid) && 1 <= lead <= i < 2 * |cs| + 1 && i % 2 == 1 && Between(t, cs, ds, lead, i, j, valid)
    ensures Between(Apply(t, Add(MakePool(cs[i / 2], i / 2))), cs, ds, lead, i + 1, j, valid)
  {
    Counts(cs, i);
    Starts(cs, lead, i);
    ValidMore(t.pools, cs[i / 2], i / 2, valid);
    AddFirst(t.pools, PoolsDone(cs, lead), i / 2, PoolsDone(ds, j), MakePool(cs[i / 2], i / 2));
  }

  lemma FirstNames(t: Table, cs: seq<Config>, ds: seq<Config>, lead: nat, i: nat, j: nat, valid: (string, string) -> bool)
    requires |cs| <= UINT32 && 1 <= lead <= i < 2 * |cs| + 1 && i % 2 == 0 && Between(t, cs, ds, lead, i, j, valid)
    ensures Between(Apply(t, SetName((i / 2 - 1) % UINT32, cs[i / 2 - 1].name)), cs, ds, lead, i + 1, j, valid)
  {
    Counts(cs, i);
    Starts(cs, lead, i);
    NameFirst(t, cs, ds, NamesDone(cs, lead), i / 2 - 1, NamesDone(ds, j));
  }

  lemma FirstTurn(t: Table, cs: seq<Config>, ds: seq<Config>, lead: nat, i: nat, j: nat, valid: (string, string) -> bool)
    requires AllAccepted(cs, valid) && 1 <= lead <= i <= 2 * |cs| + 1 && Between(t, cs, ds, lead, i, j, valid)
    ensures Between(Apply(t, EditOf(cs, i)), cs, ds, lead, i + 1, j, valid)
  {
    if i == 2 * |cs| + 1 {
      Counts(cs, i);
    } else if i % 2 == 1 {
      FirstAdds(t, cs, ds, lead, i, j, valid);
    } else {
      FirstNames(t, cs, ds, lead, i, j, valid);
    }
  }

  lemma SecondTurn(t: Table, cs: seq<Config>, ds: seq<Config>, lead: nat, i: nat, j: nat, valid: (string, string) -> bool)
    requires AllAccepted(ds, valid) && lead <= i && 1 <= j <= 2 * |ds| + 1 && Between(t, cs, ds, lead, i, j, valid)
    ensures Between(Apply(t, EditOf(ds, j)), cs, ds, lead, i, j + 1, valid)
  {
    Counts(ds, j);
    Starts(cs, lead, i);
    if j < 2 * |ds| + 1 && j % 2 == 1 {
      ValidMore(t.pools, ds[j / 2], j / 2, valid);
      AddSecond(t.pools, PoolsDone(cs, lead), PoolsDone(cs, i), j / 2, MakePool(ds[j / 2], j / 2));
    } else if j < 2 * |ds| + 1 {
      NameSecond(t, cs, ds, NamesDone(cs, lead), NamesDone(cs, i), j / 2 - 1);
    }
  }

  /** The second create clears the table. */
  lemma SecondClears(t: Table, cs: seq<Config>, ds: seq<Config>, lead: nat, valid: (string, string) -> bool)
    ensures Between(Apply(t, Clear), cs, ds, lead, lead, 1, valid)
  {
    var u := Apply(t, Clear);
    assert forall x: nat :: !Lists(u.pools, x);
  }

  /** The first create leads with `lead` turns, and then the second has its first. */
  ghost predicate Leads(turns: seq<bool>, lead: nat)
  {
    0 < lead < |turns| && !turns[lead] && forall k :: 0 <= k < lead ==> turns[k]
  }

  lemma {:induction false} FirstsOfLead(turns: seq<bool>, k: nat)
    requires k <= |turns| && forall i :: 0 <= i < k ==> turns[i]
    ensures Firsts(turns[..k]) == k
  {
    if k > 0 {
      FirstsOfLead(turns, k - 1);
      assert turns[..k][..k - 1] == turns[..k - 1];
    }
  }

  /** These are the edits of a create, all or some. */
  ghost predicate EditsOf(xs: seq<Edit>, cs: seq<Config>)
  {
    0 < |xs| <= 2 * |cs| + 2 && forall k :: 0 <= k < |xs| ==> xs[k] == EditOf(cs, k)
  }

  lemma AllEditsAre(cs: seq<Config>)
    ensures EditsOf(AllEdits(cs), cs)
  {
    AllEditsAt(cs, 0);
    forall k | 0 <= k < |AllEdits(cs)|
      ensures AllEdits(cs)[k] == EditOf(cs, k)
    {
      AllEditsAt(cs, k);
    }
  }

  /** What the second create's first turn establishes and every later turn keeps, holds in the
      end. */
  lemma {:induction false} TurnsKeep(t: Table, xs: seq<Edit>, ys: seq<Edit>, turns: seq<bool>, lead: nat,
                                     inv: (Table, nat, nat) -> bool)
    requires Fits(xs, ys, turns) && Leads(turns, lead) && ys != []
    requires forall u: Table :: inv(Apply(u, ys[0]), lead, 1)
    requires forall u: Table, i: nat, j: nat :: lead <= i < |xs| && 1 <= j && inv(u, i, j) ==> inv(Apply(u, xs[i]), i + 1, j)
    requires forall u: Table, i: nat, j: nat :: lead <= i && 1 <= j < |ys| && inv(u, i, j) ==> inv(Apply(u, ys[j]), i, j + 1)
    ensures lead <= Firsts(turns) && 1 <= |turns| - Firsts(turns)
    ensures inv(Interleave(t, xs, ys, turns), Firsts(turns), |turns| - Firsts(turns))
    decreases |turns|
  {
    var before := turns[..|turns| - 1];
    FitsBefore(xs, ys, turns);
    if |turns| == lead + 1 {
      FirstsOfLead(turns, lead);
    } else {
      TurnsKeep(t, xs, ys, before, lead, inv);
    }
  }

  ghost predicate IsBetween(inv: (Table, nat, nat) -> bool, cs: seq<Config>, ds: seq<Config>, lead: nat,
                            valid: (string, string) -> bool)
  {
    forall u: Table, i: nat, j: nat :: inv(u, i, j) <==> Between(u, cs, ds, lead, i, j, valid)
  }

  lemma FirstKeeps(inv: (Table, nat, nat) -> bool, cs: seq<Config>, ds: seq<Config>, xs: seq<Edit>, lead: nat,
                   valid: (string, string) -> bool)
    requires AllAccepted(cs, valid) && EditsOf(xs, cs) && 1 <= lead && IsBetween(inv, cs, ds, lead, valid)
    ensures forall u: Table, i: nat, j: nat :: lead <= i < |xs| && 1 <= j && inv(u, i, j) ==> inv(Apply(u, xs[i]), i + 1, j)
  {
    forall u: Table, i: nat, j: nat | lead <= i < |xs| && 1 <= j && inv(u, i, j)
      ensures inv(Apply(u, xs[i]), i + 1, j)
    {
      FirstTurn(u, cs, ds, lead, i, j, valid);
    }
  }

  lemma SecondKeeps(inv: (Table, nat, nat) -> bool, cs: seq<Config>, ds: seq<Config>, ys: seq<Edit>, lead: nat,
                    valid: (string, string) -> bool)
    requires AllAccepted(ds, valid) && EditsOf(ys, ds) && IsBetween(inv, cs, ds, lead, valid)
    ensures forall u: Table :: inv(Apply(u, ys[0]), lead, 1)
    ensures forall u: Table, i: nat, j: nat :: lead <= i && 1 <= j < |ys| && inv(u, i, j) ==> inv(Apply(u, ys[j]), i, j + 1)
  {
    forall u: Table
      ensures inv(Apply(u, ys[0]), lead, 1)
    {
      SecondClears(u, cs, ds, lead, valid);
    }
    forall u: Table, i: nat, j: nat | lead <= i && 1 <= j < |ys| && inv(u, i, j)
      ensures inv(Apply(u, ys[j]), i, j + 1)
    {
      SecondTurn(u, cs, ds, lead, i, j, valid);
    }
  }

  lemma AfterTurns(t: Table, cs: seq<Config>, xs: seq<Edit>, ds: seq<Config>, ys: seq<Edit>, turns: seq<bool>, lead: nat,
                   valid: (string, string) -> bool, inv: (Table, nat, nat) -> bool)
    requires AllAccepted(cs, valid) && AllAccepted(ds, valid) && EditsOf(xs, cs) && EditsOf(ys, ds)
    requires Fits(xs, ys, turns) && Leads(turns, lead) && IsBetween(inv, cs, ds, lead, valid)
    ensures inv(Interleave(t, xs, ys, turns), Firsts(turns), |turns| - Firsts(turns))
  {
    FirstKeeps(inv, cs, ds, xs, lead, valid);
    SecondKeeps(inv, cs, ds, ys, lead, valid);
    TurnsKeep(t, xs, ys, turns, lead, inv);
  }

  // ----- the exact condition -----

  /** The second create clears the table between a named pool of the first and its name, and has
      no pool with that number itself. */
  predicate CutsName(cs: seq<Config>, ds: seq<Config>, lead: nat)
  {
    var es := AllEdits(cs);
    && 0 < lead < |es| && es[lead - 1].Add? && |ds| <= es[lead - 1].pool.idx
    && es[lead].SetName? && es[lead].name != ""
  }

  ghost predicate NamesListed(t: Table)
  {
    forall x :: x in t.names ==> Lists(t.pools, x)
  }

  lemma CutsNameIs(cs: seq<Config>, ds: seq<Config>, lead: nat)
    requires |cs| <= UINT32 && 0 < lead
    ensures var a, q := PoolsDone(cs, lead), NamesDone(cs, lead);
            q <= a <= q + 1 && (CutsName(cs, ds, lead) <==> q < a && |ds| <= q && cs[q].name != "")
  {
    AllEditsAt(cs, lead);
    AllEditsAt(cs, lead - 1);
  }

  lemma ListedExactly(t: Table, cs: seq<Config>, ds: seq<Config>, a: nat, q: nat)
    requires q <= a <= q + 1 && a <= |cs|
    requires PoolsAre(t.pools, a, |cs|, |ds|) && NamesAre(t.names, cs, ds, q, |cs|, |ds|)
    ensures NamesListed(t) <==> !(q < a && |ds| <= q && cs[q].name != "")
  {
    if q < a && |ds| <= q && cs[q].name != "" {
      assert q in t.names && !Lists(t.pools, q);
    }
  }

  lemma AtTheEnd(t: Table, cs: seq<Config>, ds: seq<Config>, turns: seq<bool>, lead: nat, valid: (string, string) -> bool)
    requires AllAccepted(cs, valid) && AllAccepted(ds, valid)
    requires Complete(AllEdits(cs), AllEdits(ds), turns) && Leads(turns, lead)
    ensures var u := Interleave(t, AllEdits(cs), AllEdits(ds), turns);
            && PoolsAre(u.pools, PoolsDone(cs, lead), |cs|, |ds|) && AllValid(u.pools, valid)
            && NamesAre(u.names, cs, ds, NamesDone(cs, lead), |cs|, |ds|)
    ensures lead <= |AllEdits(cs)|
  {
    AllEditsAre(cs);
    AllEditsAre(ds);
    AllEditsAt(cs, 0);
    AllEditsAt(ds, 0);
    LeadBound(turns, lead);
    var inv := (u: Table, i: nat, j: nat) => Between(u, cs, ds, lead, i, j, valid);
    AfterTurns(t, cs, AllEdits(cs), ds, AllEdits(ds), turns, lead, valid, inv);
  }

  lemma {:induction false} LeadBound(turns: seq<bool>, lead: nat)
    requires Leads(turns, lead)
    ensures lead <= Firsts(turns)
    decreases |turns|
  {
    if |turns| == lead + 1 {
      FirstsOfLead(turns, lead);
    } else {
      LeadBound(turns[..|turns| - 1], lead);
    }
  }

  /** Of two accepted creates whose edits interleave in any order, let cs be the one that clears
      the table first. The pools are numbered apart exactly if it has added as many pools as the
      smaller of the two has before the other clears the table; and every name belongs to a
      listed pool exactly if the other does not cut a name off its pool. */
  lemma OverlapKeepsExactly(t: Table, cs: seq<Config>, ds: seq<Config>, turns: seq<bool>, lead: nat,
                            valid: (string, string) -> bool)
    requires AllAccepted(cs, valid) && AllAccepted(ds, valid)
    requires Complete(AllEdits(cs), AllEdits(ds), turns) && Leads(turns, lead)
    ensures lead <= |AllEdits(cs)|
    ensures var u := Interleave(t, AllEdits(cs), AllEdits(ds), turns);
            && (Distinct(u.pools) <==> Min(|cs|, |ds|) <= Adds(AllEdits(cs)[..lead]))
            && (NamesListed(u) <==> !CutsName(cs, ds, lead))
            && (Good(u, valid) <==> Min(|cs|, |ds|) <= Adds(AllEdits(cs)[..lead]) && !CutsName(cs, ds, lead))
  {
    AtTheEnd(t, cs, ds, turns, lead, valid);
    AddsOf(cs, lead);
    CutsNameIs(cs, ds, lead);
    var u := Interleave(t, AllEdits(cs), AllEdits(ds), turns);
    ListedExactly(u, cs, ds, PoolsDone(cs, lead), NamesDone(cs, lead));
    GoodIs(u, valid);
  }

  lemma GoodIs(t: Table, valid: (string, string) -> bool)
    requires AllValid(t.pools, valid) && forall x :: x in t.names ==> t.names[x] != ""
    ensures Good(t, valid) <==> Distinct(t.pools) && NamesListed(t)
  {
  }

  // ----- both ways of going wrong do happen -----

  /** lead turns of the first create, all m of the second, then the rest of the n of the first. */
  function Cut(n: nat, lead: nat, m: nat): seq<bool>
  {
    seq(n + m, i => i < lead || lead + m <= i)
  }

  lemma {:induction false} FirstsOfCut(n: nat, lead: nat, m: nat, k: nat)
    requires lead <= n && k <= n + m
    ensures Firsts(Cut(n, lead, m)[..k]) == if k <= lead then k else if k <= lead + m then lead else k - m
  {
    if k > 0 {
      FirstsOfCut(n, lead, m, k - 1);
      assert Cut(n, lead, m)[..k][..k - 1] == Cut(n, lead, m)[..k - 1];
    }
  }

  lemma CutIsComplete(xs: seq<Edit>, ys: seq<Edit>, lead: nat)
    requires 0 < lead <= |xs| && ys != []
    ensures Complete(xs, ys, Cut(|xs|, lead, |ys|)) && Leads(Cut(|xs|, lead, |ys|), lead)
  {
    var turns := Cut(|xs|, lead, |ys|);
    FirstsOfCut(|xs|, lead, |ys|, |turns|);
    assert turns[..|turns|] == turns;
  }

  /** Any two creates with pools can number two pools alike: both clear first. */
  lemma OverlapDuplicates(t: Table, cs: seq<Config>, ds: seq<Config>, valid: (string, string) -> bool)
    returns (turns: seq<bool>)
    requires AllAccepted(cs, valid) && AllAccepted(ds, valid) && cs != [] && ds != []
    ensures Complete(AllEdits(cs), AllEdits(ds), turns)
    ensures !Distinct(Interleave(t, AllEdits(cs), AllEdits(ds), turns).pools)
  {
    AllEditsAt(cs, 0);
    AllEditsAt(ds, 0);
    turns := Cut(|AllEdits(cs)|, 1, |AllEdits(ds)|);
    CutIsComplete(AllEdits(cs), AllEdits(ds), 1);
    OverlapKeepsExactly(t, cs, ds, turns, 1, valid);
    AddsOf(cs, 1);
  }

  /** And a create with more pools than another can leave a name with no pool, all pools being
      numbered apart. */
  lemma OverlapCutsName(t: Table, cs: seq<Config>, ds: seq<Config>, valid: (string, string) -> bool)
    returns (turns: seq<bool>)
    requires AllAccepted(cs, valid) && AllAccepted(ds, valid) && |ds| < |cs| && cs[|ds|].name != ""
    ensures Complete(AllEdits(cs), AllEdits(ds), turns)
    ensures var u := Interleave(t, AllEdits(cs), AllEdits(ds), turns); Distinct(u.pools) && !NamesListed(u)
  {
    var lead := 2 * |ds| + 2;
    CutHere(cs, ds);
    turns := Cut(|AllEdits(cs)|, lead, |AllEdits(ds)|);
    CutIsComplete(AllEdits(cs), AllEdits(ds), lead);
    OverlapKeepsExactly(t, cs, ds, turns, lead, valid);
  }

  lemma CutHere(cs: seq<Config>, ds: seq<Config>)
    requires |ds| < |cs| <= UINT32 && cs[|ds|].name != ""
    ensures var lead := 2 * |ds| + 2;
            && lead <= |AllEdits(cs)| && AllEdits(ds) != []
            && CutsName(cs, ds, lead) && Min(|cs|, |ds|) <= Adds(AllEdits(cs)[..lead])
  {
    AllEditsAt(cs, 0);
    AllEditsAt(ds, 0);
    CutsNameIs(cs, ds, 2 * |ds| + 2);
    AddsOf(cs, 2 * |ds| + 2);
  }
}
