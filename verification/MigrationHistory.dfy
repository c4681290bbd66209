/** What the check promises over a whole history: an append-only log of migrations, and a
    public history that stays a prefix of it. */
module MigrationHistory {
  import opened Wrappers
  import opened Listings
  import opened Migrations
  import opened SortedSets

  // ----- one step -----

  ghost predicate Unchanged(base: Files, local: Files)
  {
    forall p :: p in base ==> p in local && local[p] == base[p]
  }

  ghost predicate NoNewTopLevel(base: Files, local: Files)
  {
    forall p :: p in local && p !in base ==> !IsTopLevel(p)
  }

  /** A release with internal migrations ends in one. */
  predicate MayEnd(m: Versions)
    requires m != map[]
  {
    (exists v :: v in m && HasKind(m[v], Internal)) ==>
      var last: nat := Highest(m.Keys);
      HasKind(m[last], Internal)
  }

  predicate HasKind(pair: Pair, kind: Kind)
  {
    Up in pair && pair[Up].kind == kind
  }

  ghost predicate OnlyAbove(previous: Versions, current: Versions)
  {
    forall v :: v in current && v !in previous ==> Highest(previous.Keys) < v
  }

  /** The check without a public reference, for given listings of the two trees. */
  ghost predicate Follows(base: Files, previous: Versions, local: Files, current: Versions, publicOnly: bool)
  {
    && Unchanged(base, local) && NoNewTopLevel(base, local)
    && Active(local, publicOnly, current) && current != map[] && MayEnd(current)
    && Active(base, publicOnly, previous) && OnlyAbove(previous, current)
  }

  function SharedVersions(m: Versions): set<nat>
  {
    set v | v in m && HasKind(m[v], Shared)
  }

  /** The public tree's migrations are the first shared ones, file for file. */
  ghost predicate Promotes(public: Versions, m: Versions)
  {
    && Sorted(public.Keys) <= Sorted(SharedVersions(m))
    && forall v :: v in public ==> v in m && public[v] == m[v]
  }

  ghost predicate Accepted(base: Files, local: Files, public: Option<Files>, publicOnly: bool)
  {
    exists previous, current ::
      && Follows(base, previous, local, current, publicOnly)
      && (public.Some? ==> IsPublicOf(public.value, current))
  }

  ghost predicate IsPublicOf(public: Files, current: Versions)
  {
    exists p :: Active(public, true, p) && Promotes(p, current)
  }

  method Check(base: Files, local: Files, public: Option<Files>, publicOnly: bool) returns (ok: bool)
    ensures ok <==> Accepted(base, local, public, publicOnly)
  {
    var r := CheckTrees(base, local, publicOnly);
    if r.None? {
      return false;
    }
    var (previous, current) := r.value;
    OnlyFollowing(base, previous, local, current, publicOnly);
    if public.Some? {
      ok := CheckPublic(public.value, current);
    } else {
      ok := true;
    }
  }

  lemma OnlyFollowing(base: Files, previous: Versions, local: Files, current: Versions, publicOnly: bool)
    requires Follows(base, previous, local, current, publicOnly)
    ensures forall p, c :: Follows(base, p, local, c, publicOnly) ==> p == previous && c == current
  {
    OnlyListing(base, publicOnly, previous);
    OnlyListing(local, publicOnly, current);
  }

  method CheckTrees(base: Files, local: Files, publicOnly: bool) returns (r: Option<(Versions, Versions)>)
    ensures r.Some? ==> Follows(base, r.value.0, local, r.value.1, publicOnly)
    ensures r.None? ==> forall p, c :: !Follows(base, p, local, c, publicOnly)
  {
    if exists p :: p in base && (p !in local || local[p] != base[p]) {
      return None;
    }
    if exists p :: p in local.Keys - base.Keys && IsTopLevel(p) {
      return None;
    }
    var c := ActiveMigrations(local, publicOnly);
    if c.None? {
      return None;
    }
    var current := c.value;
    OnlyListing(local, publicOnly, current);
    if current == map[] {
      return None;
    }
    if !MayEnd(current) {
      return None;
    }
    var b := ActiveMigrations(base, publicOnly);
    if b.None? {
      return None;
    }
    var previous := b.value;
    OnlyListing(base, publicOnly, previous);
    var highWater := Highest(previous.Keys);
    if exists v :: v in current && v !in previous && v <= highWater {
      return None;
    }
    return Some((previous, current));
  }

  lemma OnlyListing(files: Files, publicOnly: bool, m: Versions)
    requires Active(files, publicOnly, m)
    ensures forall m' :: Active(files, publicOnly, m') ==> m' == m
  {
    forall m' | Active(files, publicOnly, m')
      ensures m' == m
    {
      ListsUnique(NameOf, files, m', m);
    }
  }

  method CheckPublic(public: Files, current: Versions) returns (ok: bool)
    ensures ok <==> IsPublicOf(public, current)
  {
    var r := ActiveMigrations(public, true);
    if r.None? {
      return false;
    }
    OnlyListing(public, true, r.value);
    ok := IsPromotion(r.value, current);
  }

  method IsPromotion(public: Versions, current: Versions) returns (ok: bool)
    ensures ok <==> Promotes(public, current)
  {
    var promoted := Sorted(public.Keys);
    var shared := Sorted(SharedVersions(current));
    if !(promoted <= shared) {
      return false;
    }
    ok := forall v :: v in public ==> v in current && public[v] == current[v];
  }

  // ----- a history -----

  ghost predicate CanFollow(base: Files, previous: Versions, local: Files, current: Versions)
  {
    exists publicOnly :: Follows(base, previous, local, current, publicOnly)
  }

  /** Trees and their listings, each accepted on top of the one before. */
  ghost predicate History(trees: seq<Files>, lists: seq<Versions>)
  {
    && |trees| == |lists|
    && forall i :: 1 <= i < |trees| ==> CanFollow(trees[i - 1], lists[i - 1], trees[i], lists[i])
  }

  /** Nothing listed is lost or altered, and what is new comes after all of it. */
  ghost predicate Grows(previous: Versions, current: Versions)
  {
    && (forall v :: v in previous ==> v in current && current[v] == previous[v])
    && OnlyAbove(previous, current)
  }

  lemma GrowsTransitive(a: Versions, b: Versions, c: Versions)
    requires Grows(a, b) && Grows(b, c)
    ensures Grows(a, c)
  {
    HigherSubset(a.Keys, b.Keys);
  }

  lemma HigherSubset(a: set<nat>, b: set<nat>)
    requires a <= b
    ensures Highest(a) <= Highest(b)
  {
    if a != {} {
      var h: nat := Highest(a);
      assert h in b;
    }
  }

  lemma FollowsGrows(base: Files, previous: Versions, local: Files, current: Versions, publicOnly: bool)
    requires Follows(base, previous, local, current, publicOnly)
    ensures Grows(previous, current)
  {
    ListsWithin(NameOf, base, previous, local, current);
    forall v | v in previous
      ensures v in current && current[v] == previous[v]
    {
      SamePair(previous, current, v);
    }
  }

  /** A complete pair has no room for more. */
  lemma SamePair(m: Versions, m': Versions, v: nat)
    requires Within(m, m') && v in m && Complete(m, v) && v in m' && Complete(m', v)
    ensures m'[v] == m[v]
  {
    assert m[v].Keys == m'[v].Keys;
  }

  /** What a later tree keeps of an earlier one. */
  ghost predicate Extends(base: Files, previous: Versions, local: Files, current: Versions)
  {
    Unchanged(base, local) && NoNewTopLevel(base, local) && Grows(previous, current)
  }

  lemma CanFollowExtends(base: Files, previous: Versions, local: Files, current: Versions)
    requires CanFollow(base, previous, local, current)
    ensures Extends(base, previous, local, current)
  {
    var po :| Follows(base, previous, local, current, po);
    FollowsGrows(base, previous, local, current, po);
  }

  lemma ExtendsTransitive(a: Files, ma: Versions, b: Files, mb: Versions, c: Files, mc: Versions)
    requires Extends(a, ma, b, mb) && Extends(b, mb, c, mc)
    ensures Extends(a, ma, c, mc)
  {
    GrowsTransitive(ma, mb, mc);
  }

  ghost predicate EachExtends(trees: seq<Files>, lists: seq<Versions>)
  {
    && |trees| == |lists|
    && forall i :: 1 <= i < |trees| ==> Extends(trees[i - 1], lists[i - 1], trees[i], lists[i])
  }

  lemma HistoryExtends(trees: seq<Files>, lists: seq<Versions>)
    requires History(trees, lists)
    ensures EachExtends(trees, lists)
  {
    forall i | 1 <= i < |trees|
      ensures Extends(trees[i - 1], lists[i - 1], trees[i], lists[i])
    {
      CanFollowExtends(trees[i - 1], lists[i - 1], trees[i], lists[i]);
    }
  }

  lemma {:induction false} LaterExtends(trees: seq<Files>, lists: seq<Versions>, i: nat, j: nat)
    requires EachExtends(trees, lists) && i < j < |trees|
    ensures Extends(trees[i], lists[i], trees[j], lists[j])
  {
    if i < j - 1 {
      LaterExtends(trees, lists, i, j - 1);
      ExtendsTransitive(trees[i], lists[i], trees[j - 1], lists[j - 1], trees[j], lists[j]);
    }
  }

  /** The migrations of a history are an append-only log: no earlier SQL changes, the ordered
      versions of a tree are a prefix of those of every later one, and no file is ever added
      to the legacy directory. */
  lemma {:induction false} AppendOnly(trees: seq<Files>, lists: seq<Versions>, i: nat, j: nat)
    requires History(trees, lists) && i < j < |trees|
    ensures forall p :: p in trees[i] ==> p in trees[j] && trees[j][p] == trees[i][p]
    ensures Sorted(lists[i].Keys) <= Sorted(lists[j].Keys)
    ensures forall v :: v in lists[i] ==> v in lists[j] && lists[j][v] == lists[i][v]
    ensures forall p :: IsTopLevel(p) ==> (p in trees[i] <==> p in trees[j])
  {
    HistoryExtends(trees, lists);
    LaterExtends(trees, lists, i, j);
    SortedPrefix(lists[i].Keys, lists[j].Keys);
  }

  // ----- public promotion along a history -----

  lemma PromotesLater(public: Versions, previous: Versions, current: Versions)
    requires Grows(previous, current) && Promotes(public, previous)
    ensures Promotes(public, current)
  {
    var a, b := SharedVersions(previous), SharedVersions(current);
    HigherSubset(a, previous.Keys);
    forall x | x in b && x !in a
      ensures Highest(a) < x
    {
      assert x !in previous;
    }
    SortedPrefix(a, b);
    assert Sorted(public.Keys) <= Sorted(b);
  }

  lemma {:induction false} PromotionGrows(trees: seq<Files>, lists: seq<Versions>, i: nat, j: nat, public: Versions)
    requires History(trees, lists) && i <= j < |trees|
    requires Promotes(public, lists[i])
    ensures Promotes(public, lists[j])
  {
    if i < j {
      HistoryExtends(trees, lists);
      LaterExtends(trees, lists, i, j);
      PromotesLater(public, lists[i], lists[j]);
    }
  }

  /** A public tree accepted against one tree of a history is accepted against every later
      one. */
  lemma {:induction false} PromotionIsStable(trees: seq<Files>, lists: seq<Versions>, i: nat, j: nat, public: Files)
    requires History(trees, lists) && i <= j < |trees| && IsPublicOf(public, lists[i])
    ensures IsPublicOf(public, lists[j])
  {
    var p :| Active(public, true, p) && Promotes(p, lists[i]);
    PromotionGrows(trees, lists, i, j, p);
  }

  /** Any two public trees accepted along a history have listings that are prefixes of one
      another, and agree file for file on the versions both have. */
  lemma {:induction false} PublicTreesCompare(trees: seq<Files>, lists: seq<Versions>, i: nat, j: nat,
                                              public: Files, other: Files) returns (p: Versions, q: Versions)
    requires History(trees, lists) && i <= j < |trees|
    requires IsPublicOf(public, lists[i]) && IsPublicOf(other, lists[j])
    ensures Active(public, true, p) && Active(other, true, q)
    ensures Sorted(p.Keys) <= Sorted(q.Keys) || Sorted(q.Keys) <= Sorted(p.Keys)
    ensures forall v :: v in p && v in q ==> p[v] == q[v]
  {
    p :| Active(public, true, p) && Promotes(p, lists[i]);
    q :| Active(other, true, q) && Promotes(q, lists[j]);
    PromotionGrows(trees, lists, i, j, p);
    PrefixesCompare(Sorted(p.Keys), Sorted(q.Keys), Sorted(SharedVersions(lists[j])));
  }
}
