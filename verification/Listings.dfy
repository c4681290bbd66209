/** Files listed by version and direction, for any way of reading a version and direction
    off a path. */
module Listings {
  import opened Wrappers

  type Files = map<string, string>

  datatype Kind = Shared | Internal
  datatype Direction = Up | Down
  datatype Name = Name(version: nat, kind: Kind, direction: Direction)
  datatype Entry = Entry(path: string, body: string, kind: Kind)
  type Pair = map<Direction, Entry>
  type Versions = map<nat, Pair>

  /** How a path is read; `None` for a path that is not listed. */
  type Naming = string -> Option<Name>

  predicate Listed(naming: Naming, files: Files, m: Versions, path: string)
    requires path in files
  {
    match naming(path)
    case None => true
    case Some(Name(v, k, d)) => v in m && d in m[v] && m[v][d] == Entry(path, files[path], k)
  }

  predicate EntryFrom(naming: Naming, files: Files, paths: set<string>, v: nat, d: Direction, e: Entry)
  {
    && e.path in paths && e.path in files && e.body == files[e.path]
    && naming(e.path) == Some(Name(v, e.kind, d))
  }

  /** `m` lists the named files among `paths`, and nothing else. */
  ghost predicate Lists(naming: Naming, files: Files, paths: set<string>, m: Versions)
  {
    && (forall p :: p in paths && p in files ==> Listed(naming, files, m, p))
    && (forall v :: v in m ==> m[v] != map[])
    && (forall v, d :: v in m && d in m[v] ==> EntryFrom(naming, files, paths, v, d, m[v][d]))
  }

  /** Everything in m is in m' as well, and the same there. */
  ghost predicate Within(m: Versions, m': Versions)
  {
    m.Keys <= m'.Keys && forall v, d :: v in m && d in m[v] ==> d in m'[v] && m[v][d] == m'[v][d]
  }

  lemma ListsWithin(naming: Naming, files: Files, m: Versions, files': Files, m': Versions)
    requires Lists(naming, files, files.Keys, m) && Lists(naming, files', files'.Keys, m')
    requires forall p :: p in files ==> p in files' && files'[p] == files[p]
    ensures Within(m, m')
  {
    forall v, d | v in m && d in m[v]
      ensures v in m' && d in m'[v] && m[v][d] == m'[v][d]
    {
      var e := m[v][d];
      assert EntryFrom(naming, files, files.Keys, v, d, e);
      assert Listed(naming, files', m', e.path);
    }
    forall v | v in m
      ensures v in m'
    {
      var d :| d in m[v];
    }
  }

  /** A tree has at most one listing. */
  lemma ListsUnique(naming: Naming, files: Files, m: Versions, m': Versions)
    requires Lists(naming, files, files.Keys, m) && Lists(naming, files, files.Keys, m')
    ensures m == m'
  {
    ListsWithin(naming, files, m, files, m');
    ListsWithin(naming, files, m', files, m);
    SameEntries(m, m');
  }

  lemma SameEntries(m: Versions, m': Versions)
    requires Within(m, m') && Within(m', m)
    ensures m == m'
  {
    forall v | v in m
      ensures m[v] == m'[v]
    {
      assert m[v].Keys == m'[v].Keys;
    }
  }

  /** A file of no name leaves the listing as it is. */
  lemma ListsSkip(naming: Naming, files: Files, done: set<string>, m: Versions, path: string)
    requires Lists(naming, files, done, m) && naming(path) == None
    ensures Lists(naming, files, done + {path}, m)
  {
    forall v, d | v in m && d in m[v]
      ensures EntryFrom(naming, files, done + {path}, v, d, m[v][d])
    {
      assert EntryFrom(naming, files, done, v, d, m[v][d]);
    }
  }

  lemma ListsAdd(naming: Naming, files: Files, done: set<string>, m: Versions, path: string, n: Name, pair: Pair)
    requires Lists(naming, files, done, m) && path in files && naming(path) == Some(n)
    requires pair == (if n.version in m then m[n.version] else map[]) && n.direction !in pair
    ensures Lists(naming, files, done + {path}, m[n.version := pair[n.direction := Entry(path, files[path], n.kind)]])
  {
    var m' := m[n.version := pair[n.direction := Entry(path, files[path], n.kind)]];
    assert m'[n.version].Keys == pair.Keys + {n.direction};
    forall v, d | v in m' && d in m'[v]
      ensures EntryFrom(naming, files, done + {path}, v, d, m'[v][d])
    {
      if v != n.version || d != n.direction {
        assert v in m && d in m[v] && m'[v][d] == m[v][d];
        assert EntryFrom(naming, files, done, v, d, m[v][d]);
      }
    }
    forall p | p in done + {path} && p in files
      ensures Listed(naming, files, m', p)
    {
      if p != path {
        assert Listed(naming, files, m, p);
      }
    }
  }

  /** Two files of one version and direction cannot both be listed. */
  lemma TwoFiles(naming: Naming, files: Files, done: set<string>, m: Versions, path: string, n: Name)
    requires Lists(naming, files, done, m) && path in files && path !in done && naming(path) == Some(n)
    requires n.version in m && n.direction in m[n.version]
    ensures forall m' :: !Lists(naming, files, files.Keys, m')
  {
    var other := m[n.version][n.direction];
    assert EntryFrom(naming, files, done, n.version, n.direction, other);
    forall m'
      ensures !Lists(naming, files, files.Keys, m')
    {
      if Lists(naming, files, files.Keys, m') {
        OneFileEach(naming, files, m', path, other.path, n, other.kind);
      }
    }
  }

  lemma OneFileEach(naming: Naming, files: Files, m: Versions, p: string, q: string, n: Name, kind: Kind)
    requires Lists(naming, files, files.Keys, m) && p in files && q in files
    requires naming(p) == Some(n) && naming(q) == Some(n.(kind := kind))
    ensures p == q
  {
    assert Listed(naming, files, m, p) && Listed(naming, files, m, q);
  }
}
