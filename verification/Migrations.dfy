/** The migration history check: which SQL trees may follow which.

    A tree maps the paths of the `.sql` files under server/migrations/ to their text. A
    `ValueError` of the source is `None` or `false` here. */
module Migrations {
  import opened Wrappers
  import opened Listings
  import opened Text

  const MIGRATIONS: string := "server/migrations/"
  const CURRENT: string := "server/migrations/current/"

  // ----- file names -----

  predicate IsStemChar(c: char) { IsDigit(c) || 'a' <= c <= 'z' || c == '_' }

  function Number(s: string): nat
  {
    if s == "" then 0
    else Number(s[..|s| - 1]) * 10 + if IsDigit(s[|s| - 1]) then (s[|s| - 1] as int - '0' as int) else 0
  }

  predicate EndsWith(s: string, suffix: string)
  {
    |suffix| <= |s| && s[|s| - |suffix|..] == suffix
  }

  function Suffix(d: Direction): string
  {
    match d
    case Up => ".up.sql"
    case Down => ".down.sql"
  }

  function RemoveSuffix(s: string, suffix: string): string
  {
    if EndsWith(s, suffix) then s[..|s| - |suffix|] else s
  }

  /** What follows the kind: a stem of lowercase letters, digits and underscores, then the
      direction. */
  function ParseTail(version: nat, kind: Kind, tail: string): Option<Name>
  {
    var direction := if EndsWith(tail, Suffix(Up)) then Up else Down;
    if !EndsWith(tail, Suffix(direction)) then None
    else
      var stem := tail[..|tail| - |Suffix(direction)|];
      if stem != "" && forall i :: 0 <= i < |stem| ==> IsStemChar(stem[i]) then Some(Name(version, kind, direction))
      else None
  }

  /** Six digits, the kind, a stem and the direction. */
  function ParseName(name: string): Option<Name>
  {
    if |name| < 7 || name[6] != '_' || exists i :: 0 <= i < 6 && !IsDigit(name[i]) then None
    else
      var version, rest := Number(name[..6]), name[7..];
      if "shared_" <= rest then ParseTail(version, Shared, rest[7..])
      else if "internal_" <= rest then ParseTail(version, Internal, rest[9..])
      else None
  }

  predicate IsActive(path: string)
  {
    CURRENT <= path
  }

  /** A file directly in server/migrations/. */
  predicate IsTopLevel(path: string)
  {
    MIGRATIONS <= path && '/' !in path[|MIGRATIONS|..]
  }

  function NameOf(path: string): Option<Name>
  {
    if IsActive(path) then ParseName(path[|CURRENT|..]) else None
  }

  // ----- requirements of an internal migration -----

  /** A line `-- requires-shared: N`, with or without a carriage return at its end. */
  function Requirement(line: string): Option<nat>
  {
    var prefix := "-- requires-shared: ";
    var body := if line != "" && line[|line| - 1] == '\r' then line[..|line| - 1] else line;
    if prefix < body && forall i :: |prefix| <= i < |body| ==> IsDigit(body[i]) then
      Some(Number(body[|prefix|..]))
    else None
  }

  function Requirements(lines: seq<string>): seq<nat>
  {
    if lines == [] then []
    else
      var first := Requirement(lines[0]);
      (if first.Some? then [first.value] else []) + Requirements(lines[1..])
  }

  /** An internal migration names exactly one earlier shared migration that is present. */
  predicate RequirementMet(m: Versions, version: nat, body: string)
  {
    var required := Requirements(Split(body, '\n'));
    && |required| == 1
    && required[0] in m && Up in m[required[0]] && m[required[0]][Up].kind == Shared
    && required[0] < version
  }

  // ----- the active migrations of a tree -----

  predicate NameAllowed(path: string, publicOnly: bool)
  {
    IsActive(path) ==>
      && NameOf(path).Some?
      && NameOf(path).value.version >= 1000
      && (publicOnly ==> NameOf(path).value.kind == Shared)
  }

  predicate Complete(m: Versions, v: nat)
    requires v in m
  {
    && m[v].Keys == {Up, Down}
    && RemoveSuffix(m[v][Up].path, Suffix(Up)) == RemoveSuffix(m[v][Down].path, Suffix(Down))
    && (m[v][Up].kind == Internal ==> RequirementMet(m, v, m[v][Up].body))
  }

  ghost predicate Active(files: Files, publicOnly: bool, m: Versions)
  {
    && (forall p :: p in files ==> NameAllowed(p, publicOnly))
    && Lists(NameOf, files, files.Keys, m)
    && (forall v :: v in m ==> Complete(m, v))
  }

  method ActiveMigrations(files: Files, publicOnly: bool) returns (r: Option<Versions>)
    ensures r.Some? ==> Active(files, publicOnly, r.value)
    ensures r.None? ==> forall m :: !Active(files, publicOnly, m)
  {
    r := ListFiles(files, publicOnly);
    if r.Some? {
      var broken := FindIncomplete(r.value);
      if broken.Some? {
        Incomplete(files, publicOnly, r.value, broken.value);
        return None;
      }
    }
  }

  /** The second loop: a version whose pair is not in order, if there is one. */
  method FindIncomplete(m: Versions) returns (r: Option<nat>)
    ensures r.Some? ==> r.value in m && !Complete(m, r.value)
    ensures r.None? ==> forall v :: v in m ==> Complete(m, v)
  {
    var rest := m.Keys;
    while rest != {}
      invariant rest <= m.Keys
      invariant forall v :: v in m.Keys - rest ==> Complete(m, v)
    {
      var v :| v in rest;
      if !Complete(m, v) {
        return Some(v);
      }
      rest := rest - {v};
    }
    return None;
  }

  lemma Incomplete(files: Files, publicOnly: bool, m: Versions, v: nat)
    requires Lists(NameOf, files, files.Keys, m) && v in m && !Complete(m, v)
    ensures forall m' :: !Active(files, publicOnly, m')
  {
    forall m'
      ensures !Active(files, publicOnly, m')
    {
      if Active(files, publicOnly, m') {
        ListsUnique(NameOf, files, m', m);
      }
    }
  }

  /** The first loop: every file in turn, refusing a bad name or a repeated direction. */
  method ListFiles(files: Files, publicOnly: bool) returns (r: Option<Versions>)
    ensures r.Some? ==> Lists(NameOf, files, files.Keys, r.value) && forall p :: p in files ==> NameAllowed(p, publicOnly)
    ensures r.None? ==> forall m :: !Active(files, publicOnly, m)
  {
    var versions: Versions := map[];
    var todo := files.Keys;
    while todo != {}
      invariant todo <= files.Keys
      invariant forall p :: p in files.Keys - todo ==> NameAllowed(p, publicOnly)
      invariant Lists(NameOf, files, files.Keys - todo, versions)
    {
      var path :| path in todo;
      ghost var done := files.Keys - todo;
      todo := todo - {path};
      assert files.Keys - todo == done + {path};
      if !NameAllowed(path, publicOnly) {
        return None;
      }
      var name := NameOf(path);
      if name.Some? {
        var version, kind, direction := name.value.version, name.value.kind, name.value.direction;
        var pair: Pair := if version in versions then versions[version] else map[];
        if direction in pair {
          TwoFiles(NameOf, files, done, versions, path, name.value);
          return None;
        }
        ListsAdd(NameOf, files, done, versions, path, name.value, pair);
        versions := versions[version := pair[direction := Entry(path, files[path], kind)]];
      } else {
        ListsSkip(NameOf, files, done, versions, path);
      }
    }
    assert files.Keys - todo == files.Keys;
    return Some(versions);
  }
}
