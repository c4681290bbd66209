/** Adding the retention flags to an installed compose file, as an edit of its text. */
module Retention {
  import opened Wrappers
  import opened Text

  const SERVICE: string := "\n  etcd:\n"
  const COMMAND_KEY: string := "    command:\n"
  const COMMAND: string := "    command:\n      - /usr/local/bin/etcd\n"
  const MARK: string := "--auto-compaction"
  const FLAG1: string := "      - " + MARK + "-mode=periodic\n"
  const FLAG2: string := "      - " + MARK + "-retention=1h\n"
  const FLAGS: string := FLAG1 + FLAG2

  datatype Outcome = Refused | AlreadyConfigured | Updated(text: string)

  /** What \s matches in Python text. */
  predicate IsSpace(c: char)
  {
    '\t' <= c <= '\r' || '\U{1c}' <= c <= ' ' || c == '\U{85}' || c == '\U{a0}' || c == '\U{1680}'
    || '\U{2000}' <= c <= '\U{200a}' || c == '\U{2028}' || c == '\U{2029}' || c == '\U{202f}'
    || c == '\U{205f}' || c == '\U{3000}'
  }

  /** \n\S or \n, two spaces, \S: the next top-level key or the next service. */
  predicate ServiceEnds(t: string, i: nat)
  {
    && i < |t| && t[i] == '\n'
    && ((i + 1 < |t| && !IsSpace(t[i + 1]))
        || (i + 3 < |t| && t[i + 1] == ' ' && t[i + 2] == ' ' && !IsSpace(t[i + 3])))
  }

  /** \n, four spaces, \S: the next key of the service. */
  predicate CommandEnds(t: string, i: nat)
  {
    && i + 5 < |t| && t[i] == '\n'
    && t[i + 1] == ' ' && t[i + 2] == ' ' && t[i + 3] == ' ' && t[i + 4] == ' ' && !IsSpace(t[i + 5])
  }

  /** Where the service that starts here ends. */
  function ServiceEnd(text: string, start: nat): (end: nat)
    requires start + 8 <= |text|
    ensures start <= end <= |text|
  {
    var end := Search(text, start + 8, ServiceEnds);
    if end.Some? then end.value + 1 else |text|
  }

  /** Where the one etcd service starts and ends. */
  function FindService(text: string): (r: Option<(nat, nat)>)
    ensures r.Some? ==> r.value.0 <= r.value.1 <= |text|
  {
    if Count(text, SERVICE, 0) != 1 then None
    else
      var start := Find(text, SERVICE, 0).value + 1;
      Some((start, ServiceEnd(text, start)))
  }

  predicate Managed(service: string)
  {
    Contains(service, "--config-file") || Contains(service, "ETCD_CONFIG_FILE") || Contains(service, "ETCD_AUTO_COMPACTION")
  }

  predicate Usable(service: string)
  {
    Count(service, COMMAND_KEY, 0) == 1 && Count(service, COMMAND, 0) == 1 && !Managed(service)
  }

  function Marked(lines: seq<string>): seq<string>
  {
    if lines == [] then []
    else if Contains(lines[0], MARK) then [lines[0]] + Marked(lines[1..])
    else Marked(lines[1..])
  }

  /** From here to the next key of the service or its end. */
  function KeyFrom(service: string, from: nat): string
    requires from <= |service|
  {
    var end := Search(service, from, CommandEnds);
    service[from..if end.Some? then end.value + 1 else |service|]
  }

  /** The part of a usable service that belongs to the command key. */
  function CommandPart(service: string): string
    requires Count(service, COMMAND, 0) == 1
  {
    KeyFrom(service, Find(service, COMMAND, 0).value + |COMMAND_KEY|)
  }

  /** s.replace(pat, pat + m, 1). */
  function InsertAfter(s: string, pat: string, m: string): string
    requires pat != "" && Find(s, pat, 0).Some?
  {
    var k := Find(s, pat, 0).value + |pat|;
    s[..k] + m + s[k..]
  }

  function WithFlags(service: string): string
    requires Count(service, COMMAND, 0) == 1
  {
    InsertAfter(service, COMMAND, FLAGS)
  }

  /** The lines found are the wanted ones in some order, all of them in the command. */
  predicate Agree(existing: seq<string>, wanted: seq<string>, command: string)
  {
    && multiset(existing) == multiset(wanted)
    && forall l :: l in existing ==> l != "" && Contains(command, l)
  }

  datatype Verdict = Unsupported | Configured | Unconfigured

  function Inspect(service: string): Verdict
  {
    if !Usable(service) then Unsupported
    else
      var existing := Marked(Lines(service));
      if existing == [] then Unconfigured
      else if Agree(existing, Lines(FLAGS), CommandPart(service)) then Configured
      else Unsupported
  }

  function Configure(text: string): Outcome
  {
    var bounds := FindService(text);
    if bounds.None? then Refused
    else
      var (start, end) := bounds.value;
      var service := text[start..end];
      match Inspect(service)
      case Unsupported => Refused
      case Configured => AlreadyConfigured
      case Unconfigured => Updated(text[..start] + WithFlags(service) + text[end..])
  }

  // ----- the pieces -----

  lemma FlagLengths()
    ensures |FLAG1| == 40 && |FLAG2| == 39 && |COMMAND_KEY| == 13 && |COMMAND| == 41 && |SERVICE| == 9
  {
  }

  lemma FlagLines()
    ensures Lines(FLAGS) == [FLAG1, FLAG2]
  {
    FlagLengths();
    Flag1Chars();
    Flag2Chars();
    TwoLines(FLAG1, FLAG2);
  }

  lemma FlagsMarked()
    ensures Contains(FLAG1, MARK) && Contains(FLAG2, MARK)
  {
    FlagLengths();
    assert FLAG1[8..25] == MARK && Occurs(FLAG1, MARK, 8);
    assert FLAG2[8..25] == MARK && Occurs(FLAG2, MARK, 8);
  }

  // ----- inserting the flags after a line that ends in "etcd" -----

  /** The lines of the flags as they stand behind the newline at h. */
  ghost predicate FlagShape(u: string, h: nat)
  {
    && h >= 6 && h + 79 < |u|
    && u[h - 1] == 'd' && u[h + 39] == 'c' && u[h + 78] == 'h'
    && (forall i :: h <= i <= h + 79 ==> (u[i] == '\n' <==> i == h || i == h + 40 || i == h + 79))
    && (forall i :: h < i <= h + 6 || h + 40 < i <= h + 46 ==> u[i] == ' ')
    && (forall i :: h <= i <= h + 79 ==> u[i] != 'f' && u[i] != 'E')
    && (forall i :: h - 5 <= i < h ==> u[i] != '\n')
  }

  /** u is t with the flags behind the newline at h. */
  ghost predicate Inserted(t: string, u: string, h: nat)
  {
    && h < |t| && t[h] == '\n' && |u| == |t| + 79
    && FlagShape(u, h)
    && (forall i :: 0 <= i <= h ==> u[i] == t[i])
    && (forall i :: h + 79 <= i < |u| ==> u[i] == t[i - 79])
  }

  lemma InsertFlags(t: string, c: nat)
    requires Occurs(t, COMMAND, c)
    ensures var k := c + |COMMAND|; Inserted(t, t[..k] + FLAGS + t[k..], k - 1)
  {
    CommandTail(t, c);
    FlagChars();
    InsertText(t, c + |COMMAND|, FLAGS);
  }

  /** What matters of the flags. */
  ghost predicate FlagText(m: string)
  {
    && |m| == 79 && m[38] == 'c' && m[77] == 'h'
    && (forall i :: 0 <= i < 79 ==> (m[i] == '\n' <==> i == 39 || i == 78))
    && (forall i :: 0 <= i < 6 || 40 <= i < 46 ==> m[i] == ' ')
    && (forall i :: 0 <= i < 79 ==> m[i] != 'f' && m[i] != 'E')
  }

  lemma InsertText(t: string, k: nat, m: string)
    requires FlagText(m) && 7 <= k <= |t| && t[k - 1] == '\n' && t[k - 2] == 'd'
    requires forall i :: k - 6 <= i < k - 1 ==> t[i] != '\n'
    ensures Inserted(t, t[..k] + m + t[k..], k - 1)
  {
    var u := t[..k] + m + t[k..];
    assert forall i :: k <= i < k + 79 ==> u[i] == m[i - k];
    assert forall i :: 0 <= i < k ==> u[i] == t[i];
  }

  lemma CommandTail(t: string, c: nat)
    requires Occurs(t, COMMAND, c)
    ensures var h := c + |COMMAND| - 1;
            h >= 6 && t[h] == '\n' && t[h - 1] == 'd' && forall i :: h - 5 <= i < h ==> t[i] != '\n' && t[i] != 'E'
  {
    FlagLengths();
    OccursAt(t, COMMAND, c);
    assert COMMAND[40] == '\n' && COMMAND[39] == 'd' && COMMAND[38] == 'c' && COMMAND[37] == 't'
           && COMMAND[36] == 'e' && COMMAND[35] == '/';
  }

  lemma FlagChars()
    ensures FlagText(FLAGS)
  {
    FlagLengths();
    Flag1Chars();
    Flag2Chars();
    assert forall i :: 0 <= i < 40 ==> FLAGS[i] == FLAG1[i];
    assert forall i :: 40 <= i < 79 ==> FLAGS[i] == FLAG2[i - 40];
  }

  lemma Flag1Chars()
    ensures EndsInNewline(FLAG1)
    ensures forall i :: 0 <= i < 39 ==> ' ' <= FLAG1[i] <= 'z' && FLAG1[i] != 'f' && FLAG1[i] != 'E'
    ensures forall i :: 0 <= i < 6 ==> FLAG1[i] == ' '
    ensures FLAG1[38] == 'c'
  {
  }

  lemma Flag2Chars()
    ensures EndsInNewline(FLAG2)
    ensures forall i :: 0 <= i < 38 ==> ' ' <= FLAG2[i] <= 'z' && FLAG2[i] != 'f' && FLAG2[i] != 'E'
    ensures forall i :: 0 <= i < 6 ==> FLAG2[i] == ' '
    ensures FLAG2[37] == 'h'
  {
  }

  lemma OccursAt(t: string, pat: string, i: nat)
    ensures Occurs(t, pat, i) <==> i + |pat| <= |t| && forall k :: 0 <= k < |pat| ==> t[i + k] == pat[k]
  {
    if i + |pat| <= |t| {
      var part := t[i..i + |pat|];
      assert forall k :: 0 <= k < |pat| ==> part[k] == t[i + k];
    }
  }

  /** A line that ends in a colon, with or without the newline before it. */
  ghost predicate KeyLine(pat: string)
  {
    && |pat| >= 2 && pat[|pat| - 1] == '\n' && pat[|pat| - 2] == ':'
    && forall k :: 0 < k < |pat| - 1 ==> pat[k] != '\n'
  }

  lemma InsideKeyLine(t: string, pat: string, i: nat)
    requires KeyLine(pat) && Occurs(t, pat, i)
    ensures var e := i + |pat| - 1; t[e] == '\n' && t[e - 1] == ':' && forall x :: i < x < e ==> t[x] != '\n'
  {
    OccursAt(t, pat, i);
    forall x | i < x < i + |pat| - 1
      ensures t[x] != '\n'
    {
      assert t[i + (x - i)] == pat[x - i];
    }
    assert t[i + (|pat| - 1)] == pat[|pat| - 1] && t[i + (|pat| - 2)] == pat[|pat| - 2];
  }

  /** Inserting the flags neither makes nor breaks a key line, it only moves those after. */
  lemma KeyLinesKept(t: string, u: string, h: nat, pat: string, i: nat)
    requires Inserted(t, u, h) && KeyLine(pat)
    ensures Occurs(u, pat, i) ==> i + |pat| <= h || i >= h + 79
    ensures i + |pat| <= h ==> (Occurs(u, pat, i) <==> Occurs(t, pat, i))
    ensures i >= h ==> (Occurs(u, pat, i + 79) <==> Occurs(t, pat, i))
  {
    OccursAt(u, pat, i);
    OccursAt(t, pat, i);
    OccursAt(u, pat, i + 79);
    assert u[h + 79] == '\n';
    if Occurs(u, pat, i) {
      InsideKeyLine(u, pat, i);
    }
  }

  lemma KeyLineCount(t: string, u: string, h: nat, pat: string, i: nat)
    requires Inserted(t, u, h) && KeyLine(pat)
    requires Count(t, pat, 0) == 1 && Find(t, pat, 0) == Some(i) && i + |pat| <= h
    ensures Count(u, pat, 0) == 1 && Find(u, pat, 0) == Some(i)
  {
    CountOne(t, pat, i);
    KeyLinesKept(t, u, h, pat, i);
    forall j | 0 <= j < i
      ensures !Occurs(u, pat, j)
    {
      KeyLinesKept(t, u, h, pat, j);
    }
    forall j | i + |pat| <= j
      ensures !Occurs(u, pat, j)
    {
      KeyLinesKept(t, u, h, pat, j);
      if j >= h + 79 {
        KeyLinesKept(t, u, h, pat, j - 79);
      }
    }
    CountOne(u, pat, i);
  }

  /** At most one key line is read where the search counts one. */
  lemma OnlyKeyLine(t: string, pat: string, j: nat)
    requires KeyLine(pat) && pat[0] != '\n' && Count(t, pat, 0) == 1 && Occurs(t, pat, j)
    ensures Find(t, pat, 0) == Some(j)
  {
    var i := Find(t, pat, 0).value;
    CountOne(t, pat, i);
    InsideKeyLine(t, pat, i);
    InsideKeyLine(t, pat, j);
    OccursAt(t, pat, j);
    assert t[j + 0] == pat[0];
  }

  lemma CommandIsKeyLine(t: string, i: nat)
    requires Occurs(t, COMMAND, i)
    ensures Occurs(t, COMMAND_KEY, i)
  {
    FlagLengths();
    assert COMMAND[..13] == COMMAND_KEY;
    assert t[i..i + 13] == t[i..i + 41][..13];
  }

  lemma KeyLines()
    ensures KeyLine(SERVICE) && KeyLine(COMMAND_KEY) && COMMAND_KEY[0] != '\n'
  {
  }

  /** The command stays where it was, and alone. */
  lemma CommandKept(t: string, u: string, c: nat)
    requires Usable(t) && Find(t, COMMAND, 0) == Some(c) && Inserted(t, u, c + |COMMAND| - 1)
    ensures Count(u, COMMAND_KEY, 0) == 1 && Count(u, COMMAND, 0) == 1 && Find(u, COMMAND, 0) == Some(c)
  {
    FlagLengths();
    KeyLines();
    var h := c + |COMMAND| - 1;
    CommandIsKeyLine(t, c);
    OnlyKeyLine(t, COMMAND_KEY, c);
    KeyLineCount(t, u, h, COMMAND_KEY, c);
    assert Occurs(u, COMMAND, c) by {
      assert u[c..c + 41] == t[c..c + 41];
    }
    forall j | j != c
      ensures !Occurs(u, COMMAND, j)
    {
      if Occurs(u, COMMAND, j) {
        CommandIsKeyLine(u, j);
        OnlyKeyLine(u, COMMAND_KEY, j);
      }
    }
    CountOne(u, COMMAND, c);
  }

  /** Text on one line with a letter that the flags do not have. */
  ghost predicate Foreign(pat: string)
  {
    && pat != "" && (forall k :: 0 <= k < |pat| ==> pat[k] != '\n')
    && ('f' in pat || 'E' in pat)
  }

  lemma ForeignKept(t: string, u: string, h: nat, pat: string)
    requires Inserted(t, u, h) && Foreign(pat) && Contains(u, pat)
    ensures Contains(t, pat)
  {
    assert u[h] == '\n' && u[h + 40] == '\n' && u[h + 79] == '\n';
    var i := Find(u, pat, 0).value;
    OccursAt(u, pat, i);
    forall x | i <= x < i + |pat|
      ensures u[x] != '\n'
    {
      assert u[i + (x - i)] == pat[x - i];
    }
    var k :| 0 <= k < |pat| && (pat[k] == 'f' || pat[k] == 'E');
    assert u[i + k] == pat[k];
    if i + |pat| <= h {
      OccursAt(t, pat, i);
    } else {
      OccursAt(t, pat, i - 79);
    }
  }

  lemma ManagedKept(t: string, u: string, h: nat)
    requires Inserted(t, u, h) && !Managed(t)
    ensures !Managed(u)
  {
    ForeignWords();
    if Contains(u, "--config-file") { ForeignKept(t, u, h, "--config-file"); }
    if Contains(u, "ETCD_CONFIG_FILE") { ForeignKept(t, u, h, "ETCD_CONFIG_FILE"); }
    if Contains(u, "ETCD_AUTO_COMPACTION") { ForeignKept(t, u, h, "ETCD_AUTO_COMPACTION"); }
  }

  lemma ForeignWords()
    ensures Foreign("--config-file") && Foreign("ETCD_CONFIG_FILE") && Foreign("ETCD_AUTO_COMPACTION")
  {
    assert "--config-file"[5] == 'f' && "ETCD_CONFIG_FILE"[0] == 'E' && "ETCD_AUTO_COMPACTION"[0] == 'E';
  }

  // ----- where the service and its command end -----

  lemma ServiceEndsKept(t: string, u: string, h: nat, i: nat)
    requires Inserted(t, u, h)
    ensures i < h ==> ServiceEnds(u, i) == ServiceEnds(t, i)
    ensures h <= i < h + 79 ==> !ServiceEnds(u, i)
    ensures i >= h ==> ServiceEnds(u, i + 79) == ServiceEnds(t, i)
  {
  }

  lemma ServiceEndMoves(t: string, u: string, h: nat, body: nat)
    requires Inserted(t, u, h) && body <= h
    requires forall j :: body <= j < h ==> !ServiceEnds(t, j)
    ensures var r := Search(t, body, ServiceEnds);
            Search(u, body, ServiceEnds) == if r.Some? then Some(r.value + 79) else None
  {
    var r, q := Search(t, body, ServiceEnds), Search(u, body, ServiceEnds);
    if r.Some? {
      ServiceEndsKept(t, u, h, r.value);
    }
    if q.Some? {
      ServiceEndsKept(t, u, h, q.value);
      if q.value >= 79 {
        ServiceEndsKept(t, u, h, q.value - 79);
      }
    }
  }

  /** The flags do not end the command. */
  lemma NoCommandEnd(u: string, h: nat, from: nat)
    requires FlagShape(u, h) && forall i :: from <= i < h ==> u[i] != '\n'
    ensures forall i :: from <= i < h + 79 ==> !CommandEnds(u, i)
  {
  }

  lemma KeyReaches(u: string, from: nat, least: nat) returns (to: nat)
    requires from <= least <= |u| && forall i :: from <= i < least - 1 ==> !CommandEnds(u, i)
    ensures least <= to <= |u| && KeyFrom(u, from) == u[from..to]
  {
    var end := Search(u, from, CommandEnds);
    to := if end.Some? then end.value + 1 else |u|;
  }

  lemma FlagsInCommand(t: string, u: string, c: nat)
    requires Count(u, COMMAND, 0) == 1 && Find(u, COMMAND, 0) == Some(c)
    requires Inserted(t, u, c + |COMMAND| - 1)
    requires var k := c + |COMMAND|; u[k..k + 79] == FLAGS
    ensures Contains(CommandPart(u), FLAG1) && Contains(CommandPart(u), FLAG2)
  {
    FlagLengths();
    CommandBody(u, c);
    NoCommandEnd(u, c + 40, c + 13);
    var to := KeyReaches(u, c + 13, c + 41 + 79);
    FlagsOccur(u, c + 41);
    OccursInPart(u, c + 13, to, FLAG1, c + 41);
    OccursInPart(u, c + 13, to, FLAG2, c + 81);
  }

  lemma FlagsOccur(u: string, k: nat)
    requires k + 79 <= |u| && u[k..k + 79] == FLAGS
    ensures Occurs(u, FLAG1, k) && Occurs(u, FLAG2, k + 40)
  {
    FlagLengths();
    assert u[k..k + 40] == u[k..k + 79][..40] == FLAG1;
    assert u[k + 40..k + 79] == u[k..k + 79][40..] == FLAG2;
  }

  lemma OccursInPart(u: string, from: nat, to: nat, pat: string, i: nat)
    requires from <= i && i + |pat| <= to <= |u| && pat != "" && Occurs(u, pat, i)
    ensures Contains(u[from..to], pat)
  {
    var part := u[from..to];
    OccursAt(u, pat, i);
    OccursAt(part, pat, i - from);
    forall k | 0 <= k < |pat|
      ensures part[i - from + k] == pat[k]
    {
      assert u[i + k] == pat[k];
    }
    assert Occurs(part, pat, i - from);
  }

  lemma CommandBody(u: string, c: nat)
    requires Occurs(u, COMMAND, c)
    ensures forall i :: c + 13 <= i < c + 40 ==> u[i] != '\n'
  {
    FlagLengths();
    OccursAt(u, COMMAND, c);
    CommandChars();
    forall i | c + 13 <= i < c + 40
      ensures u[i] != '\n'
    {
      assert u[c + (i - c)] == COMMAND[i - c];
    }
  }

  lemma CommandChars()
    ensures |COMMAND| == 41 && forall i :: 13 <= i < 40 ==> COMMAND[i] != '\n'
  {
  }

  // ----- the marked lines -----

  lemma {:induction false} MarkedOfJoined(a: seq<string>, b: seq<string>)
    ensures Marked(a + b) == Marked(a) + Marked(b)
  {
    if a == [] {
      assert a + b == b;
    } else {
      assert (a + b)[1..] == a[1..] + b;
      MarkedOfJoined(a[1..], b);
    }
  }

  lemma MarkedAfter(a: string, b: string)
    requires EndsInNewline(a) && Marked(Lines(a + b)) == []
    ensures Marked(Lines(a + FLAGS + b)) == [FLAG1, FLAG2]
  {
    Flag2Chars();
    FlagLines();
    FlagsMarked();
    MarkedOfJoined([FLAG1], [FLAG2]);
    MarkedBetween(a, FLAGS, b);
    assert [FLAG1, FLAG2] == [FLAG1] + [FLAG2];
  }

  lemma MarkedBetween(a: string, m: string, b: string)
    requires EndsInNewline(a) && EndsInNewline(m) && Marked(Lines(a + b)) == []
    ensures Marked(Lines(a + m + b)) == Marked(Lines(m))
  {
    LinesOfJoined(a, b);
    LinesOfJoined(a + m, b);
    LinesOfJoined(a, m);
    MarkedOfJoined(Lines(a), Lines(b));
    MarkedOfJoined(Lines(a) + Lines(m), Lines(b));
    MarkedOfJoined(Lines(a), Lines(m));
  }

  // ----- the edit as a whole -----

  /** Inserting into a part is inserting into the whole. */
  lemma Splice(t: string, start: nat, end: nat, j: nat, m: string)
    requires start <= start + j <= end <= |t|
    ensures t[..start] + (t[start..end][..j] + m + t[start..end][j..]) + t[end..] == t[..start + j] + m + t[start + j..]
  {
    assert t[start..end][..j] == t[start..start + j];
    assert t[start..end][j..] == t[start + j..end];
    assert t[start + j..] == t[start + j..end] + t[end..];
  }

  lemma Unsplice(t: string, k: nat, m: string, u: string)
    requires k <= |t| && u == t[..k] + m + t[k..]
    ensures u[..k] + u[k + |m|..] == t
  {
  }

  lemma SplicedPart(a: string, part: string, b: string)
    ensures (a + part + b)[|a|..|a| + |part|] == part
  {
  }

  lemma OccursInWhole(t: string, start: nat, end: nat, pat: string, c: nat)
    requires start <= end <= |t| && Occurs(t[start..end], pat, c)
    ensures Occurs(t, pat, start + c)
  {
    var part := t[start..end];
    OccursAt(part, pat, c);
    OccursAt(t, pat, start + c);
    forall k | 0 <= k < |pat|
      ensures t[start + c + k] == pat[k]
    {
      assert part[c + k] == pat[k];
    }
  }

  /** Inserting into the part between start and end. */
  lemma InsertInPart(t: string, start: nat, end: nat, pat: string, m: string, u: string) returns (k: nat)
    requires start <= end <= |t| && pat != "" && Find(t[start..end], pat, 0).Some?
    requires u == t[..start] + InsertAfter(t[start..end], pat, m) + t[end..]
    ensures start + |pat| <= k <= end && Occurs(t, pat, k - |pat|)
    ensures u == t[..k] + m + t[k..] && u[..k] + u[k + |m|..] == t
  {
    var c := Find(t[start..end], pat, 0).value;
    k := start + c + |pat|;
    OccursInWhole(t, start, end, pat, c);
    Splice(t, start, end, c + |pat|, m);
    Unsplice(t, k, m, u);
  }

  /** Configuring a file changes nothing but the two lines it adds right after the command
      of the etcd service, so taking them out gives the file back. */
  lemma {:induction false} ConfigureIsLocal(text: string, u: string) returns (k: nat)
    requires Configure(text) == Updated(u)
    ensures k <= |text| && u == text[..k] + FLAGS + text[k..] && u[..k] + u[k + |FLAGS|..] == text
    ensures FindService(text).value.0 + |COMMAND| <= k <= FindService(text).value.1
    ensures Occurs(text, COMMAND, k - |COMMAND|)
  {
    var (start, end) := FindService(text).value;
    k := InsertInPart(text, start, end, COMMAND, FLAGS, u);
  }

  lemma InsertedInWhole(t: string, start: nat, end: nat, v: string, j: nat)
    requires start <= end <= |t| && Inserted(t[start..end], v, j)
    ensures Inserted(t, t[..start] + v + t[end..], start + j)
  {
    var part, u := t[start..end], t[..start] + v + t[end..];
    assert forall i :: 0 <= i < |part| ==> part[i] == t[start + i];
    assert forall i :: 0 <= i < start ==> u[i] == t[i];
    assert forall i :: start <= i < start + |v| ==> u[i] == v[i - start];
  }

  lemma BoundsMove(t: string, u: string, h: nat)
    requires FindService(t).Some? && Inserted(t, u, h)
    requires var (start, end) := FindService(t).value; start + 8 <= h < end
    ensures var (start, end) := FindService(t).value; FindService(u) == Some((start, end + 79))
  {
    FlagLengths();
    KeyLines();
    var (start, end) := FindService(t).value;
    KeyLineCount(t, u, h, SERVICE, start - 1);
    EndMoves(t, u, h, start);
  }

  lemma EndMoves(t: string, u: string, h: nat, start: nat)
    requires Inserted(t, u, h) && start + 8 <= h < ServiceEnd(t, start)
    ensures ServiceEnd(u, start) == ServiceEnd(t, start) + 79
  {
    ServiceEndMoves(t, u, h, start + 8);
  }

  /** The service is found again, with the flags in it. */
  lemma {:induction false} ServiceFoundAgain(t: string, start: nat, end: nat, v: string, j: nat)
    requires FindService(t) == Some((start, end)) && Inserted(t[start..end], v, j) && j >= 8
    ensures FindService(t[..start] + v + t[end..]) == Some((start, end + 79))
  {
    InsertedInWhole(t, start, end, v, j);
    BoundsMove(t, t[..start] + v + t[end..], start + j);
  }

  lemma UpdatedService(t: string, start: nat, end: nat, u: string)
    requires FindService(t) == Some((start, end)) && Usable(t[start..end])
    requires u == t[..start] + WithFlags(t[start..end]) + t[end..]
    ensures FindService(u) == Some((start, end + 79)) && end + 79 <= |u|
    ensures u[start..end + 79] == WithFlags(t[start..end])
  {
    var service := t[start..end];
    FlagLengths();
    WithFlagsIsUsable(service);
    ServiceFoundAgain(t, start, end, WithFlags(service), Find(service, COMMAND, 0).value + 40);
    SplicedPart(t[..start], WithFlags(service), t[end..]);
  }

  /** A file that was just configured is recognised as configured. */
  lemma {:induction false} ConfigureIdempotent(text: string, u: string)
    requires Configure(text) == Updated(u)
    ensures Configure(u) == AlreadyConfigured
  {
    var (start, end) := FindService(text).value;
    UpdatedService(text, start, end, u);
    ServiceIsConfigured(text[start..end]);
  }

  lemma ServiceIsConfigured(service: string)
    requires Inspect(service) == Unconfigured
    ensures Inspect(WithFlags(service)) == Configured
  {
    WithFlagsIsUsable(service);
    LinesAreMarked(service);
    CommandHoldsFlags(service);
    FlagLines();
    FlagLengths();
    TwoAgree(FLAG1, FLAG2, CommandPart(WithFlags(service)));
  }

  lemma TwoAgree(first: string, second: string, command: string)
    requires first != "" && second != "" && Contains(command, first) && Contains(command, second)
    ensures Agree([first, second], [first, second], command)
  {
  }

  lemma {:induction false} WithFlagsIsUsable(service: string)
    requires Usable(service)
    ensures Usable(WithFlags(service))
    ensures Find(WithFlags(service), COMMAND, 0) == Find(service, COMMAND, 0)
    ensures Inserted(service, WithFlags(service), Find(service, COMMAND, 0).value + |COMMAND| - 1)
  {
    var c := Find(service, COMMAND, 0).value;
    InsertFlags(service, c);
    CommandKept(service, WithFlags(service), c);
    ManagedKept(service, WithFlags(service), c + |COMMAND| - 1);
  }

  lemma LinesAreMarked(service: string)
    requires Count(service, COMMAND, 0) == 1 && Marked(Lines(service)) == []
    ensures Marked(Lines(WithFlags(service))) == [FLAG1, FLAG2]
  {
    var c := Find(service, COMMAND, 0).value;
    var k := c + |COMMAND|;
    CommandTail(service, c);
    assert service[..k] + service[k..] == service;
    MarkedAfter(service[..k], service[k..]);
  }

  lemma CommandHoldsFlags(service: string)
    requires Usable(service)
    ensures Count(WithFlags(service), COMMAND, 0) == 1
    ensures Contains(CommandPart(WithFlags(service)), FLAG1)
    ensures Contains(CommandPart(WithFlags(service)), FLAG2)
  {
    FlagLengths();
    WithFlagsIsUsable(service);
    var c := Find(service, COMMAND, 0).value;
    var k := c + |COMMAND|;
    SplicedPart(service[..k], FLAGS, service[k..]);
    FlagsInCommand(service, WithFlags(service), c);
  }
}
