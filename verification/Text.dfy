/** Searching, counting and splitting text. */
module Text {
  import opened Wrappers

  predicate IsDigit(c: char) { '0' <= c <= '9' }

  /** Split on one character. */
  function Split(s: string, sep: char): (parts: seq<string>)
    ensures |parts| >= 1
  {
    if s == "" then [""]
    else
      var rest := Split(s[1..], sep);
      if s[0] == sep then [""] + rest else [[s[0]] + rest[0]] + rest[1..]
  }

  lemma {:induction false} SplitJoined(head: string, tail: string, sep: char)
    requires forall i :: 0 <= i < |head| ==> head[i] != sep
    ensures Split(head + [sep] + tail, sep) == [head] + Split(tail, sep)
  {
    var s := head + [sep] + tail;
    if head == "" {
      assert s[1..] == tail;
    } else {
      assert s[1..] == head[1..] + [sep] + tail;
      SplitJoined(head[1..], tail, sep);
      assert [s[0]] + head[1..] == head;
    }
  }

  lemma {:induction false} SplitSingle(s: string, sep: char)
    requires forall i :: 0 <= i < |s| ==> s[i] != sep
    ensures Split(s, sep) == [s]
  {
    if s != "" {
      SplitSingle(s[1..], sep);
      assert [s[0]] + s[1..] == s;
    }
  }

  predicate Occurs(t: string, pat: string, i: nat)
  {
    i + |pat| <= |t| && t[i..i + |pat|] == pat
  }

  /** The first position from `from` on at which `at` holds. */
  function Search(t: string, from: nat, at: (string, nat) -> bool): (r: Option<nat>)
    requires from <= |t|
    ensures r.Some? ==> from <= r.value < |t| && at(t, r.value)
    ensures r.Some? ==> forall j :: from <= j < r.value ==> !at(t, j)
    ensures r.None? ==> forall j :: from <= j < |t| ==> !at(t, j)
    decreases |t| - from
  {
    if from == |t| then None else if at(t, from) then Some(from) else Search(t, from + 1, at)
  }

  function Find(t: string, pat: string, from: nat): (r: Option<nat>)
    requires from <= |t| && pat != ""
    ensures r.Some? ==> from <= r.value && Occurs(t, pat, r.value)
    ensures r.Some? ==> forall j :: from <= j < r.value ==> !Occurs(t, pat, j)
    ensures r.None? ==> forall j :: from <= j ==> !Occurs(t, pat, j)
    decreases |t| - from
  {
    if from == |t| then None else if Occurs(t, pat, from) then Some(from) else Find(t, pat, from + 1)
  }

  predicate Contains(t: string, pat: string)
    requires pat != ""
  {
    Find(t, pat, 0).Some?
  }

  /** Occurrences that do not overlap, from left to right. */
  function Count(t: string, pat: string, from: nat): nat
    requires from <= |t| && pat != ""
    decreases |t| - from
  {
    var i := Find(t, pat, from);
    if i.None? then 0 else 1 + Count(t, pat, i.value + |pat|)
  }

  /** Counted once: the first occurrence is followed by no other. */
  lemma CountOne(t: string, pat: string, i: nat)
    requires pat != "" && Occurs(t, pat, i)
    requires forall j :: 0 <= j < i ==> !Occurs(t, pat, j)
    ensures Count(t, pat, 0) == 1 <==> forall j :: i + |pat| <= j ==> !Occurs(t, pat, j)
    ensures Find(t, pat, 0) == Some(i)
  {
    assert Find(t, pat, 0) == Some(i);
    assert Count(t, pat, 0) == 1 + Count(t, pat, i + |pat|);
  }

  // ----- lines -----

  /** The characters at which str.splitlines breaks a line. */
  predicate IsBreak(c: char)
  {
    c == '\n' || c == '\r' || c == '\U{b}' || c == '\U{c}' || '\U{1c}' <= c <= '\U{1e}'
    || c == '\U{85}' || c == '\U{2028}' || c == '\U{2029}'
  }

  /** The length of the first line with its break; a carriage return and a line feed after
      it are one break. */
  function FirstLine(t: string): (n: nat)
    ensures n <= |t| && (t != "" ==> n > 0)
  {
    if t == "" then 0
    else if t[0] == '\r' && |t| > 1 && t[1] == '\n' then 2
    else if IsBreak(t[0]) then 1
    else 1 + FirstLine(t[1..])
  }

  /** str.splitlines(keepends=True). */
  function Lines(t: string): seq<string>
  {
    if t == "" then [] else [t[..FirstLine(t)]] + Lines(t[FirstLine(t)..])
  }

  ghost predicate EndsInNewline(t: string)
  {
    t != "" && t[|t| - 1] == '\n'
  }

  lemma {:induction false} FirstLineOfJoined(a: string, b: string)
    requires EndsInNewline(a)
    ensures FirstLine(a + b) == FirstLine(a)
  {
    var t := a + b;
    if !IsBreak(a[0]) {
      assert t[1..] == a[1..] + b;
      FirstLineOfJoined(a[1..], b);
    }
  }

  /** Text that ends in a newline is split by itself. */
  lemma {:induction false} LinesOfJoined(a: string, b: string)
    requires a == "" || EndsInNewline(a)
    ensures Lines(a + b) == Lines(a) + Lines(b)
    decreases |a|
  {
    if a == "" {
      assert a + b == b;
    } else {
      FirstLineOfJoined(a, b);
      var n := FirstLine(a);
      assert (a + b)[n..] == a[n..] + b;
      assert (a + b)[..n] == a[..n];
      LinesOfJoined(a[n..], b);
    }
  }

  lemma {:induction false} SingleLine(t: string)
    requires EndsInNewline(t) && forall i :: 0 <= i < |t| - 1 ==> !IsBreak(t[i])
    ensures FirstLine(t) == |t|
  {
    if |t| > 1 {
      SingleLine(t[1..]);
    }
  }

  lemma TwoLines(a: string, b: string)
    requires EndsInNewline(a) && forall i :: 0 <= i < |a| - 1 ==> !IsBreak(a[i])
    requires EndsInNewline(b) && forall i :: 0 <= i < |b| - 1 ==> !IsBreak(b[i])
    ensures Lines(a + b) == [a, b]
  {
    LinesOfJoined(a, b);
    OneLine(a);
    OneLine(b);
  }

  lemma OneLine(t: string)
    requires EndsInNewline(t) && forall i :: 0 <= i < |t| - 1 ==> !IsBreak(t[i])
    ensures Lines(t) == [t]
  {
    SingleLine(t);
    assert t[..|t|] == t && t[|t|..] == "";
  }
}
