/** The Content-Range header of an upload request (section 14.4 of RFC 9110), as the client
    prints it and the server reads it. */
module ContentRange {
  import opened Wrappers
  import opened Decimals

  const UNIT: string := "bytes "

  function Print(start: int, end: int, total: int): string
  {
    UNIT + (Itoa(start) + "-" + (Itoa(end) + "/" + Itoa(total)))
  }

  /** What stands before and behind the first separator. */
  function Cut(s: string, sep: char): Option<(string, string)>
  {
    if s == "" then None
    else if s[0] == sep then Some(("", s[1..]))
    else
      var rest := Cut(s[1..], sep);
      if rest.None? then None else Some(([s[0]] + rest.value.0, rest.value.1))
  }

  function Parse(header: string): (r: Option<(int, int, int)>)
    ensures r.Some? ==> 0 <= r.value.0 <= r.value.1 < r.value.2
  {
    if !(UNIT <= header) then None
    else
      var slash := Cut(header[|UNIT|..], '/');
      if slash.None? then None
      else
        var dash := Cut(slash.value.0, '-');
        if dash.None? then None
        else Bounds(Atoi(dash.value.0), Atoi(dash.value.1), Atoi(slash.value.1))
  }

  /** A non-empty range inside the total. */
  function Bounds(start: Option<int>, end: Option<int>, total: Option<int>): Option<(int, int, int)>
  {
    if start.Some? && end.Some? && total.Some? && 0 <= start.value <= end.value < total.value
    then Some((start.value, end.value, total.value)) else None
  }

  lemma {:induction false} CutJoined(head: string, tail: string, sep: char)
    requires forall i :: 0 <= i < |head| ==> head[i] != sep
    ensures Cut(head + [sep] + tail, sep) == Some((head, tail))
  {
    var s := head + [sep] + tail;
    if head == "" {
      assert s[1..] == tail;
    } else {
      assert s[1..] == head[1..] + [sep] + tail;
      CutJoined(head[1..], tail, sep);
      assert [head[0]] + head[1..] == head;
    }
  }

  /** The server reads the numbers the client printed, and refuses an empty or inverted range
      and one that leaves the file. */
  lemma {:induction false} ParsePrinted(start: nat, end: int, total: int)
    requires IsInt64(start) && IsInt64(end) && IsInt64(total)
    ensures Parse(Print(start, end, total)) == if start <= end < total then Some((start as int, end, total)) else None
  {
    AtoiItoa(start);
    AtoiItoa(end);
    AtoiItoa(total);
    CutPrinted(Itoa(start), Itoa(end), Itoa(total));
  }

  lemma CutPrinted(start: string, end: string, total: string)
    requires forall i :: 0 <= i < |start| ==> start[i] != '-' && start[i] != '/'
    requires forall i :: 0 <= i < |end| ==> end[i] != '/'
    ensures Parse(UNIT + (start + "-" + (end + "/" + total))) == Bounds(Atoi(start), Atoi(end), Atoi(total))
  {
    var header := UNIT + (start + "-" + (end + "/" + total));
    var range := start + "-" + end;
    assert header[|UNIT|..] == range + "/" + total;
    CutJoined(range, total, '/');
    CutJoined(start, end, '-');
  }
}
