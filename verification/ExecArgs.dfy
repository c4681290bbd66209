/** The arguments with which the updater replaces itself by its new executable. */
module ExecArgs {

  const FLAG: string := "self-update-handoff"

  function Handoff(path: string): string { "--" + FLAG + "=" + path }

  /** The flag by itself; its value is the next argument. */
  predicate IsBare(arg: string) { arg == "--" + FLAG || arg == "-" + FLAG }

  predicate IsInline(arg: string) { "--" + FLAG + "=" <= arg || "-" + FLAG + "=" <= arg }

  predicate IsHandoff(arg: string) { IsBare(arg) || IsInline(arg) }

  /** Argument i is the value of a bare handoff flag. */
  ghost predicate IsValue(args: seq<string>, i: nat)
    requires i <= |args|
  {
    i > 1 && IsBare(args[i - 1]) && !IsValue(args, i - 1)
  }

  /** Of the arguments before n, those that have nothing to do with the handoff. */
  ghost function Kept(args: seq<string>, n: nat): seq<string>
    requires n <= |args|
  {
    if n <= 1 then []
    else if IsHandoff(args[n - 1]) || IsValue(args, n - 1) then Kept(args, n - 1)
    else Kept(args, n - 1) + [args[n - 1]]
  }

  ghost function Exec(args: seq<string>, path: string): seq<string>
  {
    if args == [] then ["proto-fleet-updater", Handoff(path)] else [args[0], Handoff(path)] + Kept(args, |args|)
  }

  method SelfUpdateExecArgs(args: seq<string>, path: string) returns (cleaned: seq<string>)
    ensures cleaned == Exec(args, path)
  {
    if |args| == 0 {
      return ["proto-fleet-updater", Handoff(path)];
    }
    cleaned := [args[0], Handoff(path)];
    var index := 1;
    while index < |args|
      invariant 1 <= index <= |args| + 1
      invariant index <= |args| ==> !IsValue(args, index)
      invariant cleaned == [args[0], Handoff(path)] + Kept(args, if index <= |args| then index else |args|)
    {
      var arg := args[index];
      if IsBare(arg) {
        index := index + 1;
      } else if !IsInline(arg) {
        cleaned := cleaned + [arg];
      }
      index := index + 1;
    }
  }

  // ----- the result -----

  lemma HandoffIsInline(path: string)
    ensures IsInline(Handoff(path)) && !IsBare(Handoff(path))
  {
    assert "--" + FLAG + "=" <= Handoff(path);
  }

  lemma {:induction false} KeptIsClean(args: seq<string>, n: nat)
    requires n <= |args|
    ensures forall i :: 0 <= i < |Kept(args, n)| ==> !IsHandoff(Kept(args, n)[i])
    ensures |Kept(args, n)| <= if n == 0 then 0 else n - 1
  {
    if n > 1 {
      KeptIsClean(args, n - 1);
    }
  }

  /** Clean arguments are all kept. */
  lemma {:induction false} CleanIsKept(args: seq<string>, n: nat)
    requires 2 <= n <= |args| && IsInline(args[1]) && !IsBare(args[1])
    requires forall i :: 2 <= i < |args| ==> !IsHandoff(args[i])
    ensures Kept(args, n) == args[2..n]
  {
    if n > 2 {
      CleanIsKept(args, n - 1);
      assert args[2..n] == args[2..n - 1] + [args[n - 1]];
    } else {
      assert Kept(args, 1) == [];
    }
  }

  /** The result has one handoff flag, behind the program name, and is at most one longer. */
  lemma ExecShape(args: seq<string>, path: string)
    ensures var r := Exec(args, path);
            |r| >= 2 && r[1] == Handoff(path) && forall i :: 2 <= i < |r| ==> !IsHandoff(r[i])
    ensures args != [] ==> Exec(args, path)[0] == args[0] && |Exec(args, path)| <= |args| + 1
  {
    KeptIsClean(args, |args|);
  }

  lemma ExecOfShape(r: seq<string>, first: string, second: string)
    requires |r| >= 2 && r[1] == Handoff(first) && forall i :: 2 <= i < |r| ==> !IsHandoff(r[i])
    ensures Exec(r, second) == [r[0], Handoff(second)] + r[2..]
  {
    HandoffIsInline(first);
    CleanIsKept(r, |r|);
  }

  /** Whoever runs it next replaces just that flag. */
  lemma ExecAgain(args: seq<string>, first: string, second: string)
    ensures Exec(Exec(args, first), second) == Exec(args, second)
  {
    var r := Exec(args, first);
    ExecShape(args, first);
    ExecOfShape(r, first, second);
    assert args != [] ==> r[2..] == Kept(args, |args|);
  }

  /** The arguments after one self-update for every path. */
  ghost function Repeat(args: seq<string>, paths: seq<string>): seq<string>
  {
    if paths == [] then args else Exec(Repeat(args, paths[..|paths| - 1]), paths[|paths| - 1])
  }

  /** Any number of self-updates leave what the last one alone would leave. */
  lemma {:induction false} RepeatIsLast(args: seq<string>, paths: seq<string>)
    requires paths != []
    ensures Repeat(args, paths) == Exec(args, paths[|paths| - 1])
    decreases |paths|
  {
    var before, last := paths[..|paths| - 1], paths[|paths| - 1];
    if before == [] {
      assert Repeat(args, before) == args;
    } else {
      RepeatIsLast(args, before);
      ExecAgain(args, before[|before| - 1], last);
    }
  }
}
