/** Driving the krpano command-line tools: `KRPanoBase.run` and `KRViewer.run`. */
module KrpanoTool {
  import opened Text
  import opened Paths
  import opened Outcomes
  import opened Files

  /** What a finished child process reports: exit status and captured standard output. */
  datatype ToolResult = ToolResult(exitCode: int, stdout: string)

  /** The non-empty lines, in their original order. */
  function NonEmpty(lines: seq<string>): (r: seq<string>)
    ensures |r| <= |lines|
    ensures forall i :: 0 <= i < |r| ==> r[i] != ""
    ensures forall x :: x in r <==> x in lines && x != ""
  {
    if lines == [] then []
    else (if lines[0] == "" then [] else [lines[0]]) + NonEmpty(lines[1..])
  }

  lemma {:induction false} NonEmptyConcat(a: seq<string>, b: seq<string>)
    ensures NonEmpty(a + b) == NonEmpty(a) + NonEmpty(b)
  {
    if a != [] {
      NonEmptyConcat(a[1..], b);
      assert (a + b)[1..] == a[1..] + b;
    } else {
      assert a + b == b;
    }
  }

  lemma {:induction false} NonEmptyKeeps(lines: seq<string>)
    requires forall i :: 0 <= i < |lines| ==> lines[i] != ""
    ensures NonEmpty(lines) == lines
  {
    if lines != [] {
      NonEmptyKeeps(lines[1..]);
    }
  }

  /** The message of the error raised for a failed tool run: the non-empty output
      lines joined by single spaces. */
  function FailureMessage(stdout: string): string
  {
    Join(" ", NonEmpty(Split(stdout, '\n')))
  }

  /** How `KRPanoBase.run` ends for a given reply. */
  function Classify(reply: ToolResult): (r: Outcome)
    ensures r.Pass? <==> reply.exitCode == 0
  {
    if reply.exitCode != 0 then Fail(ToolFailed(FailureMessage(reply.stdout))) else Pass
  }

  /** The message is a single line. */
  lemma {:induction false} FailureMessageIsOneLine(stdout: string)
    ensures '\n' !in FailureMessage(stdout)
  {
    var lines := NonEmpty(Split(stdout, '\n'));
    assert forall i :: 0 <= i < |lines| ==> '\n' !in lines[i] by {
      forall i | 0 <= i < |lines| ensures '\n' !in lines[i] {
        assert lines[i] in Split(stdout, '\n');
      }
    }
    JoinAvoids(" ", lines, '\n');
  }

  /** The message is empty exactly when the output holds nothing but line breaks. */
  lemma {:induction false} FailureMessageEmpty(stdout: string)
    ensures FailureMessage(stdout) == "" <==> forall i :: 0 <= i < |stdout| ==> stdout[i] == '\n'
  {
    var lines := Split(stdout, '\n');
    JoinEmpty(" ", NonEmpty(lines));
    JoinSplit(stdout, '\n');
    if NonEmpty(lines) == [] {
      assert forall i :: 0 <= i < |lines| ==> lines[i] in lines;
      OnlySeparators(lines, '\n');
    } else {
      var x := NonEmpty(lines)[0];
      assert x in lines && x != "";
      var i :| 0 <= i < |lines| && lines[i] == x;
      SomeCharacter(lines, i, '\n');
    }
  }

  /** Joining empty parts with a one-character separator gives only separators. */
  lemma {:induction false} OnlySeparators(parts: seq<string>, sep: char)
    requires forall i :: 0 <= i < |parts| ==> parts[i] == ""
    ensures forall k :: 0 <= k < |Join([sep], parts)| ==> Join([sep], parts)[k] == sep
  {
    if |parts| > 1 {
      OnlySeparators(parts[1..], sep);
      assert Join([sep], parts) == [sep] + Join([sep], parts[1..]);
    }
  }

  /** A part without the separator that is not empty puts a non-separator into the join. */
  lemma {:induction false} SomeCharacter(parts: seq<string>, i: nat, sep: char)
    requires i < |parts| && parts[i] != "" && sep !in parts[i]
    ensures exists k :: 0 <= k < |Join([sep], parts)| && Join([sep], parts)[k] != sep
  {
    var j := Join([sep], parts);
    if i == 0 {
      assert parts[0][0] != sep;
      assert j[0] == parts[0][0];
    } else {
      SomeCharacter(parts[1..], i - 1, sep);
      var rest := Join([sep], parts[1..]);
      var k :| 0 <= k < |rest| && rest[k] != sep;
      assert j == parts[0] + [sep] + rest;
      assert j[|parts[0]| + 1 + k] == rest[k];
    }
  }

  /** Output made of whole non-empty lines fails with exactly those lines joined by spaces. */
  lemma {:induction false} FailureMessageOfLines(lines: seq<string>)
    requires forall i :: 0 <= i < |lines| ==> lines[i] != "" && '\n' !in lines[i]
    ensures FailureMessage(Join("\n", lines)) == Join(" ", lines)
  {
    if lines == [] {
      assert Split("", '\n') == [""];
      assert NonEmpty([""]) == [];
    } else {
      SplitJoin(lines, '\n');
      NonEmptyKeeps(lines);
    }
  }

  /** A final line break does not change the message. */
  lemma {:induction false} TrailingBreakIgnored(s: string)
    ensures FailureMessage(s + "\n") == FailureMessage(s)
  {
    var parts := Split(s, '\n');
    assert s + "\n" == s + ['\n'] + "";
    SplitAround(s, '\n', "");
    assert Split("", '\n') == [""];
    assert Split(s + "\n", '\n') == parts + [""];
    NonEmptyConcat(parts, [""]);
    assert NonEmpty([""]) == [];
    assert NonEmpty(parts + [""]) == NonEmpty(parts);
  }

  /** The same holds when the output ends with a line break, as tool output does. */
  lemma {:induction false} FailureMessageOfTerminatedLines(lines: seq<string>)
    requires forall i :: 0 <= i < |lines| ==> lines[i] != "" && '\n' !in lines[i]
    ensures FailureMessage(Join("\n", lines) + "\n") == Join(" ", lines)
  {
    TrailingBreakIgnored(Join("\n", lines));
    FailureMessageOfLines(lines);
  }

  /** A tool that fails with the single output line "error: bad image" raises exactly that text. */
  lemma {:induction false} BadImageExample()
    ensures Classify(ToolResult(1, "error: bad image\n")) == Fail(ToolFailed("error: bad image"))
  {
    var s := "error: bad image";
    assert Join("\n", [s]) == s;
    assert s + "\n" == "error: bad image\n";
    FailureMessageOfTerminatedLines([s]);
  }

  /** The loop of `KRPanoBase.run` that keeps the non-empty output lines. */
  method NonEmptyLines(stdout: string) returns (msg: seq<string>)
    ensures msg == NonEmpty(Split(stdout, '\n'))
  {
    var lines := Split(stdout, '\n');
    msg := [];
    for i := 0 to |lines|
      invariant msg == NonEmpty(lines[..i])
    {
      assert lines[..i + 1] == lines[..i] + [lines[i]];
      NonEmptyConcat(lines[..i], [lines[i]]);
      if |lines[i]| > 0 {
        msg := msg + [lines[i]];
      }
    }
    assert lines[..|lines|] == lines;
  }

  /** A krpano tools installation: `KRPanoBase(krpanotools)`. */
  datatype KRPanoBase = KRPanoBase(krpanotools: Path)

  /** The argument vector `KRPanoBase.run` starts: the tools binary, the subcommand, the arguments. */
  function ToolArgv(base: KRPanoBase, cmd: string, args: seq<string>): (argv: seq<string>)
    ensures |argv| == 2 + |args| && argv[0] == Str(base.krpanotools) && argv[1] == cmd && argv[2..] == args
  {
    [Str(base.krpanotools), cmd] + args
  }

  /** `KRPanoBase.run(cmd, args)`: one child process; a non-zero exit raises the
      joined non-empty output lines, a zero exit returns normally. */
  method RunTool(base: KRPanoBase, host: Host, cmd: string, args: seq<string>, reply: ToolResult)
    returns (r: Outcome)
    modifies host
    ensures host.started == old(host.started) + [ToolArgv(base, cmd, args)]
    ensures host.tree == old(host.tree)
    ensures r == Classify(reply)
  {
    host.Spawn([Str(base.krpanotools), cmd] + args);
    if reply.exitCode != 0 {
      var msg := NonEmptyLines(reply.stdout);
      r := Fail(ToolFailed(Join(" ", msg)));
    } else {
      r := Pass;
    }
  }

  const NoPrompts: seq<string> := ["-noep", "-nolu", "-noex"]

  /** The shape of the `protect` argument list: the three prompt-suppressing flags,
      one `-domain=` flag per domain in order, and the output flag last. */
  predicate IsProtectArgs(viewer: Path, domains: seq<string>, args: seq<string>)
  {
    && |args| == 4 + |domains|
    && args[..3] == NoPrompts
    && (forall i :: 0 <= i < |domains| ==> args[3 + i] == "-domain=" + domains[i])
    && args[|args| - 1] == "-o=" + Str(viewer)
  }

  /** The shape determines the list. */
  lemma {:induction false} ProtectArgsUnique(viewer: Path, domains: seq<string>, a: seq<string>, b: seq<string>)
    requires IsProtectArgs(viewer, domains, a) && IsProtectArgs(viewer, domains, b)
    ensures a == b
  {
    forall k | 0 <= k < |a| ensures a[k] == b[k] {
      if k < 3 {
        assert a[k] == a[..3][k] && b[k] == b[..3][k];
      } else if k < 3 + |domains| {
        var i := k - 3;
        assert a[3 + i] == "-domain=" + domains[i] == b[3 + i];
      }
    }
  }

  /** The argument list built by `KRViewer.run`. */
  method ProtectArgs(viewer: Path, domains: seq<string>) returns (args: seq<string>)
    ensures IsProtectArgs(viewer, domains, args)
  {
    args := NoPrompts;
    for i := 0 to |domains|
      invariant |args| == 3 + i
      invariant args[..3] == NoPrompts
      invariant forall j :: 0 <= j < i ==> args[3 + j] == "-domain=" + domains[j]
    {
      args := args + ["-domain=" + domains[i]];
    }
    args := args + ["-o=" + Str(viewer)];
  }

  /** `KRViewer.run(viewer, domains)`: creates the viewer's directory when missing,
      then runs `protect` once. */
  method ViewerRun(base: KRPanoBase, host: Host, viewer: Path, domains: seq<string>,
                   reply: ToolResult, now: int) returns (r: Outcome)
    modifies host
    ensures host.tree == if Parent(viewer) in old(host.tree) then old(host.tree)
                         else Mkdirs(old(host.tree), Parent(viewer), now)
    ensures |host.started| == |old(host.started)| + 1
    ensures host.started[..|old(host.started)|] == old(host.started)
    ensures var argv := host.started[|host.started| - 1];
      |argv| >= 2 && argv[..2] == [Str(base.krpanotools), "protect"] && IsProtectArgs(viewer, domains, argv[2..])
    ensures r == Classify(reply)
  {
    if Parent(viewer) !in host.tree {
      host.MakeDirs(Parent(viewer), now);
    }
    var args := ProtectArgs(viewer, domains);
    r := RunTool(base, host, "protect", args, reply);
  }
}
