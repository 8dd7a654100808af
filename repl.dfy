/**
 * One turn of the read-eval loop of `main` (shell.c:376-414) after fgets has
 * filled the buffer: cut the line at its first newline, stop on exactly
 * "exit", tokenize, skip a line without tokens, and otherwise fork a child
 * that hands argv to the resolver while the shell waits. `main` never calls
 * execute_command, so from here no builtin can run.
 */
module Repl {
  import opened Options
  import opened CStrings
  import opened Tokenizer
  import opened Resolver
  import Dispatch

  /** Size of the argv array of main (shell.c:18). */
  const MaxArg := 100

  /** Size of the line buffer of main (shell.c:17). */
  const MaxBuf := 1024

  /** The line up to its first newline: what `buf[strcspn(buf, "\n")] = '\0'` leaves. */
  function Chomp(line: string): (r: string)
    ensures r <= line && '\n' !in r
    ensures |r| < |line| ==> line[|r|] == '\n'
  {
    if line == [] || line[0] == '\n' then [] else [line[0]] + Chomp(line[1..])
  }

  /** Chomp cuts exactly at the first newline, whatever follows it. */
  lemma {:induction false} ChompAtFirstNewline(p: string, q: string)
    requires '\n' !in p
    ensures Chomp(p + "\n" + q) == p
  {
    if p != [] {
      assert (p + "\n" + q)[1..] == p[1..] + "\n" + q;
      ChompAtFirstNewline(p[1..], q);
    }
  }

  /** A line without a newline is left as it is. */
  lemma ChompNoNewline(p: string)
    requires '\n' !in p
    ensures Chomp(p) == p
  {
  }

  /** What one turn of the loop does. */
  datatype LineAction =
    | Exit
    | Skip
    | ForkFailed
    | Forked(child: Outcome)

  /**
   * main's handling of the C string `line` read by fgets (shell.c:393-412):
   * `canRead`/`canWrite` say whether open succeeds on a path, `forkOk` whether
   * fork does. The parent waits for a forked child.
   */
  function Route(line: string, canRead: string -> bool, canWrite: string -> bool, forkOk: bool): LineAction {
    var c := Chomp(line);
    if c == "exit" then Exit
    else if Words(c) == [] then Skip
    else if !forkOk then ForkFailed
    else Forked(Classify(Words(c), canRead, canWrite).outcome)
  }

  /** Only the exact word "exit" before the first newline ends the shell. */
  lemma ExitIsExact(line: string, canRead: string -> bool, canWrite: string -> bool, forkOk: bool)
    ensures Route(line, canRead, canWrite, forkOk).Exit? <==> Chomp(line) == "exit"
  {
  }

  /** A line of spaces and tabs (up to its newline) is skipped, and only such a line. */
  lemma BlankLineSkipped(line: string, canRead: string -> bool, canWrite: string -> bool, forkOk: bool)
    ensures Route(line, canRead, canWrite, forkOk).Skip? ==>
      forall k :: 0 <= k < |Chomp(line)| ==> IsBlank(Chomp(line)[k])
    ensures (forall k :: 0 <= k < |Chomp(line)| ==> IsBlank(Chomp(line)[k])) ==>
      Route(line, canRead, canWrite, forkOk).Skip?
  {
    var c := Chomp(line);
    NoWordsIffAllBlank(c);
    if c == "exit" {
      assert !IsBlank(c[0]);
    }
  }

  /**
   * A non-blank line is handed, as its words, to the resolver in a child; in
   * particular a line naming a builtin is never run as one.
   */
  lemma EveryCommandGoesToTheResolver(line: string, canRead: string -> bool, canWrite: string -> bool)
    requires Chomp(line) != "exit" && Words(Chomp(line)) != []
    ensures Route(line, canRead, canWrite, true) == Forked(Classify(Words(Chomp(line)), canRead, canWrite).outcome)
    ensures Route(line, canRead, canWrite, true) != Exit && Route(line, canRead, canWrite, true) != Skip
  {
  }

  /**
   * " exit" is not "exit": it is tokenized and handed to the resolver, which
   * tries to execute a program named exit.
   */
  lemma PaddedExitIsDispatched(canRead: string -> bool, canWrite: string -> bool)
    ensures Route(" exit", canRead, canWrite, true) == Forked(Exec(Image(["exit"], Inherited, Inherited)))
    ensures Route("exit\n", canRead, canWrite, true) == Exit
  {
    ChompAtFirstNewline("exit", "");
    assert "exit" + "\n" + "" == "exit\n";
    ChompNoNewline(" exit");
    OneWord("exit");
    assert " exit"[1..] == "exit";
    PlainRunsAsIs(["exit"], canRead, canWrite);
  }

  /**
   * The builtins are unreachable from the loop: "cd /tmp" goes to the resolver
   * and execvp, although execute_command would change directory in the shell.
   */
  lemma BuiltinNotReachedFromLoop(canRead: string -> bool, canWrite: string -> bool)
    ensures Route("cd /tmp", canRead, canWrite, true) == Forked(Exec(Image(["cd", "/tmp"], Inherited, Inherited)))
    ensures Dispatch.ExecuteCommand(["cd", "/tmp"], false, true, canRead, canWrite) ==
      Dispatch.RanBuiltin(Dispatch.Perform(Dispatch.ChangeDir("/tmp")))
  {
    CdLineWords();
    PlainRunsAsIs(["cd", "/tmp"], canRead, canWrite);
  }

  /** The words of the line "cd /tmp". */
  lemma CdLineWords()
    ensures Chomp("cd /tmp") == "cd /tmp" && Words("cd /tmp") == ["cd", "/tmp"]
  {
    ChompNoNewline("cd /tmp");
    assert "cd" + " " + "/tmp" == "cd /tmp";
    TwoWords("cd", "/tmp");
  }

  // ---------------------------------------------------------------------------
  // One turn of the loop on main's buffers
  // ---------------------------------------------------------------------------

  /**
   * The buffer after `buf[strcspn(buf, "\n")] = '\0'` (shell.c:393): NUL at the
   * first newline of the line, or over the NUL that already ends it.
   */
  function CutLine(b: seq<char>): (r: seq<char>)
    requires NulTerminated(b)
    ensures |r| == |b| && NulTerminated(r) && Line(r) == Chomp(Line(b))
    ensures forall j :: 0 <= j < |b| && j != |Chomp(Line(b))| ==> r[j] == b[j]
  {
    LineInside(b);
    LineAfterCut(b, |Chomp(Line(b))|);
    b[|Chomp(Line(b))| := '\0']
  }

  /**
   * The `char *argv[]` that getargs leaves, as resolver slots: the C string at
   * each recorded offset, then the NULL sentinel.
   */
  function ArgvSlots(b: seq<char>, ps: seq<int>): (r: seq<Slot>)
    requires forall k :: 0 <= k < |ps| ==> ps[k] >= 0
    ensures Null in r
  {
    assert (seq(|ps|, k requires 0 <= k < |ps| => Arg(CString(b, ps[k]))) + [Null])[|ps|] == Null;
    seq(|ps|, k requires 0 <= k < |ps| => Arg(CString(b, ps[k]))) + [Null]
  }

  /** The resolver sees exactly the strings at the recorded offsets. */
  lemma LiveArgvSlots(b: seq<char>, ps: seq<int>)
    requires forall k :: 0 <= k < |ps| ==> ps[k] >= 0
    ensures Live(ArgvSlots(b, ps)) == ArgStrings(b, ps)
  {
    var a := ArgvSlots(b, ps);
    LiveFrom(a, 0, ArgStrings(b, ps));
    assert a[0..] == a;
  }

  /**
   * One turn of main's loop (shell.c:393-412) once fgets has filled `buf`. The
   * source never checks that the tokens fit in argv.
   */
  method ReplStep(buf: array<char>, argv: array<int>, canRead: string -> bool, canWrite: string -> bool,
                  forkOk: bool)
    returns (act: LineAction)
    requires buf.Length == MaxBuf && NulTerminated(buf[..])
    requires argv.Length == MaxArg && |Words(Chomp(Line(buf[..])))| < MaxArg
    modifies buf, argv
    ensures act == Route(Line(old(buf[..])), canRead, canWrite, forkOk)
    ensures act.Exit? ==> buf[..] == CutLine(old(buf[..])) && argv[..] == old(argv[..])
    ensures !act.Exit? ==>
      |Starts(Chomp(Line(old(buf[..]))))| < MaxArg &&
      buf[..] == Blanked(CutLine(old(buf[..]))) &&
      argv[..] == Recorded(old(argv[..]), Starts(Chomp(Line(old(buf[..])))) + [-1])
  {
    ghost var b0, a0 := buf[..], argv[..];
    ghost var line := Line(b0);
    var cut := |Chomp(Line(buf[..]))|;
    LineAfterCut(b0, cut);
    buf[cut] := '\0';
    assert buf[..] == b0[cut := '\0'] == CutLine(b0);
    ghost var c := Line(buf[..]);
    if Line(buf[..]) == "exit" {
      return Exit;
    }
    ghost var b1 := buf[..];
    GetArgsYieldsWords(b1);
    var n := GetArgs(buf, argv);
    assert argv[..n] == Starts(c);
    if n == 0 {
      return Skip;
    }
    if !forkOk {
      return ForkFailed;
    }
    var view := ArgvSlots(buf[..], argv[..n]);
    LiveArgvSlots(buf[..], argv[..n]);
    var slots := new Slot[|view|](k requires 0 <= k < |view| => view[k]);
    assert slots[..] == view;
    var o := HandleRedirectionAndPipe(slots, canRead, canWrite);
    act := Forked(o);
  }
}
