/**
 * Builtin dispatch `execute_command` (shell.c:140-217) and the argument checks
 * of the ten builtin handlers (shell.c:219-374). A builtin name selects a
 * handler that runs in the shell itself; any other command is forked and its
 * child goes through the resolver. The file-system calls the handlers make
 * are returned as requests, not performed.
 */
module Dispatch {
  import opened Options
  import opened Resolver

  /** The ten builtins, in the order execute_command tests them. */
  datatype Builtin = Cd | Pwd | Ls | Mkdir | Rmdir | Ln | Cp | Rm | Mv | Cat

  /** The command name that selects a builtin. */
  function NameOf(b: Builtin): string {
    match b
    case Cd => "cd"
    case Pwd => "pwd"
    case Ls => "ls"
    case Mkdir => "mkdir"
    case Rmdir => "rmdir"
    case Ln => "ln"
    case Cp => "cp"
    case Rm => "rm"
    case Mv => "mv"
    case Cat => "cat"
  }

  /** The chain of strcmp tests of shell.c:144-201: exact match on the whole name. */
  function Lookup(name: string): (r: Option<Builtin>)
    ensures r.Some? ==> NameOf(r.value) == name
    ensures r.None? ==> forall b: Builtin :: NameOf(b) != name
  {
    if name == "cd" then Some(Cd)
    else if name == "pwd" then Some(Pwd)
    else if name == "ls" then Some(Ls)
    else if name == "mkdir" then Some(Mkdir)
    else if name == "rmdir" then Some(Rmdir)
    else if name == "ln" then Some(Ln)
    else if name == "cp" then Some(Cp)
    else if name == "rm" then Some(Rm)
    else if name == "mv" then Some(Mv)
    else if name == "cat" then Some(Cat)
    else None
  }

  const BuiltinNames: set<string> := {"cd", "pwd", "ls", "mkdir", "rmdir", "ln", "cp", "rm", "mv", "cat"}

  /** A name selects a builtin exactly when it is one of the ten names, and then the builtin with that name. */
  lemma LookupExact(name: string)
    ensures Lookup(name).Some? <==> name in BuiltinNames
    ensures forall b: Builtin :: Lookup(name) == Some(b) <==> NameOf(b) == name
  {
  }

  /** What a builtin handler asks of the file system once its arguments are present. */
  datatype FsOp =
    | ChangeDir(path: string)
    | PrintWorkingDir
    | ListDir(path: string)
    | MakeDir(path: string)
    | RemoveDir(path: string)
    | HardLink(target: string, link: string)
    | CopyFile(source: string, dest: string)
    | RemoveFile(path: string)
    | RenameFile(source: string, dest: string)
    | WriteStdinTo(path: string)

  /** A handler either prints its usage message or performs one file-system operation. */
  datatype Request = Usage(builtin: Builtin) | Perform(op: FsOp)

  /** How many operands after the name a builtin insists on. */
  function Arity(b: Builtin): nat {
    match b
    case Pwd | Ls => 0
    case Cd | Mkdir | Rmdir | Rm | Cat => 1
    case Ln | Cp | Mv => 2
  }

  /**
   * The handler of `b` on the vector `v` (with `v[0]` the name): the NULL tests
   * of shell.c:221, 245, 265, 276, 287, 298, 326, 337 and 348, and the one
   * operation each handler then performs. ls without an operand lists ".".
   */
  function BuiltinRequest(b: Builtin, v: seq<string>): Request
    requires |v| >= 1
  {
    if |v| < 1 + Arity(b) then Usage(b)
    else
      match b
      case Cd => Perform(ChangeDir(v[1]))
      case Pwd => Perform(PrintWorkingDir)
      case Ls => Perform(ListDir(if |v| >= 2 then v[1] else "."))
      case Mkdir => Perform(MakeDir(v[1]))
      case Rmdir => Perform(RemoveDir(v[1]))
      case Ln => Perform(HardLink(v[1], v[2]))
      case Cp => Perform(CopyFile(v[1], v[2]))
      case Rm => Perform(RemoveFile(v[1]))
      case Mv => Perform(RenameFile(v[1], v[2]))
      case Cat => Perform(WriteStdinTo(v[1]))
  }

  /**
   * A handler prints its usage message exactly when an operand it needs is
   * missing, and otherwise works on the operands right after the name.
   */
  lemma UsageIffMissingOperand(b: Builtin, v: seq<string>)
    requires |v| >= 1
    ensures BuiltinRequest(b, v).Usage? <==> |v| < 1 + Arity(b)
    ensures BuiltinRequest(b, v).Usage? ==> BuiltinRequest(b, v).builtin == b
    ensures BuiltinRequest(b, v).Perform? && Arity(b) == 1 ==>
      var op := BuiltinRequest(b, v).op;
      (op.ChangeDir? || op.MakeDir? || op.RemoveDir? || op.RemoveFile? || op.WriteStdinTo?) &&
      op.path == v[1]
    ensures BuiltinRequest(b, v).Perform? && Arity(b) == 2 ==>
      var op := BuiltinRequest(b, v).op;
      (op.HardLink? && op.target == v[1] && op.link == v[2]) ||
      (op.CopyFile? && op.source == v[1] && op.dest == v[2]) ||
      (op.RenameFile? && op.source == v[1] && op.dest == v[2])
  {
  }

  /** What the forked child of execute_command does (shell.c:204-209). */
  datatype ChildRun = ChildRun(resolved: Outcome, fallback: Option<Image>)

  /**
   * After the resolver returns, the child calls execvp once more on what argv
   * then shows: with the resolver's streams after an `Exec` that failed, with
   * the shell's own streams after a refusal. Both sides of a pipeline exit.
   */
  function Fallback(r: Resolved): Option<Image> {
    match r.outcome
    case Refused(_) => Some(Image(r.left, Inherited, Inherited))
    case Exec(img) => Some(Image(r.left, img.stdin, img.stdout))
    case Pipeline(_, _, _, _) => None
  }

  /** The result of execute_command. */
  datatype Dispatched =
    | RanBuiltin(request: Request)
    | Spawned(child: ChildRun, waits: bool)
    | ForkFailed

  /**
   * execute_command (shell.c:140-217) on the vector `v` that argv shows, whose
   * first word it reads unchecked. `forkOk` says whether fork succeeds.
   */
  function ExecuteCommand(v: seq<string>, background: bool, forkOk: bool,
                          canRead: string -> bool, canWrite: string -> bool): (d: Dispatched)
    requires |v| >= 1
    ensures d.RanBuiltin? <==> v[0] in BuiltinNames
    ensures d.Spawned? ==> d.waits == !background
    ensures d.ForkFailed? <==> v[0] !in BuiltinNames && !forkOk
  {
    match Lookup(v[0])
    case Some(b) => RanBuiltin(BuiltinRequest(b, v))
    case None =>
      if !forkOk then ForkFailed
      else
        var r := Classify(v, canRead, canWrite);
        Spawned(ChildRun(r.outcome, Fallback(r)), !background)
  }

  /**
   * A builtin runs in the shell and creates no process; any other command is
   * handed to the resolver in a child, whose fallback execvp sees the argv the
   * resolver left behind.
   */
  lemma SpawnedChildResolves(a: seq<Slot>, background: bool, canRead: string -> bool, canWrite: string -> bool)
    requires Null in a && |Live(a)| >= 1 && Live(a)[0] !in BuiltinNames
    ensures var d := ExecuteCommand(Live(a), background, true, canRead, canWrite);
      var r := Classify(Live(a), canRead, canWrite);
      d.Spawned? && d.child.resolved == r.outcome &&
      (d.child.fallback.Some? ==> d.child.fallback.value.args == Live(NullOut(a, r.nulled)))
  {
    LeftIsVisible(a, canRead, canWrite);
  }

  /**
   * A refused redirection is not the end in execute_command's child: "sort <"
   * is refused for lack of an input file, then sort is run with "<" as its operand.
   */
  lemma RefusedThenExecuted(canRead: string -> bool, canWrite: string -> bool)
    ensures ExecuteCommand(["sort", "<"], false, true, canRead, canWrite) ==
      Spawned(ChildRun(Refused(NoInputFile), Some(Image(["sort", "<"], Inherited, Inherited))), true)
  {
    MissingInputFile(["sort"], canRead, canWrite);
  }
}
