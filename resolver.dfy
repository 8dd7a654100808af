/**
 * The redirection and pipe resolver `handle_redirection_and_pipe`
 * (shell.c:62-137). It scans a NULL-terminated `argv` three times, for the first
 * "<", then for the first ">", then for the first "|", and writes NULL over each
 * operator it acts on, so later scans see only the tokens before it.
 *
 * The process effects (open, pipe, fork, dup2, execvp) are not performed; the
 * resolver returns an `Outcome` that says what would be executed with which
 * standard streams. Whether `open` succeeds on a path is a parameter.
 */
module Resolver {
  import opened Options

  // ---------------------------------------------------------------------------
  // argv as C sees it
  // ---------------------------------------------------------------------------

  /** One `char *` slot of argv: NULL, or a pointer to a C string. */
  datatype Slot = Null | Arg(text: string)

  /** The argument vector execvp would see: the strings before the first NULL. */
  function Live(a: seq<Slot>): (v: seq<string>)
    ensures |v| <= |a|
    ensures forall k :: 0 <= k < |v| ==> a[k] == Arg(v[k])
    ensures |v| < |a| ==> a[|v|] == Null
  {
    if a == [] || a[0] == Null then []
    else
      var rest := Live(a[1..]);
      assert forall k :: 1 <= k < 1 + |rest| ==> a[k] == a[1..][k - 1];
      [a[0].text] + rest
  }

  /** Slots that hold `x` from `lo` on, followed by NULL, show `x` from `lo`. */
  lemma LiveFrom(a: seq<Slot>, lo: nat, x: seq<string>)
    requires lo + |x| < |a| && a[lo + |x|] == Null
    requires forall m :: 0 <= m < |x| ==> a[lo + m] == Arg(x[m])
    ensures Live(a[lo..]) == x
  {
    var y := Live(a[lo..]);
    assert a[lo..][|x|] == Null;
    assert forall m :: 0 <= m < |x| ==> a[lo..][m] == Arg(x[m]);
    assert |y| == |x|;
    forall m | 0 <= m < |x|
      ensures y[m] == x[m]
    {
      assert a[lo..][m] == Arg(y[m]);
    }
  }

  /** A vector with a NULL in it ends before its last slot. */
  lemma LiveEndsAtNull(a: seq<Slot>)
    requires Null in a
    ensures |Live(a)| < |a|
  {
    var k :| 0 <= k < |a| && a[k] == Null;
  }

  /** Index of the first `t` in `v`, or `|v|` when there is none. */
  function IndexOf(v: seq<string>, t: string): (r: nat)
    ensures r <= |v|
    ensures r < |v| ==> v[r] == t
    ensures forall m :: 0 <= m < r ==> v[m] != t
  {
    if v == [] then 0
    else if v[0] == t then 0
    else
      var r := 1 + IndexOf(v[1..], t);
      assert forall m :: 1 <= m < r ==> v[m] == v[1..][m - 1];
      r
  }

  /** `t` occurs in `v` exactly when its first index is inside `v`. */
  lemma IndexOfInside(v: seq<string>, t: string)
    ensures t in v <==> IndexOf(v, t) < |v|
  {
  }

  /** Searching past a prefix that lacks `t`. */
  lemma IndexOfAfter(p: seq<string>, q: seq<string>, t: string)
    requires t !in p
    ensures IndexOf(p + q, t) == |p| + IndexOf(q, t)
  {
    assert forall m :: 0 <= m < |q| ==> (p + q)[|p| + m] == q[m];
  }

  // ---------------------------------------------------------------------------
  // Outcomes
  // ---------------------------------------------------------------------------

  /** Where a standard stream of an executed command comes from or goes to. */
  datatype Stream = Inherited | FromFile(path: string) | ToFile(path: string) | PipeIn | PipeOut

  /** A command handed to execvp, with its standard input and output. */
  datatype Image = Image(args: seq<string>, stdin: Stream, stdout: Stream)

  /** Why the resolver returns without executing anything. */
  datatype Failure = NoInputFile | InputOpenFailed(path: string) | NoOutputFile | OutputOpenFailed(path: string)

  /**
   * What the resolver does. `Pipeline` forks: the child runs `writer`, the calling
   * process runs `reader`; `unusedIn`/`unusedOut` are files already opened for a
   * redirection that the pipeline never applies.
   */
  datatype Outcome =
    | Refused(why: Failure)
    | Exec(image: Image)
    | Pipeline(writer: Image, reader: Image, unusedIn: Option<string>, unusedOut: Option<string>)

  /** The outcome, the argv slots overwritten with NULL, and the vector left visible in argv. */
  datatype Resolved = Resolved(outcome: Outcome, nulled: set<int>, left: seq<string>)

  function InStream(f: Option<string>): Stream {
    if f.Some? then FromFile(f.value) else Inherited
  }

  function OutStream(f: Option<string>): Stream {
    if f.Some? then ToFile(f.value) else Inherited
  }

  /** The operator tokens the resolver reacts to. */
  predicate IsOperator(t: string) {
    t == "<" || t == ">" || t == "|"
  }

  // ---------------------------------------------------------------------------
  // Reference definition on the visible vector
  // ---------------------------------------------------------------------------

  /**
   * The resolver on the vector `v` before the first NULL. `canRead(p)` and
   * `canWrite(p)` say whether opening `p` for input, or for output with create
   * and truncate, succeeds.
   */
  function Classify(v: seq<string>, canRead: string -> bool, canWrite: string -> bool): Resolved {
    var i := IndexOf(v, "<");
    if i < |v| && i + 1 == |v| then Resolved(Refused(NoInputFile), {}, v)
    else if i < |v| && !canRead(v[i + 1]) then Resolved(Refused(InputOpenFailed(v[i + 1])), {}, v)
    else
      var inFile := if i < |v| then Some(v[i + 1]) else None;
      var cutIn: set<int> := if i < |v| then {i} else {};
      ClassifyOutput(v[..i], inFile, cutIn, canWrite)
  }

  /** The output scan and the pipe scan, once the input scan has passed. */
  function ClassifyOutput(w: seq<string>, inFile: Option<string>, cutIn: set<int>,
                          canWrite: string -> bool): Resolved {
    var j := IndexOf(w, ">");
    if j < |w| && j + 1 == |w| then Resolved(Refused(NoOutputFile), cutIn, w)
    else if j < |w| && !canWrite(w[j + 1]) then Resolved(Refused(OutputOpenFailed(w[j + 1])), cutIn, w)
    else
      var outFile := if j < |w| then Some(w[j + 1]) else None;
      var cutOut := cutIn + (if j < |w| then {j} else {});
      ClassifyPipe(w[..j], inFile, outFile, cutOut)
  }

  /** The pipe scan, once both redirection scans have passed. */
  function ClassifyPipe(u: seq<string>, inFile: Option<string>, outFile: Option<string>,
                        cutOut: set<int>): Resolved {
    var k := IndexOf(u, "|");
    if k < |u| then
      Resolved(Pipeline(Image(u[..k], Inherited, PipeOut), Image(u[k + 1..], PipeIn, Inherited),
                        inFile, outFile),
               cutOut + {k}, u[..k])
    else
      Resolved(Exec(Image(u, InStream(inFile), OutStream(outFile))), cutOut, u)
  }

  /** argv after NULL has been written into the slots `ks`. */
  function NullOut(a: seq<Slot>, ks: set<int>): (r: seq<Slot>)
    ensures |r| == |a|
  {
    seq(|a|, k requires 0 <= k < |a| => if k in ks then Null else a[k])
  }

  // ---------------------------------------------------------------------------
  // The resolver on the argv array
  // ---------------------------------------------------------------------------

  /**
   * One scan `for (i = 0; argv[i] != NULL; i++)` of shell.c:68, 85 and 102: the
   * first slot before the NULL that holds `op`, or the NULL's own index.
   */
  method Find(argv: array<Slot>, op: string, ghost v: seq<string>) returns (i: nat)
    requires |v| < argv.Length && argv[|v|] == Null
    requires forall m :: 0 <= m < |v| ==> argv[m] == Arg(v[m])
    ensures i == IndexOf(v, op)
  {
    i := 0;
    while argv[i] != Null
      invariant 0 <= i <= |v|
      invariant forall m :: 0 <= m < i ==> v[m] != op
      decreases |v| - i
    {
      if argv[i].text == op {
        break;
      }
      i := i + 1;
    }
  }

  /**
   * handle_redirection_and_pipe (shell.c:62-137), up to the execvp calls: the
   * returned outcome is the reference one for the vector argv shows, and argv
   * ends with NULL in exactly the slots the reference names.
   */
  method HandleRedirectionAndPipe(argv: array<Slot>, canRead: string -> bool, canWrite: string -> bool)
    returns (o: Outcome)
    requires Null in argv[..]
    modifies argv
    ensures o == Classify(Live(old(argv[..])), canRead, canWrite).outcome
    ensures argv[..] == NullOut(old(argv[..]), Classify(Live(old(argv[..])), canRead, canWrite).nulled)
  {
    LiveEndsAtNull(argv[..]);
    o := ResolveInput(argv, canRead, canWrite, argv[..], Live(argv[..]));
  }

  /** The input scan (shell.c:68-83) over the vector `v` that argv shows, then the later scans. */
  method ResolveInput(argv: array<Slot>, canRead: string -> bool, canWrite: string -> bool,
                      ghost a0: seq<Slot>, ghost v: seq<string>)
    returns (o: Outcome)
    requires argv[..] == a0 && |v| < argv.Length && argv[|v|] == Null
    requires forall m :: 0 <= m < |v| ==> argv[m] == Arg(v[m])
    modifies argv
    ensures o == Classify(v, canRead, canWrite).outcome
    ensures argv[..] == NullOut(a0, Classify(v, canRead, canWrite).nulled)
  {
    var inFile: Option<string> := None;
    var i := Find(argv, "<", v);
    if argv[i] != Null {
      if argv[i + 1] == Null {
        o := Refused(NoInputFile);
        assert argv[..] == NullOut(a0, {});
        return;
      }
      if !canRead(argv[i + 1].text) {
        o := Refused(InputOpenFailed(argv[i + 1].text));
        assert argv[..] == NullOut(a0, {});
        return;
      }
      inFile := Some(argv[i + 1].text);
      argv[i] := Null;
    }
    ghost var cutIn: set<int> := if i < |v| then {i} else {};
    assert argv[..] == NullOut(a0, cutIn);
    o := ResolveOutput(argv, canWrite, inFile, a0, v[..i], cutIn);
  }

  /** The output scan and the pipe scan (shell.c:85-136) over the vector `w` left by the input scan. */
  method ResolveOutput(argv: array<Slot>, canWrite: string -> bool, inFile: Option<string>,
                       ghost a0: seq<Slot>, ghost w: seq<string>, ghost cutIn: set<int>)
    returns (o: Outcome)
    requires |a0| == argv.Length && |w| < argv.Length && argv[|w|] == Null
    requires forall m :: 0 <= m < |w| ==> argv[m] == Arg(w[m])
    requires forall m :: m in cutIn ==> |w| <= m
    requires argv[..] == NullOut(a0, cutIn)
    modifies argv
    ensures o == ClassifyOutput(w, inFile, cutIn, canWrite).outcome
    ensures argv[..] == NullOut(a0, ClassifyOutput(w, inFile, cutIn, canWrite).nulled)
  {
    var outFile: Option<string> := None;
    var j := Find(argv, ">", w);
    if argv[j] != Null {
      if argv[j + 1] == Null {
        o := Refused(NoOutputFile);
        return;
      }
      if !canWrite(argv[j + 1].text) {
        o := Refused(OutputOpenFailed(argv[j + 1].text));
        return;
      }
      outFile := Some(argv[j + 1].text);
      argv[j] := Null;
    }
    ghost var cutOut := cutIn + (if j < |w| then {j} else {});
    assert argv[..] == NullOut(a0, cutOut);
    o := ResolvePipe(argv, inFile, outFile, a0, w[..j], cutOut);
  }

  /** The pipe scan and the final execvp (shell.c:102-136) over the vector `u` left by both redirection scans. */
  method ResolvePipe(argv: array<Slot>, inFile: Option<string>, outFile: Option<string>,
                     ghost a0: seq<Slot>, ghost u: seq<string>, ghost cutOut: set<int>)
    returns (o: Outcome)
    requires |a0| == argv.Length && |u| < argv.Length && argv[|u|] == Null
    requires forall m :: 0 <= m < |u| ==> argv[m] == Arg(u[m])
    requires forall m :: m in cutOut ==> |u| <= m
    requires argv[..] == NullOut(a0, cutOut)
    modifies argv
    ensures o == ClassifyPipe(u, inFile, outFile, cutOut).outcome
    ensures argv[..] == NullOut(a0, ClassifyPipe(u, inFile, outFile, cutOut).nulled)
  {
    var k := Find(argv, "|", u);
    if argv[k] != Null {
      CutAt(argv[..], u, k, a0, cutOut);
      argv[k] := Null;
      o := Pipeline(Image(Live(argv[..]), Inherited, PipeOut), Image(Live(argv[k + 1..]), PipeIn, Inherited),
                    inFile, outFile);
      return;
    }
    // Redirections applied, then execvp: shell.c:124-136.
    LiveFrom(argv[..], 0, u);
    assert argv[..][0..] == argv[..];
    o := Exec(Image(Live(argv[..]), InStream(inFile), OutStream(outFile)));
  }

  /** Writing NULL over slot `k` of a vector that shows `u` splits it into `u[..k]` and `u[k + 1..]`. */
  lemma CutAt(b: seq<Slot>, u: seq<string>, k: nat, a0: seq<Slot>, cut: set<int>)
    requires k < |u| < |b| && b[|u|] == Null && |a0| == |b|
    requires forall m :: 0 <= m < |u| ==> b[m] == Arg(u[m])
    requires b == NullOut(a0, cut)
    ensures Live(b[k := Null]) == u[..k]
    ensures Live(b[k := Null][k + 1..]) == u[k + 1..]
    ensures b[k := Null] == NullOut(a0, cut + {k})
  {
    CutSplits(b, u, k);
    NullOutMore(a0, cut, k);
  }

  /** The two halves execvp sees once slot `k` is NULL. */
  lemma CutSplits(b: seq<Slot>, u: seq<string>, k: nat)
    requires k < |u| < |b| && b[|u|] == Null
    requires forall m :: 0 <= m < |u| ==> b[m] == Arg(u[m])
    ensures Live(b[k := Null]) == u[..k]
    ensures Live(b[k := Null][k + 1..]) == u[k + 1..]
  {
    var c := b[k := Null];
    LiveFrom(c, 0, u[..k]);
    assert c[0..] == c;
    LiveFrom(c, k + 1, u[k + 1..]);
  }

  /** One more NULL written. */
  lemma NullOutMore(a: seq<Slot>, ks: set<int>, k: nat)
    requires k < |a|
    ensures NullOut(a, ks)[k := Null] == NullOut(a, ks + {k})
  {
  }

  // ---------------------------------------------------------------------------
  // What the resolver does, as properties of the reference definition
  // ---------------------------------------------------------------------------

  /** No operator token in `v`. */
  predicate Plain(v: seq<string>) {
    forall m :: 0 <= m < |v| ==> !IsOperator(v[m])
  }

  /** Without a "<" the input scan passes the whole vector on. */
  lemma NoInputRedirection(v: seq<string>, canRead: string -> bool, canWrite: string -> bool)
    requires "<" !in v
    ensures Classify(v, canRead, canWrite) == ClassifyOutput(v, None, {}, canWrite)
  {
    IndexOfInside(v, "<");
    assert v[..|v|] == v;
  }

  /** The pipe scan splits its vector at the first "|", which belongs to neither side. */
  lemma PipeSplit(u: seq<string>, inFile: Option<string>, outFile: Option<string>, cut: set<int>)
    ensures ClassifyPipe(u, inFile, outFile, cut).left <= u
    ensures ClassifyPipe(u, inFile, outFile, cut).outcome.Exec? ==>
      ClassifyPipe(u, inFile, outFile, cut).outcome.image.args == u && "|" !in u
    ensures ClassifyPipe(u, inFile, outFile, cut).outcome.Pipeline? ==>
      var o := ClassifyPipe(u, inFile, outFile, cut).outcome;
      o.writer.args + ["|"] + o.reader.args == u && "|" !in o.writer.args
  {
    var k := IndexOf(u, "|");
    if k < |u| {
      assert u[..k] + ["|"] + u[k + 1..] == u;
    }
  }

  /** The output scan keeps a prefix of its vector and no ">" reaches what is executed. */
  lemma OutputPrefix(w: seq<string>, inFile: Option<string>, cutIn: set<int>, canWrite: string -> bool)
    ensures ClassifyOutput(w, inFile, cutIn, canWrite).left <= w
    ensures ClassifyOutput(w, inFile, cutIn, canWrite).outcome.Exec? ==>
      var args := ClassifyOutput(w, inFile, cutIn, canWrite).outcome.image.args;
      args <= w && ">" !in args && "|" !in args
    ensures ClassifyOutput(w, inFile, cutIn, canWrite).outcome.Pipeline? ==>
      var o := ClassifyOutput(w, inFile, cutIn, canWrite).outcome;
      o.writer.args + ["|"] + o.reader.args <= w && "|" !in o.writer.args &&
      ">" !in o.writer.args && ">" !in o.reader.args
  {
    var j := IndexOf(w, ">");
    if j < |w| && (j + 1 == |w| || !canWrite(w[j + 1])) {
      return;
    }
    var outFile := if j < |w| then Some(w[j + 1]) else None;
    var cutOut := cutIn + (if j < |w| then {j} else {});
    var u := w[..j];
    assert ">" !in u;
    PipeSplit(u, inFile, outFile, cutOut);
  }

  /**
   * Only a prefix of the vector is ever executed, and it holds no operator; a
   * pipeline splits such a prefix at a "|" that belongs to neither side, and
   * only its right side can still hold a "|", passed on as an argument.
   */
  lemma ExecutedPrefix(v: seq<string>, canRead: string -> bool, canWrite: string -> bool)
    ensures Classify(v, canRead, canWrite).left <= v
    ensures Classify(v, canRead, canWrite).outcome.Exec? ==>
      var img := Classify(v, canRead, canWrite).outcome.image;
      img.args <= v && Plain(img.args)
    ensures Classify(v, canRead, canWrite).outcome.Pipeline? ==>
      var o := Classify(v, canRead, canWrite).outcome;
      o.writer.args + ["|"] + o.reader.args <= v && Plain(o.writer.args) &&
      "<" !in o.reader.args && ">" !in o.reader.args
  {
    var i := IndexOf(v, "<");
    if i < |v| && (i + 1 == |v| || !canRead(v[i + 1])) {
      return;
    }
    var inFile := if i < |v| then Some(v[i + 1]) else None;
    var cutIn: set<int> := if i < |v| then {i} else {};
    var w := v[..i];
    assert "<" !in w;
    OutputPrefix(w, inFile, cutIn, canWrite);
  }

  /** A vector without operators is executed as it is, with the shell's own streams, and argv is untouched. */
  lemma PlainRunsAsIs(v: seq<string>, canRead: string -> bool, canWrite: string -> bool)
    requires Plain(v)
    ensures Classify(v, canRead, canWrite) == Resolved(Exec(Image(v, Inherited, Inherited)), {}, v)
  {
    assert IndexOf(v, "<") == |v| && v[..|v|] == v;
    assert IndexOf(v, ">") == |v|;
    assert IndexOf(v, "|") == |v|;
  }

  /** Once the first "<" names a readable file, nothing after that file matters. */
  lemma InputHidesTheRest(p: seq<string>, f: string, q: seq<string>,
                          canRead: string -> bool, canWrite: string -> bool)
    requires "<" !in p && canRead(f)
    ensures Classify(p + ["<", f] + q, canRead, canWrite) == Classify(p + ["<", f], canRead, canWrite)
  {
    var v, v' := p + ["<", f] + q, p + ["<", f];
    assert v == p + (["<", f] + q);
    IndexOfAfter(p, ["<", f] + q, "<");
    IndexOfAfter(p, ["<", f], "<");
    assert v[..|p|] == p == v'[..|p|];
  }

  /**
   * Once the first ">" names a writable file, nothing after that file matters,
   * provided no "<" comes into play.
   */
  lemma OutputHidesTheRest(p: seq<string>, f: string, q: seq<string>,
                           canRead: string -> bool, canWrite: string -> bool)
    requires "<" !in p + [">", f] + q && ">" !in p && canWrite(f)
    ensures Classify(p + [">", f] + q, canRead, canWrite) == Classify(p + [">", f], canRead, canWrite)
  {
    var v, v' := p + [">", f] + q, p + [">", f];
    assert v == p + ([">", f] + q);
    assert "<" !in v';
    NoInputRedirection(v, canRead, canWrite);
    NoInputRedirection(v', canRead, canWrite);
    IndexOfAfter(p, [">", f] + q, ">");
    IndexOfAfter(p, [">", f], ">");
    assert v[..|p|] == p == v'[..|p|];
  }

  /**
   * A pipe wins over an input redirection after it: the file is opened, but
   * neither side of the pipe reads from it.
   */
  lemma PipeIgnoresInputFile(l: seq<string>, r: seq<string>, f: string,
                             canRead: string -> bool, canWrite: string -> bool)
    requires Plain(l) && Plain(r) && canRead(f)
    ensures Classify(l + ["|"] + r + ["<", f], canRead, canWrite).outcome ==
      Pipeline(Image(l, Inherited, PipeOut), Image(r, PipeIn, Inherited), Some(f), None)
  {
    var v := l + ["|"] + r + ["<", f];
    var w := l + ["|"] + r;
    assert v == w + ["<", f];
    assert "<" !in w && ">" !in w;
    IndexOfAfter(w, ["<", f], "<");
    assert v[..|w|] == w;
    assert IndexOf(w, ">") == |w| && w[..|w|] == w;
    assert w == l + (["|"] + r);
    IndexOfAfter(l, ["|"] + r, "|");
    assert w[..|l|] == l && w[|l| + 1..] == r;
  }

  /**
   * Without a pipe both redirections reach the executed command when ">" comes
   * first: "p > g < f ..." runs p reading f and writing g.
   */
  lemma BothRedirections(p: seq<string>, g: string, f: string, q: seq<string>,
                         canRead: string -> bool, canWrite: string -> bool)
    requires Plain(p) && g != "<" && canRead(f) && canWrite(g)
    ensures Classify(p + [">", g, "<", f] + q, canRead, canWrite) ==
      Resolved(Exec(Image(p, FromFile(f), ToFile(g))), {|p| + 2, |p|}, p)
  {
    var w := p + [">", g];
    var v := p + [">", g, "<", f] + q;
    assert Classify(v, canRead, canWrite) == ClassifyOutput(w, Some(f), {|p| + 2}, canWrite) by {
      assert "<" !in w && w + ["<", f] + q == v;
      InputCut(w, f, q, canRead, canWrite);
    }
    assert ClassifyOutput(w, Some(f), {|p| + 2}, canWrite) == ClassifyPipe(p, Some(f), Some(g), {|p| + 2, |p|}) by {
      OutputCut(p, g, Some(f), {|p| + 2}, canWrite);
      assert {|p| + 2} + {|p|} == {|p| + 2, |p|};
    }
    NoPipe(p, Some(f), Some(g), {|p| + 2, |p|});
  }

  /** A readable input file behind the first "<" cuts the vector there and goes to the output scan. */
  lemma InputCut(w: seq<string>, f: string, q: seq<string>, canRead: string -> bool, canWrite: string -> bool)
    requires "<" !in w && canRead(f)
    ensures Classify(w + ["<", f] + q, canRead, canWrite) == ClassifyOutput(w, Some(f), {|w|}, canWrite)
  {
    var v := w + ["<", f] + q;
    assert v == w + (["<", f] + q);
    IndexOfAfter(w, ["<", f] + q, "<");
    assert v[..|w|] == w;
  }

  /** A writable output file behind the first ">" cuts the vector there and goes to the pipe scan. */
  lemma OutputCut(p: seq<string>, g: string, inFile: Option<string>, cut: set<int>, canWrite: string -> bool)
    requires ">" !in p && canWrite(g)
    ensures ClassifyOutput(p + [">", g], inFile, cut, canWrite) == ClassifyPipe(p, inFile, Some(g), cut + {|p|})
  {
    IndexOfAfter(p, [">", g], ">");
    assert (p + [">", g])[..|p|] == p;
  }

  /** Without a "|" the pipe scan executes its whole vector with the redirections found. */
  lemma NoPipe(u: seq<string>, inFile: Option<string>, outFile: Option<string>, cut: set<int>)
    requires "|" !in u
    ensures ClassifyPipe(u, inFile, outFile, cut) ==
      Resolved(Exec(Image(u, InStream(inFile), OutStream(outFile))), cut, u)
  {
    IndexOfInside(u, "|");
  }

  /**
   * When "<" comes first its cut hides a later ">": "p < f > g" runs p reading f
   * but writing to the shell's own output, and g is never opened.
   */
  lemma InputFirstDropsOutput(p: seq<string>, f: string, g: string,
                              canRead: string -> bool, canWrite: string -> bool)
    requires Plain(p) && canRead(f)
    ensures Classify(p + ["<", f, ">", g], canRead, canWrite) ==
      Resolved(Exec(Image(p, FromFile(f), Inherited)), {|p|}, p)
  {
    var v := p + ["<", f, ">", g];
    assert v == p + (["<", f, ">", g]);
    IndexOfAfter(p, ["<", f, ">", g], "<");
    assert v[..|p|] == p;
    assert IndexOf(p, ">") == |p| && IndexOf(p, "|") == |p| && p[..|p|] == p;
  }

  /**
   * A pipe also wins over an output redirection before it is reached: "l | r > g"
   * creates and truncates g, but the pipeline runs l into r and nobody writes g.
   */
  lemma PipeIgnoresOutputFile(l: seq<string>, r: seq<string>, g: string,
                              canRead: string -> bool, canWrite: string -> bool)
    requires Plain(l) && Plain(r) && g != "<" && canWrite(g)
    ensures Classify(l + ["|"] + r + [">", g], canRead, canWrite).outcome ==
      Pipeline(Image(l, Inherited, PipeOut), Image(r, PipeIn, Inherited), None, Some(g))
  {
    var w := l + ["|"] + r;
    var v := w + [">", g];
    assert "<" !in v && ">" !in w && "|" !in l;
    NoInputRedirection(v, canRead, canWrite);
    OutputCut(w, g, None, {}, canWrite);
    PipeAt(l, r, None, Some(g), {} + {|w|});
  }

  /** The pipe scan at a first "|" after `l`: the child runs `l`, the caller the rest. */
  lemma PipeAt(l: seq<string>, r: seq<string>, inFile: Option<string>, outFile: Option<string>, cut: set<int>)
    requires "|" !in l
    ensures ClassifyPipe(l + ["|"] + r, inFile, outFile, cut) ==
      Resolved(Pipeline(Image(l, Inherited, PipeOut), Image(r, PipeIn, Inherited), inFile, outFile),
               cut + {|l|}, l)
  {
    var w := l + ["|"] + r;
    assert w == l + (["|"] + r);
    IndexOfAfter(l, ["|"] + r, "|");
    assert w[..|l|] == l && w[|l| + 1..] == r;
  }

  /** The pipe scan gives both sides of a pipeline the pipe and nothing else, and reports the resolved files unused. */
  lemma PipeStreams(u: seq<string>, inFile: Option<string>, outFile: Option<string>, cut: set<int>)
    ensures var o := ClassifyPipe(u, inFile, outFile, cut).outcome;
      o.Pipeline? ==>
        o.writer.stdin == Inherited && o.writer.stdout == PipeOut &&
        o.reader.stdin == PipeIn && o.reader.stdout == Inherited &&
        o.unusedIn == inFile && o.unusedOut == outFile
  {
  }

  /** The same through the output scan, where an unused output file comes from a ">" of the vector. */
  lemma OutputStreams(w: seq<string>, inFile: Option<string>, cut: set<int>, canWrite: string -> bool)
    ensures var o := ClassifyOutput(w, inFile, cut, canWrite).outcome;
      o.Pipeline? ==>
        o.writer.stdin == Inherited && o.writer.stdout == PipeOut &&
        o.reader.stdin == PipeIn && o.reader.stdout == Inherited &&
        o.unusedIn == inFile && (o.unusedOut.Some? <==> ">" in w)
  {
    var j := IndexOf(w, ">");
    IndexOfInside(w, ">");
    if j < |w| && (j + 1 == |w| || !canWrite(w[j + 1])) {
      return;
    }
    var outFile := if j < |w| then Some(w[j + 1]) else None;
    var cutOut := cut + (if j < |w| then {j} else {});
    PipeStreams(w[..j], inFile, outFile, cutOut);
  }

  /**
   * Neither side of a pipeline is redirected to a file: the child writes into the
   * pipe, the caller reads from it, and the other streams are the shell's own.
   * A file named after a "<" is opened and left unused exactly when the vector
   * has a "<"; an unused output file comes from a ">" of the vector.
   */
  lemma PipelineStreams(v: seq<string>, canRead: string -> bool, canWrite: string -> bool)
    ensures var o := Classify(v, canRead, canWrite).outcome;
      o.Pipeline? ==>
        o.writer.stdin == Inherited && o.writer.stdout == PipeOut &&
        o.reader.stdin == PipeIn && o.reader.stdout == Inherited &&
        (o.unusedIn.Some? <==> "<" in v) && (o.unusedOut.Some? ==> ">" in v)
  {
    var i := IndexOf(v, "<");
    IndexOfInside(v, "<");
    if i < |v| && (i + 1 == |v| || !canRead(v[i + 1])) {
      return;
    }
    var inFile := if i < |v| then Some(v[i + 1]) else None;
    var cutIn: set<int> := if i < |v| then {i} else {};
    OutputStreams(v[..i], inFile, cutIn, canWrite);
    assert forall t :: t in v[..i] ==> t in v;
  }

  /**
   * A redirection without a command word leaves nothing to execute: "< f" is
   * resolved and then execvp is handed an empty vector.
   */
  lemma RedirectionWithoutCommand(f: string, canRead: string -> bool, canWrite: string -> bool)
    requires canRead(f)
    ensures Classify(["<", f], canRead, canWrite) == Resolved(Exec(Image([], FromFile(f), Inherited)), {0}, [])
  {
    InputCut([], f, [], canRead, canWrite);
    assert [] + ["<", f] + [] == ["<", f];
  }

  /** A "<" at the end is refused before anything is written to argv. */
  lemma MissingInputFile(p: seq<string>, canRead: string -> bool, canWrite: string -> bool)
    requires "<" !in p
    ensures Classify(p + ["<"], canRead, canWrite) == Resolved(Refused(NoInputFile), {}, p + ["<"])
  {
    IndexOfAfter(p, ["<"], "<");
  }

  /** An input file that cannot be opened is refused before anything is written to argv. */
  lemma UnreadableInputFile(p: seq<string>, f: string, q: seq<string>,
                            canRead: string -> bool, canWrite: string -> bool)
    requires "<" !in p && !canRead(f)
    ensures Classify(p + ["<", f] + q, canRead, canWrite) ==
      Resolved(Refused(InputOpenFailed(f)), {}, p + ["<", f] + q)
  {
    assert p + ["<", f] + q == p + (["<", f] + q);
    IndexOfAfter(p, ["<", f] + q, "<");
  }

  /** A ">" at the end of what the input scan leaves is refused, after the "<" has been cut. */
  lemma MissingOutputFile(p: seq<string>, canRead: string -> bool, canWrite: string -> bool)
    requires "<" !in p && ">" !in p
    ensures Classify(p + [">"], canRead, canWrite) == Resolved(Refused(NoOutputFile), {}, p + [">"])
  {
    assert IndexOf(p + [">"], "<") == |p| + 1;
    assert (p + [">"])[..|p| + 1] == p + [">"];
    IndexOfAfter(p, [">"], ">");
  }

  /**
   * The input cut comes first, so "a > < in" loses the output file name: it is
   * refused for a missing output file, with the "<" slot already NULL.
   */
  lemma InputCutSwallowsOutputFile(canRead: string -> bool, canWrite: string -> bool)
    requires canRead("in")
    ensures Classify(["a", ">", "<", "in"], canRead, canWrite) ==
      Resolved(Refused(NoOutputFile), {2}, ["a", ">"])
  {
    var v := ["a", ">", "<", "in"];
    assert IndexOf(v, "<") == 2;
    assert v[..2] == ["a", ">"];
    assert IndexOf(["a", ">"], ">") == 1;
  }

  /** Only the first "|" splits: "a | b | c" runs "a" into "b" with the arguments "|" and "c". */
  lemma OnlyFirstPipeSplits(canRead: string -> bool, canWrite: string -> bool)
    ensures Classify(["a", "|", "b", "|", "c"], canRead, canWrite).outcome ==
      Pipeline(Image(["a"], Inherited, PipeOut), Image(["b", "|", "c"], PipeIn, Inherited), None, None)
  {
    var v := ["a", "|", "b", "|", "c"];
    assert IndexOf(v, "<") == 5 && v[..5] == v;
    assert IndexOf(v, ">") == 5;
    assert IndexOf(v, "|") == 1;
    assert v[..1] == ["a"] && v[2..] == ["b", "|", "c"];
  }

  /** The bounds of NulledBounds through the pipe scan of a vector `u` that a cut set `c` already ends. */
  lemma PipeBounds(u: seq<string>, inFile: Option<string>, outFile: Option<string>, c: set<int>, n: nat)
    requires |u| <= n && (forall k :: k in c ==> |u| <= k < n) && (|u| == n || |u| in c)
    ensures var r := ClassifyPipe(u, inFile, outFile, c);
      r.left <= u && (forall k :: k in r.nulled ==> |r.left| <= k < n) &&
      (|r.left| == n || |r.left| in r.nulled)
  {
  }

  /** The same through the output scan. */
  lemma OutputBounds(w: seq<string>, inFile: Option<string>, c: set<int>, canWrite: string -> bool, n: nat)
    requires |w| <= n && (forall k :: k in c ==> |w| <= k < n) && (|w| == n || |w| in c)
    ensures var r := ClassifyOutput(w, inFile, c, canWrite);
      r.left <= w && (forall k :: k in r.nulled ==> |r.left| <= k < n) &&
      (|r.left| == n || |r.left| in r.nulled)
  {
    var j := IndexOf(w, ">");
    if j < |w| && (j + 1 == |w| || !canWrite(w[j + 1])) {
      return;
    }
    var outFile := if j < |w| then Some(w[j + 1]) else None;
    var cutOut := c + (if j < |w| then {j} else {});
    PipeBounds(w[..j], inFile, outFile, cutOut, n);
  }

  /** Every slot the resolver nulls lies inside the visible vector, the first one where `left` ends. */
  lemma NulledBounds(v: seq<string>, canRead: string -> bool, canWrite: string -> bool)
    ensures var r := Classify(v, canRead, canWrite);
      r.left <= v &&
      (forall k :: k in r.nulled ==> |r.left| <= k < |v|) &&
      (|r.left| == |v| || |r.left| in r.nulled)
  {
    var i := IndexOf(v, "<");
    if i < |v| && (i + 1 == |v| || !canRead(v[i + 1])) {
      return;
    }
    var inFile := if i < |v| then Some(v[i + 1]) else None;
    var cutIn: set<int> := if i < |v| then {i} else {};
    OutputBounds(v[..i], inFile, cutIn, canWrite, |v|);
  }

  /** After the resolver returns, argv shows exactly `left`: what the fallback execvp of execute_command sees. */
  lemma LeftIsVisible(a: seq<Slot>, canRead: string -> bool, canWrite: string -> bool)
    requires Null in a
    ensures Live(NullOut(a, Classify(Live(a), canRead, canWrite).nulled)) == Classify(Live(a), canRead, canWrite).left
  {
    var r := Classify(Live(a), canRead, canWrite);
    NulledBounds(Live(a), canRead, canWrite);
    LiveNullOut(a, r.nulled, r.left);
  }

  /** Nulling slots from the end of a prefix `x` of the visible vector on leaves `x` visible. */
  lemma LiveNullOut(a: seq<Slot>, ks: set<int>, x: seq<string>)
    requires Null in a && x <= Live(a)
    requires forall k :: k in ks ==> |x| <= k < |Live(a)|
    requires |x| == |Live(a)| || |x| in ks
    ensures Live(NullOut(a, ks)) == x
  {
    var v := Live(a);
    LiveEndsAtNull(a);
    var b := NullOut(a, ks);
    forall m | 0 <= m < |x|
      ensures b[m] == Arg(x[m])
    {
      assert x[m] == v[m] && m !in ks;
    }
    LiveFrom(b, 0, x);
    assert b[0..] == b;
  }
}
