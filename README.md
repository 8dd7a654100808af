# A verified model of the command-execution engine of `shell.c`

`shell.c` is a small interactive Unix shell. For each line it reads, the shell
does four things:

1. It splits the line into words in place (`getargs`).
2. It resolves the `<`, `>` and `|` operators of the word vector into stream
   wiring and a program to execute (`handle_redirection_and_pipe`).
3. It can run one of ten builtins in-process, or fork a child for an external
   command (`execute_command`).
4. Its read-eval loop (`main`) decides per line whether to stop, skip or fork.

This project models those four pieces in Dafny and proves what they do.

| file | module | models |
|---|---|---|
| `options.dfy` | `Options` | an `Option` type |
| `cstrings.dfy` | `CStrings` | C strings inside a fixed `char` buffer: the text up to the first NUL |
| `tokenizer.dfy` | `Tokenizer` | `getargs` as a method over a `char` array and an `argv` array of offsets (`-1` is NULL), against a reference word splitter `Words` |
| `resolver.dfy` | `Resolver` | `handle_redirection_and_pipe` as a method over an `argv` array of `Slot`s; it writes NULL into the array exactly as the C code does and returns an `Outcome` in place of the process effects; the reference function `Classify` works on the visible vector |
| `dispatch.dfy` | `Dispatch` | `execute_command` and the operand checks of the ten builtin handlers, as functions |
| `repl.dfy` | `Repl` | one turn of `main`'s loop: `Route` on strings, and `ReplStep` on main's own buffers |

## Modelling decisions

- Whether `open` succeeds on a path is a parameter: `canRead`, or `canWrite`
  for create/truncate. Whether `fork` succeeds is a boolean `forkOk`.
- The resolver's result distinguishes three cases:
  - `Refused` — it returns without executing anything;
  - `Exec` — one `execvp`, with its standard streams;
  - `Pipeline` — two images. The forked child runs the left side and writes
    into the pipe. The calling process runs the right side and reads from the
    pipe. Any files opened for `<`/`>` are reported as unused.
- Four behaviours of the code that a reader of its comments or of its
  function names would not expect, all modelled as written:
  - The resolver truncates `argv` at an operator by writing NULL over the
    operator alone (shell.c:80, 97, 105). The comments at shell.c:80 and
    shell.c:97 say the operator and the file name are removed from `argv`;
    the code does not splice anything out. A later scan therefore never sees
    anything after an earlier operator.
  - In a pipeline the forked child runs the left command and writes into the
    pipe; the original process runs the right command and reads from it
    (shell.c:108-117).
  - `main` never calls `execute_command` (shell.c:399-406). Every non-blank
    line other than `exit` is handed straight to the resolver in a forked
    child, so no builtin is reachable from the loop. `execute_command` is
    still modelled, as the separate function `Dispatch.ExecuteCommand`.
  - When the resolver returns, `execute_command`'s child calls `execvp` once
    more on what `argv` then shows (shell.c:206-207). `Dispatch.Fallback`
    models that second call.
- A pipe's right side starts after the first `|` and runs to the first NULL.
  It may still hold further `|` tokens, which it receives as arguments
  (`Resolver.OnlyFirstPipeSplits`).

## Model

| member | source | states |
|---|---|---|
| `Tokenizer.Run` | shell.c:53-54 | the run at the start of a string is a prefix, contains no space or tab, and ends at a blank or at the end |
| `Tokenizer.WordsAreRuns` | shell.c:48-55 | every word of the reference splitter is non-empty and free of spaces and tabs |
| `Tokenizer.NoWordsIffAllBlank` | shell.c:48-58 | a string has no words exactly when it consists only of spaces and tabs |
| `Tokenizer.StartsExact` | shell.c:49-52 | the recorded offsets are exactly the offsets of a non-blank at the start of the line or after a blank, in strictly increasing order |
| `Tokenizer.SkipToken` | shell.c:53-54 | the inner scan stops at the first blank or NUL after a token start, passes only non-blanks and adds no token start |
| `Tokenizer.TokenizeLine` | shell.c:47-57 | after the loop, every blank of the line is NUL and every other byte is unchanged; `argv[0..n)` holds the token starts in order, `argv[n]` is NULL, and the slots after it are untouched; `n` is the number of tokens |
| `Tokenizer.GetArgs` | shell.c:46-59 | `getargs` returns the token count; `argv` becomes the token starts followed by NULL; the buffer becomes the line with its blanks set to NUL |
| `Tokenizer.BlankedChangesOnlyBlanks` | shell.c:49-50 | tokenizing changes a byte exactly when it is a space or tab of the line, and only into NUL; the C string at offset 0 becomes the first run |
| `Tokenizer.TokensAreWords` | shell.c:46-59 | the non-blank runs at the recorded starts are exactly the words of the line, in order |
| `Tokenizer.GetArgsYieldsWords` | shell.c:46-59 | every recorded offset lies inside the line, and the C strings at them in the tokenized buffer are exactly the words of the line |
| `CStrings.LineAfterCut` | shell.c:393 | writing NUL at an offset inside the line keeps the buffer NUL-terminated and cuts the line there |
| `Resolver.Live` | shell.c:69 | the vector seen by a `for (i = 0; argv[i] != NULL; i++)` scan is the slots before the first NULL |
| `Resolver.Find` | shell.c:69-70 | one scan returns the index of the first slot holding the operator, or the index of the NULL when none does |
| `Resolver.HandleRedirectionAndPipe` | shell.c:62-137 | the outcome is the reference classification of the vector `argv` shows, and `argv` afterwards holds NULL in exactly the slots the reference names, and is otherwise unchanged |
| `Resolver.ResolveInput` | shell.c:68-83 | the input scan refuses on a missing or unopenable file and leaves `argv` unchanged; otherwise it writes NULL over the `<` and continues on the vector before it |
| `Resolver.ResolveOutput` | shell.c:85-100 | the same for the first `>` of what the input scan left |
| `Resolver.ResolvePipe` | shell.c:102-136 | at the first `\|` it writes NULL and forks, left side to the child and right side to the caller; without one it executes what is left with the resolved redirections |
| `Resolver.NoInputRedirection` | shell.c:69-83 | without a `<` the input scan passes the whole vector on, with no input file and nothing cut |
| `Resolver.PipeSplit` | shell.c:103-117 | a pipeline's two sides, joined by the `\|`, give back the scanned vector, and the left side holds no `\|`; without a pipeline the whole vector is executed |
| `Resolver.OutputPrefix` | shell.c:86-100 | the output scan keeps a prefix of its vector, and no `>` reaches an executed command |
| `Resolver.ExecutedPrefix` | shell.c:62-137 | only a prefix of the original vector is executed, and it holds no operator; in a pipeline `writer + ["\|"] + reader` is a prefix, the writer holds no operator, and the reader holds no `<` or `>` |
| `Resolver.PlainRunsAsIs` | shell.c:134-135 | a vector without operators is executed unchanged, with the shell's own streams, and no slot is nulled |
| `Resolver.InputHidesTheRest` | shell.c:80-81 | once the first `<` names a readable file, the tokens after that file have no effect at all |
| `Resolver.OutputHidesTheRest` | shell.c:97-98 | once the first `>` names a writable file, with no `<` present, the tokens after that file have no effect |
| `Resolver.PipeIgnoresInputFile` | shell.c:102-122 | in `l \| r < f` the file is opened, but the pipeline runs `l` into `r` and neither side reads `f` |
| `Resolver.PipeIgnoresOutputFile` | shell.c:92-122 | in `l \| r > g` the file `g` is created and truncated, but the pipeline runs `l` into `r` and nobody writes `g` |
| `Resolver.PipeAt` | shell.c:103-117 | at a first `\|` after `l`, the child runs `l` into the pipe and the caller runs the rest from it, with the `\|` slot nulled |
| `Resolver.PipeStreams` | shell.c:103-122 | a pipeline from the pipe scan connects only the pipe, and reports the resolved files as unused |
| `Resolver.OutputStreams` | shell.c:86-122 | the same through the output scan; an unused output file is reported exactly when its vector holds a `>` |
| `Resolver.PipelineStreams` | shell.c:62-137 | for every vector, a pipeline's writer reads the shell's input and writes the pipe, and its reader reads the pipe and writes the shell's output; an unused input file is reported exactly when the vector holds a `<`, and an unused output file only when it holds a `>` |
| `Resolver.RedirectionWithoutCommand` | shell.c:75-81 | `< f` resolves the file and leaves an empty vector to execute |
| `Resolver.InputCut` | shell.c:75-81 | a readable file after the first `<` hands the vector before it to the output scan, with that slot nulled |
| `Resolver.OutputCut` | shell.c:92-98 | a writable file after the first `>` hands the vector before it to the pipe scan, with that slot nulled |
| `Resolver.NoPipe` | shell.c:124-135 | without a `\|` the pipe scan executes its whole vector with the resolved input and output files |
| `Resolver.BothRedirections` | shell.c:124-135 | `p > g < f …` runs `p` reading `f` and writing `g`, with both operator slots nulled |
| `Resolver.InputFirstDropsOutput` | shell.c:80-100 | `p < f > g` runs `p` reading `f` but writing to the shell's own output; `g` is never opened |
| `Resolver.MissingInputFile` | shell.c:71-74 | a `<` at the end is refused, with nothing written to `argv` |
| `Resolver.UnreadableInputFile` | shell.c:75-79 | an input file that cannot be opened is refused by name, with nothing written to `argv` |
| `Resolver.MissingOutputFile` | shell.c:88-91 | a `>` at the end is refused |
| `Resolver.InputCutSwallowsOutputFile` | shell.c:80-91 | `a > < in` is refused for a missing output file, because the `<` slot was nulled first |
| `Resolver.OnlyFirstPipeSplits` | shell.c:103-117 | `a \| b \| c` runs `a` into `b`, and `b` receives `\|` and `c` as arguments |
| `Resolver.NulledBounds` | shell.c:80-105 | every nulled slot lies inside the visible vector, from where the remaining vector ends |
| `Resolver.LeftIsVisible` | shell.c:204-207 | after the resolver returns, `argv` shows exactly the vector the reference says is left |
| `Dispatch.Lookup` | shell.c:144-201 | a name selects a builtin only when it is that builtin's exact name; no builtin is selected only when no builtin has that name |
| `Dispatch.LookupExact` | shell.c:144-201 | a builtin is selected exactly when the name is one of `cd pwd ls mkdir rmdir ln cp rm mv cat`, and then it is the builtin with that name |
| `Dispatch.UsageIffMissingOperand` | shell.c:220-349 | a handler prints its usage message exactly when a required operand is missing; otherwise it acts on the operands right after the name |
| `Dispatch.ExecuteCommand` | shell.c:140-217 | a builtin runs exactly when the name is a builtin; a spawned child is waited for exactly when not in the background; the result is a fork failure exactly for a non-builtin whose fork fails |
| `Dispatch.SpawnedChildResolves` | shell.c:203-209 | a non-builtin is handed to the resolver in a child, and the fallback `execvp` sees the `argv` the resolver left behind |
| `Dispatch.RefusedThenExecuted` | shell.c:204-209 | `sort <` is refused by the resolver, and then `sort` runs with `<` as its operand |
| `Repl.Chomp` | shell.c:393 | the kept text is a prefix of the line, holds no newline, and is followed by a newline when shorter than the line |
| `Repl.ChompAtFirstNewline` | shell.c:393 | the line is cut exactly at its first newline, whatever follows it |
| `Repl.ChompNoNewline` | shell.c:393 | a line without a newline is kept whole |
| `Repl.ExitIsExact` | shell.c:394-397 | the loop ends exactly when the text before the first newline is `exit` |
| `Repl.BlankLineSkipped` | shell.c:399-400 | a line is skipped exactly when it consists only of spaces and tabs up to its first newline |
| `Repl.EveryCommandGoesToTheResolver` | shell.c:402-406 | any other line is classified, as its words, by the resolver in a forked child |
| `Repl.PaddedExitIsDispatched` | shell.c:393-406 | ` exit` does not end the shell; it is executed as a program named `exit`, while `exit` followed by a newline ends the loop |
| `Repl.BuiltinNotReachedFromLoop` | shell.c:399-406 | from the loop, `cd /tmp` is executed as an external program, although `execute_command` would change directory in the shell |
| `Repl.CutLine` | shell.c:393 | writing NUL where `strcspn` stops keeps the buffer NUL-terminated, changes only that byte, and leaves the line cut at its first newline |
| `Repl.ReplStep` | shell.c:393-411 | one turn of the loop on main's 1024-byte buffer and 100-slot `argv` does what `Route` says for the line in the buffer; on `exit` the buffer is only cut and `argv` is untouched; otherwise the line has fewer than 100 tokens, the buffer is the cut line with its blanks set to NUL, and `argv` holds the token starts followed by NULL, the rest untouched |

## Left out

- Process and descriptor effects are not performed: `open` modes, `pipe`,
  `fork`, `dup2`, `close`, `execvp`, `wait` (shell.c:75, 92, 106-135,
  203-212). The resolver returns what they would be applied to.
- Failures inside the resolver's pipe branch are not modelled. `pipe()` and
  `fork()` go unchecked there (shell.c:106-107), and a failed `fork` makes the
  caller run the right side with no writer.
- Leaked descriptors are not modelled. Files opened for a redirection that a
  pipeline then ignores appear only as `unusedIn`/`unusedOut`.
- What `execvp` does with an empty vector (a NULL `argv[0]`) is not
  modelled. The model produces such an `Image` for an empty side of a
  pipeline (`a |` or `| b`), and for a redirection with no command word
  (`< f` or `> g`; see `Resolver.RedirectionWithoutCommand`).
  `Dispatch.Fallback` hands the same empty vector to `execvp` a second time.
- The signal handlers (shell.c:37-43, 383-384) are not modelled: they only
  print.
- The file-system effects of the builtins are not modelled. Each handler
  becomes an `FsOp` request once its operand check passes. Left out are
  `chdir`, `getcwd`, the directory listing, `mkdir` mode 0755, `rmdir`,
  `link`, `remove`, `rename`, and the copy loops of `cp` and `cat`
  (shell.c:224-373).
- The prompt and the `fgets` call are not modelled (shell.c:386-391), nor is
  end of input. `ReplStep` starts from any NUL-terminated 1024-byte buffer,
  which covers the line `fgets` leaves, including the first 1023 bytes of a
  longer line.
- `argv` slots after the NULL that `getargs` writes are not modelled.
  `ReplStep` shows the resolver an `argv` that ends at that NULL; the
  resolver never reads past it.
- `Tokenizer.GetArgs`: requires fewer tokens than `argv` has slots. The C
  code never checks the bound (shell.c:52, 57), and more than 99 words
  overflow main's `argv`.
- `Repl.ReplStep`: requires fewer than `MaxArg` (100) words on the line, for
  the same reason. A longer line is undefined behaviour in the source.
- `Repl.ReplStep`: the `strcspn` call is modelled by the function `Chomp`,
  not by a loop of its own.
- `Resolver.BothRedirections`: requires the output file name not to be `<`.
  With that name the input scan stops at the file name itself, and the
  lemma does not describe that vector.
