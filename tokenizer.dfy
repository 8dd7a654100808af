/**
 * The tokenizer `getargs` (shell.c:46-59): it walks the line buffer in place,
 * overwrites every space and tab of the line with NUL, records in `argv` where
 * each maximal run of other characters starts, and ends `argv` with NULL.
 *
 * `argv` is an array of offsets into the buffer; -1 stands for NULL.
 */
module Tokenizer {
  import opened CStrings

  // ---------------------------------------------------------------------------
  // Reference definition: splitting a string into its whitespace-separated words
  // ---------------------------------------------------------------------------

  /** The longest blank-free prefix of `s`. */
  function Run(s: string): (r: string)
    ensures r <= s
    ensures forall k :: 0 <= k < |r| ==> !IsBlank(s[k])
    ensures |r| == |s| || IsBlank(s[|r|])
  {
    if s == [] || IsBlank(s[0]) then [] else [s[0]] + Run(s[1..])
  }

  /** The words of `s`: its maximal blank-free runs, left to right. */
  function Words(s: string): seq<string>
    decreases |s|
  {
    if s == [] then []
    else if IsBlank(s[0]) then Words(s[1..])
    else
      var w := Run(s);
      [w] + Words(s[|w|..])
  }

  /** Every word is a non-empty run of non-blanks taken from `s`. */
  lemma {:induction false} WordsAreRuns(s: string)
    ensures forall k :: 0 <= k < |Words(s)| ==> Words(s)[k] != []
    ensures forall k, j :: 0 <= k < |Words(s)| && 0 <= j < |Words(s)[k]| ==> !IsBlank(Words(s)[k][j])
    decreases |s|
  {
    if s != [] {
      if IsBlank(s[0]) {
        WordsAreRuns(s[1..]);
      } else {
        WordsAreRuns(s[|Run(s)|..]);
      }
    }
  }

  /** A string that starts with a non-blank begins with the run there as its first word. */
  lemma WordsOfWordStart(t: string)
    requires t != [] && !IsBlank(t[0])
    ensures Words(t) == [Run(t)] + Words(t[|Run(t)|..])
  {
  }

  /** A run of non-blanks followed by a blank. */
  lemma RunOfWord(w: string, s: string)
    requires w != [] && (forall k :: 0 <= k < |w| ==> !IsBlank(w[k]))
    requires s != [] && IsBlank(s[0])
    ensures Run(w + s) == w
    decreases |w|
  {
    if |w| > 1 {
      assert (w + s)[1..] == w[1..] + s;
      RunOfWord(w[1..], s);
    }
  }

  /** The words of a two-word line. */
  lemma TwoWords(x: string, y: string)
    requires x != [] && (forall k :: 0 <= k < |x| ==> !IsBlank(x[k]))
    requires y != [] && (forall k :: 0 <= k < |y| ==> !IsBlank(y[k]))
    ensures Words(x + " " + y) == [x, y]
  {
    var s := x + " " + y;
    RunOfWord(x, " " + y);
    assert s == x + (" " + y);
    WordsOfWordStart(s);
    assert s[|x|..] == " " + y;
    assert (" " + y)[1..] == y;
    assert y == y + [];
    WordsAreRuns(y);
    assert Run(y) == y by {
      RunAll(y);
    }
    WordsOfWordStart(y);
    assert y[|y|..] == [];
  }

  /** A blank-free string is its own run. */
  lemma RunAll(y: string)
    requires forall k :: 0 <= k < |y| ==> !IsBlank(y[k])
    ensures Run(y) == y
    decreases |y|
  {
    if y != [] {
      RunAll(y[1..]);
    }
  }

  /** A blank-free word on its own. */
  lemma OneWord(w: string)
    requires w != [] && forall k :: 0 <= k < |w| ==> !IsBlank(w[k])
    ensures Words(w) == [w]
  {
    RunAll(w);
    WordsOfWordStart(w);
    assert w[|w|..] == [];
  }

  /** A string has no words exactly when it is made of blanks only. */
  lemma {:induction false} NoWordsIffAllBlank(s: string)
    ensures Words(s) == [] <==> forall k :: 0 <= k < |s| ==> IsBlank(s[k])
    decreases |s|
  {
    if s != [] {
      NoWordsIffAllBlank(s[1..]);
      if IsBlank(s[0]) {
        assert forall k :: 1 <= k < |s| ==> s[k] == s[1..][k - 1];
      }
    }
  }

  // ---------------------------------------------------------------------------
  // Where the tokens start
  // ---------------------------------------------------------------------------

  /** Offset `i` starts a token: a non-blank at the start of the line or after a blank. */
  predicate IsStart(s: string, i: int) {
    0 <= i < |s| && !IsBlank(s[i]) && (i == 0 || IsBlank(s[i - 1]))
  }

  /** The token starts in [lo, hi), in increasing order. */
  function StartsBetween(s: string, lo: nat, hi: nat): (r: seq<int>)
    requires hi <= |s|
    ensures forall k :: 0 <= k < |r| ==> lo <= r[k] < hi
    decreases hi
  {
    if hi <= lo then []
    else StartsBetween(s, lo, hi - 1) + (if IsStart(s, hi - 1) then [hi - 1] else [])
  }

  /** All token starts of the line. */
  function Starts(s: string): seq<int> {
    StartsBetween(s, 0, |s|)
  }

  /** The starts in [lo, hi) are exactly the token starts there, strictly increasing. */
  lemma {:induction false} StartsBetweenExact(s: string, lo: nat, hi: nat)
    requires hi <= |s|
    ensures forall i :: i in StartsBetween(s, lo, hi) <==> lo <= i < hi && IsStart(s, i)
    ensures forall k, j :: 0 <= k < j < |StartsBetween(s, lo, hi)| ==>
      StartsBetween(s, lo, hi)[k] < StartsBetween(s, lo, hi)[j]
    decreases hi
  {
    if hi > lo {
      StartsBetweenExact(s, lo, hi - 1);
    }
  }

  /** The token starts of a line are exactly the offsets satisfying IsStart, in order. */
  lemma StartsExact(s: string)
    ensures forall i :: i in Starts(s) <==> IsStart(s, i)
    ensures forall k, j :: 0 <= k < j < |Starts(s)| ==> Starts(s)[k] < Starts(s)[j]
  {
    StartsBetweenExact(s, 0, |s|);
  }

  /** Starts in [lo, hi) are those in [lo, m) followed by those in [m, hi). */
  lemma {:induction false} StartsSplit(s: string, lo: nat, m: nat, hi: nat)
    requires lo <= m <= hi <= |s|
    ensures StartsBetween(s, lo, hi) == StartsBetween(s, lo, m) + StartsBetween(s, m, hi)
    decreases hi
  {
    if hi > m {
      StartsSplit(s, lo, m, hi - 1);
    }
  }

  /** A blank adds no start. */
  lemma BlankStep(s: string, p: nat)
    requires p < |s| && IsBlank(s[p])
    ensures StartsBetween(s, 0, p + 1) == StartsBetween(s, 0, p)
  {
  }

  /** A non-blank at the line's start or after a blank adds itself as the next start. */
  lemma StartStep(s: string, p: nat)
    requires p < |s| && !IsBlank(s[p]) && (p == 0 || IsBlank(s[p - 1]))
    ensures StartsBetween(s, 0, p + 1) == StartsBetween(s, 0, p) + [p]
    ensures |StartsBetween(s, 0, p + 1)| <= |Starts(s)|
  {
    StartsSplit(s, 0, p + 1, |s|);
  }

  // ---------------------------------------------------------------------------
  // The buffer after tokenizing
  // ---------------------------------------------------------------------------

  /** What tokenizing makes of one character of the line: a blank becomes NUL. */
  function Tokenized(c: char): char {
    if IsBlank(c) then '\0' else c
  }

  /** The buffer once the scan has passed offset `p`: every blank before `p` is NUL. */
  function Scanned(b: seq<char>, p: nat): (r: seq<char>)
    ensures |r| == |b|
  {
    seq(|b|, j requires 0 <= j < |b| => if j < p then Tokenized(b[j]) else b[j])
  }

  /** The buffer with every blank of its line replaced by NUL. */
  function Blanked(b: seq<char>): seq<char> {
    Scanned(b, |Line(b)|)
  }

  /** Passing a blank at `p` writes NUL there. */
  lemma ScannedBlank(b: seq<char>, p: nat)
    requires p < |b| && IsBlank(b[p])
    ensures Scanned(b, p)[p := '\0'] == Scanned(b, p + 1)
  {
  }

  /** Passing characters that are not blanks writes nothing. */
  lemma ScannedRun(b: seq<char>, p: nat, q: nat)
    requires p <= q <= |b|
    requires forall j :: p <= j < q ==> !IsBlank(b[j])
    ensures Scanned(b, q) == Scanned(b, p)
  {
  }

  /** `argv` once the offsets `ps` have been stored in its first slots. */
  function Recorded(a: seq<int>, ps: seq<int>): (r: seq<int>)
    requires |ps| <= |a|
    ensures |r| == |a| && r[..|ps|] == ps && r[|ps|..] == a[|ps|..]
  {
    ps + a[|ps|..]
  }

  /** Storing one more offset in the next free slot. */
  lemma RecordedNext(a: seq<int>, ps: seq<int>, p: int)
    requires |ps| < |a|
    ensures Recorded(a, ps)[|ps| := p] == Recorded(a, ps + [p])
  {
  }

  /** The strings the `char *` offsets `ps` denote in buffer `b`. */
  function ArgStrings(b: seq<char>, ps: seq<int>): seq<string>
    requires forall k :: 0 <= k < |ps| ==> ps[k] >= 0
  {
    seq(|ps|, k requires 0 <= k < |ps| => CString(b, ps[k]))
  }

  /** Tokenizing changes only the blanks of the line, each into NUL. */
  lemma BlankedChangesOnlyBlanks(b: seq<char>)
    requires NulTerminated(b)
    ensures forall j :: 0 <= j < |b| ==>
      (Blanked(b)[j] == b[j] <==> !(j < |Line(b)| && IsBlank(b[j])))
    ensures forall j :: 0 <= j < |b| && Blanked(b)[j] != b[j] ==> IsBlank(b[j]) && Blanked(b)[j] == '\0'
    ensures Line(Blanked(b)) == Run(Line(b))
  {
    LineInside(b);
    BlankedCString(b, 0);
    assert Line(b)[0..] == Line(b);
  }

  /** After tokenizing, the C string at any offset of the line is the run of non-blanks there. */
  lemma {:induction false} BlankedCString(b: seq<char>, i: nat)
    requires NulTerminated(b) && i <= |Line(b)|
    ensures CString(Blanked(b), i) == Run(Line(b)[i..])
    decreases |Line(b)| - i
  {
    var s := Line(b);
    LineInside(b);
    var bb := Blanked(b);
    if i == |s| {
      assert bb[i] == '\0';
    } else if IsBlank(s[i]) {
      assert bb[i] == '\0';
    } else {
      assert bb[i] == s[i] != '\0';
      BlankedCString(b, i + 1);
      assert s[i..][1..] == s[i + 1..];
    }
  }

  /** Inside a run of non-blanks that begins at `lo`, no offset after `lo` starts a token. */
  lemma {:induction false} NoStartsInsideRun(s: string, lo: nat, hi: nat)
    requires lo < hi <= |s|
    requires forall j :: lo <= j < hi ==> !IsBlank(s[j])
    ensures StartsBetween(s, lo + 1, hi) == []
    decreases hi
  {
    if hi > lo + 1 {
      NoStartsInsideRun(s, lo, hi - 1);
      assert !IsBlank(s[hi - 2]);
    }
  }

  /** Where the run of non-blanks that begins at `lo` ends. */
  function RunEnd(s: string, lo: nat): nat
    requires lo <= |s|
  {
    lo + |Run(s[lo..])|
  }

  /** The run at `lo` covers only non-blanks and ends at a blank or the end of `s`. */
  lemma RunEndFacts(s: string, lo: nat)
    requires lo <= |s|
    ensures lo <= RunEnd(s, lo) <= |s|
    ensures lo < |s| && !IsBlank(s[lo]) ==> lo < RunEnd(s, lo)
    ensures RunEnd(s, lo) == |s| || IsBlank(s[RunEnd(s, lo)])
    ensures forall j :: lo <= j < RunEnd(s, lo) ==> !IsBlank(s[j])
    ensures s[lo..][|Run(s[lo..])|..] == s[RunEnd(s, lo)..]
  {
    var w := Run(s[lo..]);
    forall j | lo <= j < lo + |w|
      ensures !IsBlank(s[j])
    {
      assert s[j] == s[lo..][j - lo];
    }
    if lo + |w| < |s| {
      assert s[lo + |w|] == s[lo..][|w|];
    }
  }

  /** A token that starts at `lo` is followed by no other start up to `e`, while non-blanks last. */
  lemma StartsAfterRun(s: string, lo: nat, e: nat)
    requires IsStart(s, lo) && lo < e <= |s|
    requires forall j :: lo <= j < e ==> !IsBlank(s[j])
    ensures StartsBetween(s, lo, |s|) == [lo] + StartsBetween(s, e, |s|)
  {
    StartsSplit(s, lo, lo + 1, |s|);
    StartsSplit(s, lo + 1, e, |s|);
    NoStartsInsideRun(s, lo, e);
    StartsAtStart(s, lo);
    assert [] + StartsBetween(s, e, |s|) == StartsBetween(s, e, |s|);
  }

  /** A start on its own. */
  lemma StartsAtStart(s: string, lo: nat)
    requires IsStart(s, lo)
    ensures StartsBetween(s, lo, lo + 1) == [lo]
  {
    assert StartsBetween(s, lo, lo) == [];
  }

  /** The runs of non-blanks of `s` that begin at the offsets `ps`. */
  function RunsAt(s: string, ps: seq<int>): seq<string>
    requires forall k :: 0 <= k < |ps| ==> 0 <= ps[k] <= |s|
  {
    seq(|ps|, k requires 0 <= k < |ps| => Run(s[ps[k]..]))
  }

  /** The runs at `[p] + ps` are the run at `p` followed by those at `ps`. */
  lemma RunsAtCons(s: string, p: nat, ps: seq<int>)
    requires p <= |s|
    requires forall k :: 0 <= k < |ps| ==> 0 <= ps[k] <= |s|
    ensures RunsAt(s, [p] + ps) == [Run(s[p..])] + RunsAt(s, ps)
  {
  }

  /**
   * From a word boundary `lo` on, the runs at the token starts are the words of
   * the rest of `s`.
   */
  lemma {:induction false} RunsFrom(s: string, lo: nat)
    requires lo <= |s|
    requires lo == 0 || lo == |s| || IsBlank(s[lo - 1]) || IsBlank(s[lo])
    ensures RunsAt(s, StartsBetween(s, lo, |s|)) == Words(s[lo..])
    decreases |s| - lo, 1
  {
    if lo == |s| {
      assert s[lo..] == [];
    } else if IsBlank(s[lo]) {
      RunsFromBlank(s, lo);
    } else {
      RunsFromStart(s, lo);
    }
  }

  /** RunsFrom at a blank: the blank holds no token and is skipped. */
  lemma {:induction false} RunsFromBlank(s: string, lo: nat)
    requires lo < |s| && IsBlank(s[lo])
    ensures RunsAt(s, StartsBetween(s, lo, |s|)) == Words(s[lo..])
    decreases |s| - lo, 0
  {
    StartsSplit(s, lo, lo + 1, |s|);
    assert StartsBetween(s, lo, lo + 1) == [];
    assert StartsBetween(s, lo, |s|) == StartsBetween(s, lo + 1, |s|);
    assert s[lo..][1..] == s[lo + 1..];
    assert Words(s[lo..]) == Words(s[lo + 1..]);
    RunsFrom(s, lo + 1);
  }

  /** RunsFrom at a token start: the run there, then the words after it. */
  lemma {:induction false} RunsFromStart(s: string, lo: nat)
    requires IsStart(s, lo)
    ensures RunsAt(s, StartsBetween(s, lo, |s|)) == Words(s[lo..])
    decreases |s| - lo, 0
  {
    RunEndFacts(s, lo);
    var w := Run(s[lo..]);
    var e := RunEnd(s, lo);
    StartsAfterRun(s, lo, e);
    var rest := StartsBetween(s, e, |s|);
    RunsFrom(s, e);
    WordsOfWordStart(s[lo..]);
    RunsAtCons(s, lo, rest);
    calc {
      RunsAt(s, StartsBetween(s, lo, |s|));
      RunsAt(s, [lo] + rest);
      [w] + RunsAt(s, rest);
      [w] + Words(s[e..]);
      Words(s[lo..]);
    }
  }

  /** The runs at the token starts of a line are exactly its words. */
  lemma TokensAreWords(s: string)
    ensures RunsAt(s, Starts(s)) == Words(s)
  {
    RunsFrom(s, 0);
    assert s[0..] == s;
  }

  /** After tokenizing, the strings at offsets inside the line are the runs there. */
  lemma BlankedArgStrings(b: seq<char>, ps: seq<int>)
    requires NulTerminated(b)
    requires forall k :: 0 <= k < |ps| ==> 0 <= ps[k] <= |Line(b)|
    ensures ArgStrings(Blanked(b), ps) == RunsAt(Line(b), ps)
  {
    forall k | 0 <= k < |ps|
      ensures ArgStrings(Blanked(b), ps)[k] == RunsAt(Line(b), ps)[k]
    {
      BlankedCString(b, ps[k]);
    }
  }

  // ---------------------------------------------------------------------------
  // getargs
  // ---------------------------------------------------------------------------

  /**
   * The inner scan of getargs (shell.c:53-54): from offset `p` inside a token,
   * advance to the NUL or blank that ends it. Nothing is written.
   */
  method SkipToken(buf: array<char>, p: nat, ghost s: string) returns (q: nat)
    requires |s| < buf.Length && buf[|s|] == '\0' && '\0' !in s
    requires forall j :: p <= j < |s| ==> buf[j] == s[j]
    requires 0 < p <= |s| && !IsBlank(s[p - 1])
    ensures p <= q <= |s| && (q == |s| || IsBlank(s[q]))
    ensures forall j :: p <= j < q ==> !IsBlank(s[j])
    ensures StartsBetween(s, 0, q) == StartsBetween(s, 0, p)
  {
    q := p;
    while buf[q] != '\0' && buf[q] != ' ' && buf[q] != '\t'
      invariant p <= q <= |s| && !IsBlank(s[q - 1])
      invariant forall j :: p <= j < q ==> !IsBlank(s[j])
      invariant StartsBetween(s, 0, q) == StartsBetween(s, 0, p)
      decreases |s| - q
    {
      q := q + 1;
    }
  }

  /**
   * The loop of getargs (shell.c:47-57) over a buffer that holds the line `s`
   * before its NUL: blanks become NUL, token starts go to `argv`, NULL follows.
   */
  method TokenizeLine(buf: array<char>, argv: array<int>, ghost s: string) returns (n: nat)
    requires |s| < buf.Length && buf[|s|] == '\0' && '\0' !in s
    requires forall j :: 0 <= j < |s| ==> buf[j] == s[j]
    requires |Starts(s)| < argv.Length
    modifies buf, argv
    ensures n == |Starts(s)|
    ensures forall j :: 0 <= j < |s| ==> buf[j] == Tokenized(s[j])
    ensures forall j :: |s| <= j < buf.Length ==> buf[j] == old(buf[j])
    ensures forall k :: 0 <= k < n ==> argv[k] == Starts(s)[k]
    ensures argv[n] == -1
    ensures forall k :: n < k < argv.Length ==> argv[k] == old(argv[k])
  {
    var p := 0;
    n := 0;
    while buf[p] != '\0'
      invariant 0 <= p <= |s|
      invariant forall j :: 0 <= j < p ==> buf[j] == Tokenized(s[j])
      invariant forall j :: p <= j < |s| ==> buf[j] == s[j]
      invariant forall j :: |s| <= j < buf.Length ==> buf[j] == old(buf[j])
      invariant n == |StartsBetween(s, 0, p)| <= |Starts(s)|
      invariant forall k :: 0 <= k < n ==> argv[k] == StartsBetween(s, 0, p)[k]
      invariant forall k :: n <= k < argv.Length ==> argv[k] == old(argv[k])
      invariant 0 < p < |s| ==> IsBlank(s[p - 1]) || IsBlank(s[p])
      decreases |s| - p
    {
      if buf[p] == ' ' || buf[p] == '\t' {
        BlankStep(s, p);
        buf[p] := '\0';
        p := p + 1;
      } else {
        StartStep(s, p);
        argv[n] := p;
        n := n + 1;
        p := SkipToken(buf, p + 1, s);
      }
    }
    argv[n] := -1;
  }

  /**
   * getargs (shell.c:46-59). The caller must leave room for every token and the
   * NULL after them: the source never checks the bound of `argv`.
   */
  method GetArgs(buf: array<char>, argv: array<int>) returns (n: nat)
    requires NulTerminated(buf[..])
    requires |Starts(Line(buf[..]))| < argv.Length
    modifies buf, argv
    ensures n == |Starts(Line(old(buf[..])))|
    ensures argv[..] == Recorded(old(argv[..]), Starts(Line(old(buf[..]))) + [-1])
    ensures buf[..] == Blanked(old(buf[..]))
  {
    ghost var b0, a0 := buf[..], argv[..];
    LineInside(b0);
    n := TokenizeLine(buf, argv, Line(b0));
    GetArgsFinal(b0, buf[..], a0, argv[..], n);
  }

  /** The loop's pointwise description of the final state, as whole sequences. */
  lemma GetArgsFinal(b0: seq<char>, b: seq<char>, a0: seq<int>, a: seq<int>, n: nat)
    requires NulTerminated(b0) && |b| == |b0| && |a| == |a0|
    requires n == |Starts(Line(b0))| < |a|
    requires forall j :: 0 <= j < |Line(b0)| ==> b[j] == Tokenized(Line(b0)[j])
    requires forall j :: |Line(b0)| <= j < |b| ==> b[j] == b0[j]
    requires forall k :: 0 <= k < n ==> a[k] == Starts(Line(b0))[k]
    requires a[n] == -1
    requires forall k :: n < k < |a| ==> a[k] == a0[k]
    ensures a == Recorded(a0, Starts(Line(b0)) + [-1])
    ensures b == Blanked(b0)
  {
    LineInside(b0);
  }

  /**
   * What getargs leaves behind: the C strings at the recorded offsets of the
   * tokenized buffer are exactly the words of the line, in order.
   */
  lemma GetArgsYieldsWords(b: seq<char>)
    requires NulTerminated(b)
    ensures forall k :: 0 <= k < |Starts(Line(b))| ==> 0 <= Starts(Line(b))[k] < |Line(b)|
    ensures ArgStrings(Blanked(b), Starts(Line(b))) == Words(Line(b))
  {
    TokensAreWords(Line(b));
    BlankedArgStrings(b, Starts(Line(b)));
  }
}
