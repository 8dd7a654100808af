/**
 * C strings inside fixed character buffers: a buffer holds a string up to
 * its first NUL character, and a `char *` into it denotes the characters from
 * that offset up to the next NUL.
 */
module CStrings {

  /** Space and tab are the only separators the shell knows. */
  predicate IsBlank(c: char) {
    c == ' ' || c == '\t'
  }

  /** The buffer holds at least one NUL, so every C string in it ends inside it. */
  predicate NulTerminated(b: seq<char>) {
    exists k :: 0 <= k < |b| && b[k] == '\0'
  }

  /** The C string that starts at offset `i` of buffer `b`. */
  function CString(b: seq<char>, i: nat): (r: string)
    ensures i + |r| <= |b| || r == []
    ensures r == [] || r == b[i..i + |r|]
    ensures '\0' !in r
    ensures i + |r| < |b| ==> b[i + |r|] == '\0'
    decreases |b| - i
  {
    if i >= |b| || b[i] == '\0' then [] else [b[i]] + CString(b, i + 1)
  }

  /** The line a buffer holds: the C string at its start. */
  function Line(b: seq<char>): string {
    CString(b, 0)
  }

  /** A C string that starts before a NUL of the buffer ends at a NUL inside the buffer. */
  lemma {:induction false} CStringEndsInside(b: seq<char>, i: nat, k: nat)
    requires i <= k < |b| && b[k] == '\0'
    ensures i + |CString(b, i)| <= k
    decreases k - i
  {
    if b[i] != '\0' {
      CStringEndsInside(b, i + 1, k);
    }
  }

  /** In a NUL-terminated buffer the line is followed by a NUL. */
  lemma LineInside(b: seq<char>)
    requires NulTerminated(b)
    ensures |Line(b)| < |b| && b[|Line(b)|] == '\0'
    ensures Line(b) == b[..|Line(b)|]
    ensures '\0' !in Line(b)
  {
    var k :| 0 <= k < |b| && b[k] == '\0';
    CStringEndsInside(b, 0, k);
  }

  /** Writing a NUL inside the line cuts the line there and keeps the buffer NUL-terminated. */
  lemma LineAfterCut(b: seq<char>, cut: nat)
    requires NulTerminated(b) && cut <= |Line(b)|
    ensures cut < |b| && NulTerminated(b[cut := '\0'])
    ensures Line(b[cut := '\0']) == Line(b)[..cut]
  {
    LineInside(b);
    var b' := b[cut := '\0'];
    CStringEndsInside(b', 0, cut);
  }
}
