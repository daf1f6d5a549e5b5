/**
 * How the console-command channel of the engine turns what one read returned
 * into console commands: every newline is overwritten with a NUL in place and
 * the C string before it is executed; bytes after the last newline are
 * executed as one more line. The console is an append-only log of the lines
 * it is asked to execute.
 */
module FifoLines {

  newtype byte = x: int | 0 <= x < 256

  const NL: byte := 10
  const NUL: byte := 0

  // ---------------------------------------------------------------------------
  // The splitting rule, stated on values
  // ---------------------------------------------------------------------------

  /** Where the line pending at position `i` of `s` starts: just after the last newline before `i`. */
  function LineStart(s: seq<byte>, i: nat): (r: nat)
    requires i <= |s|
    ensures r <= i
    ensures r > 0 ==> s[r - 1] == NL
  {
    if i == 0 then 0
    else if s[i - 1] == NL then i
    else LineStart(s, i - 1)
  }

  /** The lines that newlines before position `i` terminate, newline excluded, in buffer order. */
  function LinesBefore(s: seq<byte>, i: nat): seq<seq<byte>>
    requires i <= |s|
  {
    if i == 0 then []
    else if s[i - 1] == NL then LinesBefore(s, i - 1) + [s[LineStart(s, i - 1)..i - 1]]
    else LinesBefore(s, i - 1)
  }

  /** The bytes after the last newline of `s`; all of `s` when it has none. */
  function Tail(s: seq<byte>): seq<byte>
  {
    s[LineStart(s, |s|)..]
  }

  /**
   * The lines one chunk is cut into: every line a newline terminates, then
   * the bytes after the last newline when there are any.
   */
  function SplitLines(s: seq<byte>): seq<seq<byte>>
  {
    LinesBefore(s, |s|) + (if Tail(s) != [] then [Tail(s)] else [])
  }

  /** What a `char *` handed to the console denotes: the bytes before the first NUL. */
  function CString(s: seq<byte>): (r: seq<byte>)
    ensures |r| <= |s|
    ensures NUL !in r
  {
    if s == [] || s[0] == NUL then [] else [s[0]] + CString(s[1..])
  }

  /** `lines` joined with newlines between them. */
  function JoinLines(lines: seq<seq<byte>>): seq<byte>
  {
    if |lines| == 0 then []
    else if |lines| == 1 then lines[0]
    else JoinLines(lines[..|lines| - 1]) + [NL] + lines[|lines| - 1]
  }

  /** `lines`, each followed by a newline. */
  function Terminated(lines: seq<seq<byte>>): seq<byte>
  {
    if lines == [] then [] else Terminated(lines[..|lines| - 1]) + lines[|lines| - 1] + [NL]
  }

  // ---------------------------------------------------------------------------
  // The console as a log
  // ---------------------------------------------------------------------------

  /** One `ExecuteLineFlag(line, flag, clientId)` call. */
  datatype Execution = Execution(line: seq<byte>, flag: int, clientId: int)

  /** The executions that dispatching `lines` with `flag` produces, in order. */
  function Executions(lines: seq<seq<byte>>, flag: int): (r: seq<Execution>)
    ensures |r| == |lines|
  {
    if lines == [] then []
    else Executions(lines[..|lines| - 1], flag) + [Execution(CString(lines[|lines| - 1]), flag, -1)]
  }

  /** The command sink: it only records what it is asked to execute. */
  class Console {
    var log: seq<Execution>

    constructor ()
      ensures log == []
    {
      log := [];
    }

    method ExecuteLineFlag(line: seq<byte>, flag: int, clientId: int)
      modifies this
      ensures log == old(log) + [Execution(line, flag, clientId)]
    {
      log := log + [Execution(line, flag, clientId)];
    }
  }

  // ---------------------------------------------------------------------------
  // Lemmas about the splitting rule
  // ---------------------------------------------------------------------------

  lemma {:induction false} LinesBeforeCount(s: seq<byte>, i: nat)
    requires i <= |s|
    ensures |LinesBefore(s, i)| == multiset(s[..i])[NL]
  {
    if i > 0 {
      LinesBeforeCount(s, i - 1);
      assert s[..i] == s[..i - 1] + [s[i - 1]];
    }
  }

  lemma TailEmpty(s: seq<byte>)
    ensures Tail(s) == [] <==> s == [] || s[|s| - 1] == NL
  {
  }

  /**
   * One line per newline of the chunk, plus one exactly when the chunk does
   * not end on a newline.
   */
  lemma SplitLinesCount(s: seq<byte>)
    ensures |SplitLines(s)| == multiset(s)[NL] + (if s != [] && s[|s| - 1] != NL then 1 else 0)
  {
    LinesBeforeCount(s, |s|);
    assert s[..|s|] == s;
    TailEmpty(s);
  }

  lemma {:induction false} PendingHasNoNewline(s: seq<byte>, i: nat)
    requires i <= |s|
    ensures NL !in s[LineStart(s, i)..i]
  {
    if i > 0 && s[i - 1] != NL {
      PendingHasNoNewline(s, i - 1);
      assert s[LineStart(s, i)..i] == s[LineStart(s, i - 1)..i - 1] + [s[i - 1]];
    }
  }

  lemma {:induction false} LinesBeforeHaveNoNewline(s: seq<byte>, i: nat)
    requires i <= |s|
    ensures forall k :: 0 <= k < |LinesBefore(s, i)| ==> NL !in LinesBefore(s, i)[k]
  {
    if i > 0 {
      LinesBeforeHaveNoNewline(s, i - 1);
      PendingHasNoNewline(s, i - 1);
    }
  }

  /** No dispatched line holds a newline, and no line comes from outside the chunk's bytes. */
  lemma SplitLinesHaveNoNewline(s: seq<byte>)
    ensures forall k :: 0 <= k < |SplitLines(s)| ==> NL !in SplitLines(s)[k]
  {
    LinesBeforeHaveNoNewline(s, |s|);
    PendingHasNoNewline(s, |s|);
  }

  lemma {:induction false} TerminatedLinesThenPending(s: seq<byte>, i: nat)
    requires i <= |s|
    ensures Terminated(LinesBefore(s, i)) + s[LineStart(s, i)..i] == s[..i]
  {
    if i > 0 {
      TerminatedLinesThenPending(s, i - 1);
      if s[i - 1] == NL {
        PendingEndsAtNewline(s, i);
      } else {
        PendingGrows(s, i);
      }
    }
  }

  lemma PendingEndsAtNewline(s: seq<byte>, i: nat)
    requires 0 < i <= |s| && s[i - 1] == NL
    requires Terminated(LinesBefore(s, i - 1)) + s[LineStart(s, i - 1)..i - 1] == s[..i - 1]
    ensures Terminated(LinesBefore(s, i)) + s[LineStart(s, i)..i] == s[..i]
  {
    TakeSnoc(s, i - 1);
    TerminatedSnoc(LinesBefore(s, i - 1), s[LineStart(s, i - 1)..i - 1]);
    EmptySliceAppend(Terminated(LinesBefore(s, i)), s, i);
  }

  lemma EmptySliceAppend(a: seq<byte>, s: seq<byte>, i: nat)
    requires i <= |s|
    ensures a + s[i..i] == a
  {
  }

  lemma PendingGrows(s: seq<byte>, i: nat)
    requires 0 < i <= |s| && s[i - 1] != NL
    requires Terminated(LinesBefore(s, i - 1)) + s[LineStart(s, i - 1)..i - 1] == s[..i - 1]
    ensures Terminated(LinesBefore(s, i)) + s[LineStart(s, i)..i] == s[..i]
  {
    TakeSnoc(s, i - 1);
    SnocSlice(s, LineStart(s, i - 1), i - 1);
  }

  lemma TakeSnoc(s: seq<byte>, n: nat)
    requires n < |s|
    ensures s[..n + 1] == s[..n] + [s[n]]
  {
  }

  lemma SnocSlice(s: seq<byte>, lo: nat, hi: nat)
    requires lo <= hi < |s|
    ensures s[lo..hi + 1] == s[lo..hi] + [s[hi]]
  {
  }

  lemma TerminatedSnoc(lines: seq<seq<byte>>, line: seq<byte>)
    ensures Terminated(lines + [line]) == Terminated(lines) + line + [NL]
  {
    assert (lines + [line])[..|lines|] == lines;
  }

  lemma {:induction false} JoinThenNewline(lines: seq<seq<byte>>)
    requires lines != []
    ensures JoinLines(lines) + [NL] == Terminated(lines)
  {
    if |lines| > 1 {
      JoinThenNewline(lines[..|lines| - 1]);
    } else {
      assert lines[..0] == [];
    }
  }

  /**
   * Joining the dispatched lines with newlines gives back the chunk, less one
   * final newline if the chunk ended on one.
   */
  lemma SplitRoundTrip(s: seq<byte>)
    ensures JoinLines(SplitLines(s)) == if s != [] && s[|s| - 1] == NL then s[..|s| - 1] else s
  {
    var ls := LinesBefore(s, |s|);
    TerminatedLinesThenPending(s, |s|);
    assert s[..|s|] == s;
    TailEmpty(s);
    if Tail(s) == [] {
      assert SplitLines(s) == ls;
      if ls != [] {
        JoinThenNewline(ls);
        assert JoinLines(ls) + [NL] == s;
        assert JoinLines(ls) == s[..|s| - 1];
      }
    } else {
      var all := ls + [Tail(s)];
      assert SplitLines(s) == all;
      assert all[..|all| - 1] == ls;
      if ls != [] {
        JoinThenNewline(ls);
        assert JoinLines(all) == JoinLines(ls) + [NL] + Tail(s);
      }
    }
  }

  lemma {:induction false} CStringOfNulFree(s: seq<byte>)
    requires NUL !in s
    ensures CString(s) == s
  {
    if s != [] {
      assert s[0] != NUL;
      CStringOfNulFree(s[1..]);
    }
  }

  lemma {:induction false} CStringStopsAtNul(a: seq<byte>, rest: seq<byte>)
    ensures CString(a + [NUL] + rest) == CString(a)
  {
    if a != [] && a[0] != NUL {
      assert (a + [NUL] + rest)[1..] == a[1..] + [NUL] + rest;
      CStringStopsAtNul(a[1..], rest);
    }
  }

  lemma {:induction false} LinesBeforeOfNulFreeChunk(s: seq<byte>, i: nat)
    requires i <= |s| && NUL !in s
    ensures forall k :: 0 <= k < |LinesBefore(s, i)| ==> NUL !in LinesBefore(s, i)[k]
  {
    if i > 0 {
      LinesBeforeOfNulFreeChunk(s, i - 1);
      assert forall b :: b in s[LineStart(s, i - 1)..i - 1] ==> b in s;
    }
  }

  /** For a chunk without NUL bytes the console receives the split lines themselves. */
  lemma DispatchOfNulFreeChunk(s: seq<byte>, flag: int, k: nat)
    requires NUL !in s && k < |SplitLines(s)|
    ensures Executions(SplitLines(s), flag)[k] == Execution(SplitLines(s)[k], flag, -1)
  {
    LinesBeforeOfNulFreeChunk(s, |s|);
    assert forall b :: b in Tail(s) ==> b in s;
    ExecutionAt(SplitLines(s), flag, k);
    CStringOfNulFree(SplitLines(s)[k]);
  }

  lemma {:induction false} ExecutionAt(lines: seq<seq<byte>>, flag: int, k: nat)
    requires k < |lines|
    ensures Executions(lines, flag)[k] == Execution(CString(lines[k]), flag, -1)
  {
    if k < |lines| - 1 {
      ExecutionAt(lines[..|lines| - 1], flag, k);
    }
  }

  /** A chunk with no newline in it, such as a read cut at the buffer limit, is dispatched whole as one line. */
  lemma ChunkWithoutNewlineIsOneLine(s: seq<byte>)
    requires s != [] && NL !in s
    ensures SplitLines(s) == [s]
  {
    NoLineStartWithoutNewline(s, |s|);
    NoLinesWithoutNewline(s, |s|);
  }

  lemma {:induction false} NoLineStartWithoutNewline(s: seq<byte>, i: nat)
    requires i <= |s| && NL !in s
    ensures LineStart(s, i) == 0
  {
    if i > 0 {
      assert s[i - 1] in s;
      NoLineStartWithoutNewline(s, i - 1);
    }
  }

  lemma {:induction false} NoLinesWithoutNewline(s: seq<byte>, i: nat)
    requires i <= |s| && NL !in s
    ensures LinesBefore(s, i) == []
  {
    if i > 0 {
      assert s[i - 1] in s;
      NoLinesWithoutNewline(s, i - 1);
    }
  }

  lemma ExecutionsStep(lines: seq<seq<byte>>, line: seq<byte>, flag: int)
    ensures Executions(lines + [line], flag) == Executions(lines, flag) + [Execution(CString(line), flag, -1)]
  {
    assert (lines + [line])[..|lines|] == lines;
  }

  /** Passing a newline completes the pending line and moves the line start past it. */
  lemma LogStepAtNewline(log0: seq<Execution>, s: seq<byte>, i: nat, flag: int)
    requires i < |s| && s[i] == NL
    ensures LineStart(s, i + 1) == i + 1
    ensures log0 + Executions(LinesBefore(s, i + 1), flag)
         == (log0 + Executions(LinesBefore(s, i), flag)) + [Execution(CString(s[LineStart(s, i)..i]), flag, -1)]
  {
    ExecutionsStep(LinesBefore(s, i), s[LineStart(s, i)..i], flag);
  }

  /** Passing any other byte leaves the completed lines and the line start alone. */
  lemma LogStepPastByte(s: seq<byte>, i: nat)
    requires i < |s| && s[i] != NL
    ensures LineStart(s, i + 1) == LineStart(s, i)
    ensures LinesBefore(s, i + 1) == LinesBefore(s, i)
  {
  }

  // ---------------------------------------------------------------------------
  // The splitting loop, in place on the read buffer
  // ---------------------------------------------------------------------------

  /** What the scan leaves in the buffer in place of byte `b`. */
  function Blanked(b: byte): byte
  {
    if b == NL then NUL else b
  }

  /**
   * The code after the read in both `Update` branches: `buf[..length]` holds
   * the bytes read and `buf[length]` the NUL written after them. The loop
   * overwrites each newline with NUL and executes the C string from the cursor
   * to it, then moves the cursor past it; a tail left after the last newline
   * is executed last.
   */
  method DispatchLines(buf: array<byte>, length: nat, console: Console, flag: int)
    requires length < buf.Length && buf[length] == NUL
    modifies buf, console
    ensures console.log == old(console.log) + Executions(SplitLines(old(buf[..length])), flag)
    ensures forall k :: 0 <= k < length ==> buf[k] == Blanked(old(buf[k]))
    ensures forall k :: length <= k < buf.Length ==> buf[k] == old(buf[k])
  {
    ghost var chunk := buf[..length];
    ghost var log0 := console.log;
    var cur := DispatchTerminatedLines(buf, length, console, flag);
    assert console.log == log0 + Executions(LinesBefore(chunk, length), flag);
    if cur < length {
      // the last line had no newline
      LineAtCursor(buf[..], chunk, length);
      ExecutionsStep(LinesBefore(chunk, length), Tail(chunk), flag);
      console.ExecuteLineFlag(CString(buf[cur..]), flag, -1);
      assert Tail(chunk) == chunk[cur..length] != [];
    } else {
      assert Tail(chunk) == [];
      assert SplitLines(chunk) == LinesBefore(chunk, length);
    }
  }

  /**
   * The scan loop of `DispatchLines`: it returns the cursor, which then marks
   * the start of the bytes after the last newline.
   */
  method DispatchTerminatedLines(buf: array<byte>, length: nat, console: Console, flag: int) returns (cur: nat)
    requires length < buf.Length && buf[length] == NUL
    modifies buf, console
    ensures cur == LineStart(old(buf[..length]), length)
    ensures console.log == old(console.log) + Executions(LinesBefore(old(buf[..length]), length), flag)
    ensures forall k :: 0 <= k < length ==> buf[k] == Blanked(old(buf[k]))
    ensures forall k :: length <= k < buf.Length ==> buf[k] == old(buf[k])
  {
    ghost var chunk := buf[..length];
    ghost var log0 := console.log;
    ghost var b0 := buf[..];
    ghost var b := b0;
    cur := 0;
    var i := 0;
    while i < length
      invariant i <= length && buf[..] == b
      invariant ScannedTo(b, b0, chunk, i)
      invariant cur == LineStart(chunk, i)
      invariant console.log == log0 + Executions(LinesBefore(chunk, i), flag)
    {
      ScanReads(b, b0, chunk, i);
      if buf[i] == NL {
        b := ExecuteAtNewline(buf, cur, i, console, flag, chunk, b0, b);
        LogStepAtNewline(log0, chunk, i, flag);
        cur := i + 1;
      } else {
        ScanPast(b, b0, chunk, i);
        LogStepPastByte(chunk, i);
      }
      i := i + 1;
    }
    ScannedToEnd(b, b0, chunk);
  }

  /** The body of the scan loop at a newline: blank it and execute the line before it. */
  method ExecuteAtNewline(buf: array<byte>, cur: nat, i: nat, console: Console, flag: int,
                          ghost chunk: seq<byte>, ghost b0: seq<byte>, ghost b: seq<byte>)
    returns (ghost b': seq<byte>)
    requires buf[..] == b && ScannedTo(b, b0, chunk, i)
    requires i < |chunk| && chunk[i] == NL && cur == LineStart(chunk, i)
    modifies buf, console
    ensures buf[..] == b' && ScannedTo(b', b0, chunk, i + 1)
    ensures console.log == old(console.log) + [Execution(CString(chunk[LineStart(chunk, i)..i]), flag, -1)]
  {
    buf[i] := NUL;
    b' := BlankAt(b, b0, chunk, i);
    console.ExecuteLineFlag(CString(buf[cur..]), flag, -1);
  }

  /**
   * The buffer `b` after the scan has passed position `i`: it started as
   * `b0`, whose first bytes are `chunk`; every newline before `i` is now a
   * NUL and nothing else differs.
   */
  ghost predicate ScannedTo(b: seq<byte>, b0: seq<byte>, chunk: seq<byte>, i: nat)
  {
    i <= |chunk| < |b0| == |b| && chunk == b0[..|chunk|] && b0[|chunk|] == NUL
    && (forall k :: 0 <= k < i ==> b[k] == Blanked(chunk[k]))
    && (forall k :: i <= k < |b| ==> b[k] == b0[k])
  }

  lemma ScanReads(b: seq<byte>, b0: seq<byte>, chunk: seq<byte>, i: nat)
    requires ScannedTo(b, b0, chunk, i) && i < |chunk|
    ensures b[i] == chunk[i]
  {
    assert chunk[i] == b0[..|chunk|][i];
  }

  lemma ScanPast(b: seq<byte>, b0: seq<byte>, chunk: seq<byte>, i: nat)
    requires ScannedTo(b, b0, chunk, i) && i < |chunk| && chunk[i] != NL
    ensures ScannedTo(b, b0, chunk, i + 1)
  {
    ScanReads(b, b0, chunk, i);
  }

  /**
   * Overwriting the newline at `i` with a NUL: the buffer is scanned one
   * byte further, and the C string at the cursor is the pending line.
   */
  lemma BlankAt(b: seq<byte>, b0: seq<byte>, chunk: seq<byte>, i: nat) returns (b': seq<byte>)
    requires ScannedTo(b, b0, chunk, i) && i < |chunk| && chunk[i] == NL
    ensures b' == b[i := NUL]
    ensures ScannedTo(b', b0, chunk, i + 1)
    ensures CString(b'[LineStart(chunk, i)..]) == CString(chunk[LineStart(chunk, i)..i])
  {
    ScanReads(b, b0, chunk, i);
    b' := b[i := NUL];
    LineAtCursor(b', chunk, i);
  }

  lemma ScannedToEnd(b: seq<byte>, b0: seq<byte>, chunk: seq<byte>)
    requires ScannedTo(b, b0, chunk, |chunk|)
    ensures forall k :: 0 <= k < |chunk| ==> b[k] == Blanked(b0[k])
    ensures forall k :: |chunk| <= k < |b| ==> b[k] == b0[k]
  {
    forall k | 0 <= k < |chunk|
      ensures b[k] == Blanked(b0[k])
    {
      assert chunk[k] == b0[..|chunk|][k];
    }
  }

  /**
   * When the scan reaches position `i` of the chunk and a NUL stands there in
   * the buffer, the C string at the cursor is the pending line's.
   */
  lemma LineAtCursor(b: seq<byte>, chunk: seq<byte>, i: nat)
    requires i <= |chunk| && i < |b| && b[i] == NUL
    requires forall k :: 0 <= k < i ==> b[k] == Blanked(chunk[k])
    ensures CString(b[LineStart(chunk, i)..]) == CString(chunk[LineStart(chunk, i)..i])
  {
    var cur := LineStart(chunk, i);
    var line := chunk[cur..i];
    PendingHasNoNewline(chunk, i);
    UnblankedSlice(b, chunk, cur, i);
    SliceAround(b, cur, i);
    CStringStopsAtNul(line, b[i + 1..]);
  }

  lemma SliceAround(b: seq<byte>, lo: nat, i: nat)
    requires lo <= i < |b|
    ensures b[lo..] == b[lo..i] + [b[i]] + b[i + 1..]
  {
  }

  /** A stretch without newlines reads the same in the scanned buffer as in the chunk. */
  lemma UnblankedSlice(b: seq<byte>, chunk: seq<byte>, lo: nat, hi: nat)
    requires lo <= hi <= |chunk| && hi <= |b|
    requires NL !in chunk[lo..hi]
    requires forall k :: 0 <= k < hi ==> b[k] == Blanked(chunk[k])
    ensures b[lo..hi] == chunk[lo..hi]
  {
    forall k | lo <= k < hi
      ensures b[k] == chunk[k]
    {
      assert chunk[k] == chunk[lo..hi][k - lo];
    }
  }
}
