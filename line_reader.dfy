/**
 * What physlock's `prompt` reads into its 1024-byte line buffer.
 *
 * The console is a stream of reads. A read yields a character, end of file,
 * a failure, or an interruption by a signal (`EINTR`), which is retried.
 * The line ends at the first newline, end of file or failure. NUL characters
 * are skipped, and characters beyond the buffer's capacity are read and
 * dropped.
 */
module LineReader {

  /** `sizeof(buf)`: one byte of it is always left for the terminating NUL. */
  const BufSize: nat := 1024

  /** One call of `fgetc`; a `Char` is one byte of the stream. `Eof` and
      `Failed` both return `EOF`; `Failed` also sets the stream's error
      indicator. `Interrupted` is an `EOF` with `errno == EINTR`, which the
      inner loop retries. */
  datatype Read = Char(c: char) | Eof | Interrupted | Failed

  /** A read that ends the line. */
  predicate Ends(r: Read)
  {
    r.Eof? || r.Failed? || r == Char('\n')
  }

  /** The position of the read that ends the line, or `|input|` when the
      stream runs out first (which reads as end of file). */
  function Terminator(input: seq<Read>): (t: nat)
    ensures t <= |input|
    ensures t < |input| ==> Ends(input[t])
    ensures forall j :: 0 <= j < t ==> !Ends(input[j])
  {
    if input == [] then 0
    else if Ends(input[0]) then 0
    else 1 + Terminator(input[1..])
  }

  /** What the loop of `prompt` would store with an unbounded buffer: it scans
      read by read, skipping interruptions and NULs, until the line ends. */
  function Line(input: seq<Read>): seq<char>
  {
    if input == [] || Ends(input[0]) then []
    else if input[0].Char? && input[0].c != '\0' then [input[0].c] + Line(input[1..])
    else Line(input[1..])
  }

  /** The characters of a read that are kept: a non-NUL character. */
  function KeptOf(r: Read): seq<char>
  {
    if r.Char? && r.c != '\0' then [r.c] else []
  }

  /** Reference definition: every non-NUL character among `rs`, in order. */
  function Kept(rs: seq<Read>): seq<char>
  {
    if rs == [] then [] else Kept(rs[..|rs| - 1]) + KeptOf(rs[|rs| - 1])
  }

  lemma {:induction false} KeptCons(r: Read, rs: seq<Read>)
    ensures Kept([r] + rs) == KeptOf(r) + Kept(rs)
  {
    if rs != [] {
      assert ([r] + rs)[..|rs|] == [r] + rs[..|rs| - 1];
      KeptCons(r, rs[..|rs| - 1]);
    }
  }

  /** The line is the in-order sequence of non-NUL characters read before the
      first newline, end of file or failure. */
  lemma {:induction false} LineIsKeptPrefix(input: seq<Read>)
    ensures Line(input) == Kept(input[..Terminator(input)])
  {
    if input != [] && !Ends(input[0]) {
      LineIsKeptPrefix(input[1..]);
      assert input[..Terminator(input)] == [input[0]] + input[1..][..Terminator(input[1..])];
      KeptCons(input[0], input[1..][..Terminator(input[1..])]);
    }
  }

  /** The line never holds a newline or a NUL. */
  lemma {:induction false} LineExcludesBreaks(input: seq<Read>)
    ensures forall j :: 0 <= j < |Line(input)| ==> Line(input)[j] != '\n' && Line(input)[j] != '\0'
  {
    if input != [] && !Ends(input[0]) {
      LineExcludesBreaks(input[1..]);
    }
  }

  /** Interrupted reads contribute nothing and do not end the line. */
  lemma {:induction false} SkipInterrupted(input: seq<Read>, k: nat, next: nat)
    requires k <= next <= |input|
    requires forall j :: k <= j < next ==> input[j].Interrupted?
    ensures Line(input[k..]) == Line(input[next..])
    ensures k <= Terminator(input) ==> next <= Terminator(input)
    decreases next - k
  {
    if k < next {
      assert input[k..][1..] == input[k + 1..];
      SkipInterrupted(input, k + 1, next);
    }
  }

  /** A read that does not end the line adds its character, if kept, and
      scanning goes on with the next read. */
  lemma LineStep(input: seq<Read>, m: nat)
    requires m < |input| && !Ends(input[m])
    ensures Line(input[m..]) == KeptOf(input[m]) + Line(input[m + 1..])
    ensures m <= Terminator(input) ==> m + 1 <= Terminator(input)
  {
    assert input[m..][1..] == input[m + 1..];
  }

  /**
   * `fgetc`, retried while it fails with `EINTR` (main.c:84). Running off
   * the end of `input` reads as end of file.
   */
  method GetChar(input: seq<Read>, k: nat) returns (c: Read, next: nat)
    requires k <= |input|
    ensures !c.Interrupted?
    ensures k <= next <= |input|
    // either every remaining read was interrupted and this is end of file,
    ensures || (c == Eof && next == |input| && forall j :: k <= j < |input| ==> input[j].Interrupted?)
    // or c is the first read from k on that was not interrupted
            || (k < next && c == input[next - 1] && forall j :: k <= j < next - 1 ==> input[j].Interrupted?)
  {
    next := k;
    while next < |input| && input[next].Interrupted?
      invariant k <= next <= |input|
      invariant forall j :: k <= j < next ==> input[j].Interrupted?
    {
      next := next + 1;
    }
    if next < |input| {
      c := input[next];
      next := next + 1;
    } else {
      c := Eof;
    }
  }

  /** One retried `fgetc` from position `k` of the line: either it ends the
      line, and then nothing more is stored and reading resumes just past the
      terminator, or it contributes its kept character. */
  lemma ReadStep(input: seq<Read>, k: nat, c: Read, next: nat)
    requires k <= Terminator(input)
    requires k <= next <= |input|
    requires || (c == Eof && next == |input| && forall j :: k <= j < |input| ==> input[j].Interrupted?)
             || (k < next && c == input[next - 1] && forall j :: k <= j < next - 1 ==> input[j].Interrupted?)
    ensures !Ends(c) ==> k < next <= Terminator(input) && Line(input[k..]) == KeptOf(c) + Line(input[next..])
    ensures Ends(c) ==> Line(input[k..]) == [] && Rest(input) == input[next..]
    ensures Ends(c) ==> (c.Failed? <==> Terminator(input) < |input| && input[Terminator(input)].Failed?)
  {
    if k < next && c == input[next - 1] {
      ReadFound(input, k, next);
    } else {
      SkipInterrupted(input, k, next);
      assert input[next..] == [];
    }
  }

  /** `fgetc` returned the read at `next - 1` after skipping interruptions. */
  lemma ReadFound(input: seq<Read>, k: nat, next: nat)
    requires k <= Terminator(input)
    requires k < next <= |input|
    requires forall j :: k <= j < next - 1 ==> input[j].Interrupted?
    ensures !Ends(input[next - 1]) ==> next <= Terminator(input) && Line(input[k..]) == KeptOf(input[next - 1]) + Line(input[next..])
    ensures Ends(input[next - 1]) ==> Line(input[k..]) == [] && Terminator(input) == next - 1
  {
    SkipInterrupted(input, k, next - 1);
    if !Ends(input[next - 1]) {
      LineStep(input, next - 1);
    }
  }

  /** What fits in the buffer: at most `BufSize - 1` characters, a prefix of
      the line, and the whole line when it is short enough. */
  function Truncate(line: seq<char>): (r: seq<char>)
    ensures |r| < BufSize
    ensures r <= line
    ensures |line| < BufSize ==> r == line
    ensures |line| >= BufSize ==> |r| == BufSize - 1
  {
    if |line| < BufSize then line else line[..BufSize - 1]
  }

  /** Appending at most one character to a line: it is stored only while
      there is room for it and the terminator. */
  lemma TruncateAppend(line: seq<char>, x: seq<char>)
    requires |x| <= 1
    ensures Truncate(line + x) == if |Truncate(line)| + |x| < BufSize then Truncate(line) + x else Truncate(line)
  {
    if |line| >= BufSize {
      assert (line + x)[..BufSize - 1] == line[..BufSize - 1];
    } else if |line + x| >= BufSize {
      assert (line + x)[..BufSize - 1] == line;
    }
  }

  /** Where reading resumes after `prompt`: just past the read that ended the
      line, so characters past the buffer's capacity are consumed. */
  function Rest(input: seq<Read>): (rest: seq<Read>)
    ensures |rest| < |input| || (input == [] && rest == [])
    ensures rest == input[|input| - |rest|..]
    ensures forall j :: 0 <= j < |input| - |rest| - 1 ==> !Ends(input[j])
    ensures |input| - |rest| < |input| ==> Ends(input[|input| - |rest| - 1])
  {
    var t := Terminator(input);
    if t < |input| then input[t + 1..] else []
  }
}
