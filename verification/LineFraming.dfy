/**
 * Newline-delimited frames with a byte limit, read without ever holding an
 * over-long line whole.
 */
module LineFraming {
  import opened Collections

  const NEWLINE: Byte := 10

  datatype Item = Data(bytes: Bytes) | Dropped

  // -- what the input says ----------------------------------------------------------------------

  /** The length of the first line, with its newline if it has one. */
  function LineLength(s: Bytes): (n: nat)
    ensures n <= |s|
    ensures s != [] ==> n > 0
    ensures forall i :: 0 <= i < n - 1 ==> s[i] != NEWLINE
    ensures n < |s| ==> s[n - 1] == NEWLINE
    decreases |s|
  {
    if s == [] then 0 else if s[0] == NEWLINE then 1 else 1 + LineLength(s[1..])
  }

  function Lines(s: Bytes): seq<Bytes>
    decreases |s|
  {
    if s == [] then [] else [s[..LineLength(s)]] + Lines(s[LineLength(s)..])
  }

  function Concat(lines: seq<Bytes>): Bytes
    decreases |lines|
  {
    if lines == [] then [] else lines[0] + Concat(lines[1..])
  }

  predicate IsLine(line: Bytes) {
    line != [] && forall i :: 0 <= i < |line| - 1 ==> line[i] != NEWLINE
  }

  predicate Ended(line: Bytes) { line != [] && line[|line| - 1] == NEWLINE }

  /** The lines are all of the input, in order, cut exactly after each newline. */
  lemma {:induction false} LinesAreTheInput(s: Bytes)
    ensures Concat(Lines(s)) == s
    ensures forall i :: 0 <= i < |Lines(s)| ==> IsLine(Lines(s)[i])
    ensures forall i :: 0 <= i < |Lines(s)| - 1 ==> Ended(Lines(s)[i])
    decreases |s|
  {
    if s != [] {
      var n := LineLength(s);
      LinesAreTheInput(s[n..]);
      var first, rest := s[..n], Lines(s[n..]);
      assert Lines(s) == [first] + rest && Lines(s)[1..] == rest;
      assert first + s[n..] == s;
      assert IsLine(first);
      forall i | 0 <= i < |Lines(s)| - 1 ensures Ended(Lines(s)[i]) {
        if i > 0 {
          assert Lines(s)[i] == rest[i - 1];
        } else {
          assert rest != [] ==> s[n..] != [];
        }
      }
    }
  }

  function Kept(line: Bytes, limit: nat): Item { if |line| > limit then Dropped else Data(line) }

  function Frames(lines: seq<Bytes>, limit: nat): seq<Item> {
    seq(|lines|, i requires 0 <= i < |lines| => Kept(lines[i], limit))
  }

  // -- the reader ---------------------------------------------------------------------------------

  lemma {:induction false} LineAfter(s: Bytes, k: nat)
    requires k <= LineLength(s) && (k > 0 ==> s[k - 1] != NEWLINE)
    ensures LineLength(s[k..]) == LineLength(s) - k
    decreases k
  {
    if k > 0 {
      assert s[0] != NEWLINE;
      assert s[1..][k - 1..] == s[k..];
      if k > 1 { assert s[1..][k - 2] == s[k - 1]; }
      LineAfter(s[1..], k - 1);
    } else {
      assert s[0..] == s;
    }
  }

  class Stream {
    var left: Bytes

    constructor (input: Bytes)
      ensures left == input
    {
      left := input;
    }

    /** At most `most` bytes of the current line. */
    method ReadLine(most: nat) returns (chunk: Bytes)
      requires most > 0
      modifies this
      ensures |chunk| == if LineLength(old(left)) <= most then LineLength(old(left)) else most
      ensures old(left) == chunk + left
    {
      var n := 0;
      while n < |left| && n < most && (n == 0 || left[n - 1] != NEWLINE)
        invariant 0 <= n <= |left| && n <= most && n <= LineLength(left)
        invariant forall i :: 0 <= i < n - 1 ==> left[i] != NEWLINE
      {
        n := n + 1;
      }
      chunk := left[..n];
      left := left[n..];
    }

    /** Skip to the start of the next line. */
    method DiscardLineRemainder(limit: nat)
      modifies this
      ensures left == old(left)[LineLength(old(left))..]
    {
      ghost var k: nat := 0;
      while true
        invariant k <= LineLength(old(left)) && left == old(left)[k..]
        invariant k > 0 ==> old(left)[k - 1] != NEWLINE
        decreases |left|
      {
        LineAfter(old(left), k);
        ghost var before := left;
        var chunk := ReadLine(limit + 1);
        assert chunk != [] ==> chunk[|chunk| - 1] == before[|chunk| - 1];
        assert before[|chunk|..] == left && old(left)[k + |chunk|..] == left;
        if chunk == [] || chunk[|chunk| - 1] == NEWLINE { return; }
        k := k + |chunk|;
      }
    }

    /** The next frame, or None at the end of the input. */
    method NextFrame(limit: nat) returns (item: Option<Item>)
      modifies this
      ensures item.None? <==> old(left) == []
      ensures item.Some? ==> item.value == Kept(old(left)[..LineLength(old(left))], limit)
      ensures left == old(left)[LineLength(old(left))..]
    {
      ghost var before := left;
      var chunk := ReadLine(limit + 1);
      if chunk == [] { return None; }
      assert chunk[|chunk| - 1] == before[|chunk| - 1] && left == before[|chunk|..];
      if |chunk| > limit {
        if chunk[|chunk| - 1] != NEWLINE {
          LineAfter(before, |chunk|);
          DiscardLineRemainder(limit);
        }
        return Some(Dropped);
      }
      assert chunk == before[..LineLength(before)];
      return Some(Data(chunk));
    }

    /** The frames are exactly the input's lines, in order, with one drop in the
        place of each line over the limit. */
    method ReadFrames(limit: nat) returns (items: seq<Item>)
      modifies this
      ensures items == Frames(Lines(old(left)), limit)
      ensures left == []
    {
      items := [];
      ghost var lines: seq<Bytes> := [];
      while true
        invariant Lines(old(left)) == lines + Lines(left)
        invariant items == Frames(lines, limit)
        decreases |left|
      {
        ghost var before := left;
        var item := NextFrame(limit);
        if item.None? { return; }
        items := items + [item.value];
        ghost var line := before[..LineLength(before)];
        assert Lines(before) == [line] + Lines(left);
        assert lines + ([line] + Lines(left)) == lines + [line] + Lines(left);
        lines := lines + [line];
      }
    }
  }
}
