/**
 * pkg/gen/template/template.go, first part: `multiNewLineEliminator`, the
 * writer the rendered Markdown passes through. It counts the newlines it has
 * just seen (`newLines`, kept across `Write` calls), passes the first newline
 * of a run at once, holds back the rest, and on the next other byte emits one
 * more newline if the run was longer than one. A run of two or more newlines
 * between two other bytes therefore comes out as exactly two (one blank line).
 *
 * `Filtered(k, s)` is the reference: what the filter emits for `s` when it
 * starts with `k` pending newlines; `Pending(k, s)` is its counter afterwards.
 */
module TemplateFilter {

  newtype byte = b: int | 0 <= b < 256

  const NL: byte := 10

  function Filtered(k: nat, s: seq<byte>): seq<byte>
    decreases |s|
  {
    if s == [] then []
    else if s[0] == NL then (if k + 1 > 1 then [] else [NL]) + Filtered(k + 1, s[1..])
    else (if k > 1 then [NL] else []) + [s[0]] + Filtered(0, s[1..])
  }

  function Pending(k: nat, s: seq<byte>): nat
    decreases |s|
  {
    if s == [] then k
    else if s[0] == NL then Pending(k + 1, s[1..])
    else Pending(0, s[1..])
  }

  /** The length of the run of newlines `s` ends with. */
  function TrailingNewLines(s: seq<byte>): nat {
    if s == [] || s[|s| - 1] != NL then 0 else 1 + TrailingNewLines(s[..|s| - 1])
  }

  /** The length of the run of newlines `s` starts with. */
  function LeadingNewLines(s: seq<byte>): nat {
    if s == [] || s[0] != NL then 0 else 1 + LeadingNewLines(s[1..])
  }

  function NewLines(n: nat): (r: seq<byte>)
    ensures |r| == n && forall i | 0 <= i < n :: r[i] == NL
  {
    if n == 0 then [] else [NL] + NewLines(n - 1)
  }

  /** `s` with every newline deleted. */
  function WithoutNewLines(s: seq<byte>): seq<byte> {
    if s == [] then [] else (if s[0] == NL then [] else [s[0]]) + WithoutNewLines(s[1..])
  }

  ghost predicate NoTripleNewLine(s: seq<byte>) {
    forall i | 0 <= i && i + 2 < |s| :: !(s[i] == NL && s[i + 1] == NL && s[i + 2] == NL)
  }

  class MultiNewLineEliminator {
    /** The number of newlines at the end of what was written so far. */
    var newLines: nat
    /** Everything handed to the underlying writer so far. */
    var sink: seq<byte>
    /** Everything written to the filter so far. */
    ghost var written: seq<byte>

    ghost predicate Valid()
      reads this
    {
      newLines == TrailingNewLines(written) && sink == Filtered(0, written)
    }

    constructor ()
      ensures Valid() && written == [] && sink == []
    {
      newLines := 0;
      sink := [];
      written := [];
    }

    /**
     * Filters `input` and hands the result to the underlying writer; `n` is
     * the number of bytes handed on, which the underlying writer reports back.
     */
    method Write(input: seq<byte>) returns (n: nat)
      requires Valid()
      modifies this
      ensures Valid()
      ensures written == old(written) + input
      ensures sink == old(sink) + Filtered(old(newLines), input)
      ensures n == |sink| - |old(sink)|
    {
      ghost var k0 := newLines;
      var out: seq<byte> := [];
      var i := 0;
      while i < |input|
        invariant 0 <= i <= |input|
        invariant out == Filtered(k0, input[..i])
        invariant newLines == Pending(k0, input[..i])
        modifies this`newLines
      {
        var c := input[i];
        assert input[..i + 1] == input[..i] + [c];
        FilteredSplit(k0, input[..i], [c]);
        PendingSplit(k0, input[..i], [c]);
        FilteredStep(newLines, c, []);
        assert [c] + [] == [c];
        if c == NL {
          newLines := newLines + 1;
          if newLines > 1 {
            i := i + 1;
            continue;
          }
        } else {
          if newLines > 1 {
            out := out + [NL];
          }
          newLines := 0;
        }
        out := out + [c];
        i := i + 1;
      }
      assert input[..i] == input;
      WriteAppends(written, input);
      sink := sink + out;
      written := written + input;
      n := |out|;
    }
  }

  // ---------------------------------------------------------------------------
  // Properties of the reference

  /** The counter carries over: filtering `a + b` is filtering `a`, then `b` from where `a` left the counter. */
  lemma {:induction false} PendingSplit(k: nat, a: seq<byte>, b: seq<byte>)
    ensures Pending(k, a + b) == Pending(Pending(k, a), b)
    decreases |a|
  {
    if a != [] {
      assert (a + b)[1..] == a[1..] + b;
      PendingSplit(if a[0] == NL then k + 1 else 0, a[1..], b);
    } else {
      assert a + b == b;
    }
  }

  /**
   * Splitting the input across two writes gives the same output as one write
   * of the whole: the output of `a + b` is the output of `a` followed by the
   * output of `b` from the counter `a` left behind.
   */
  lemma {:induction false} FilteredSplit(k: nat, a: seq<byte>, b: seq<byte>)
    ensures Filtered(k, a + b) == Filtered(k, a) + Filtered(Pending(k, a), b)
    decreases |a|
  {
    if a != [] {
      assert (a + b)[1..] == a[1..] + b;
      FilteredSplit(if a[0] == NL then k + 1 else 0, a[1..], b);
    } else {
      assert a + b == b;
    }
  }

  /** One step of the reference, on a byte `c` read with `k` newlines pending. */
  lemma FilteredStep(k: nat, c: byte, rest: seq<byte>)
    ensures c == NL ==> Filtered(k, [c] + rest) == (if k + 1 > 1 then [] else [NL]) + Filtered(k + 1, rest)
    ensures c == NL ==> Pending(k, [c] + rest) == Pending(k + 1, rest)
    ensures c != NL ==> Filtered(k, [c] + rest) == (if k > 1 then [NL] else []) + [c] + Filtered(0, rest)
    ensures c != NL ==> Pending(k, [c] + rest) == Pending(0, rest)
  {
    assert ([c] + rest)[0] == c && ([c] + rest)[1..] == rest;
  }

  /** What one `Write` adds to the output and leaves in the counter, relative to everything written before. */
  lemma WriteAppends(w: seq<byte>, input: seq<byte>)
    ensures Filtered(0, w + input) == Filtered(0, w) + Filtered(TrailingNewLines(w), input)
    ensures TrailingNewLines(w + input) == Pending(TrailingNewLines(w), input)
  {
    FilteredSplit(0, w, input);
    PendingSplit(0, w, input);
    PendingIsTrailing(w);
    PendingIsTrailing(w + input);
  }

  /** From a fresh start the counter is the length of the trailing run of newlines. */
  lemma {:induction false} PendingIsTrailing(s: seq<byte>)
    ensures Pending(0, s) == TrailingNewLines(s)
    decreases |s|
  {
    if s != [] {
      var init := s[..|s| - 1];
      var c := s[|s| - 1];
      assert s == init + [c];
      PendingSplit(0, init, [c]);
      PendingIsTrailing(init);
    }
  }

  lemma {:induction false} WithoutNewLinesAppend(a: seq<byte>, b: seq<byte>)
    ensures WithoutNewLines(a + b) == WithoutNewLines(a) + WithoutNewLines(b)
  {
    if a != [] {
      assert (a + b)[1..] == a[1..] + b;
      WithoutNewLinesAppend(a[1..], b);
    } else {
      assert a + b == b;
    }
  }

  /** Only newlines are dropped or added: all other bytes pass unchanged and in order. */
  lemma {:induction false} FilterKeepsOtherBytes(k: nat, s: seq<byte>)
    ensures WithoutNewLines(Filtered(k, s)) == WithoutNewLines(s)
    decreases |s|
  {
    if s != [] {
      var rest := s[1..];
      if s[0] == NL {
        FilterKeepsOtherBytes(k + 1, rest);
        WithoutNewLinesAppend(if k + 1 > 1 then [] else [NL], Filtered(k + 1, rest));
      } else {
        FilterKeepsOtherBytes(0, rest);
        var pre := (if k > 1 then [NL] else []) + [s[0]];
        WithoutNewLinesAppend(pre, Filtered(0, rest));
        WithoutNewLinesAppend(if k > 1 then [NL] else [], [s[0]]);
        assert s == [s[0]] + rest;
        WithoutNewLinesAppend([s[0]], rest);
      }
    }
  }

  /** A run of `n` newlines read with `k` pending emits one newline only when nothing was pending. */
  lemma {:induction false} FilteredRun(k: nat, n: nat, rest: seq<byte>)
    ensures Filtered(k, NewLines(n) + rest) == (if k == 0 && n > 0 then [NL] else []) + Filtered(k + n, rest)
    decreases n
  {
    if n > 0 {
      assert (NewLines(n) + rest)[0] == NL;
      assert (NewLines(n) + rest)[1..] == NewLines(n - 1) + rest;
      FilteredRun(k + 1, n - 1, rest);
    } else {
      assert NewLines(n) + rest == rest;
    }
  }

  /**
   * After a non-newline byte (or at the start), a run of `n` newlines followed
   * by a non-newline byte `b` comes out as min(n, 2) newlines and `b`: a single
   * newline passes unchanged, longer runs become exactly two.
   */
  lemma RunBeforeByte(p: seq<byte>, n: nat, b: byte, q: seq<byte>)
    requires TrailingNewLines(p) == 0 && b != NL
    ensures Filtered(0, p + NewLines(n) + [b] + q) ==
      Filtered(0, p) + NewLines(if n < 2 then n else 2) + [b] + Filtered(0, q)
  {
    PendingIsTrailing(p);
    assert p + NewLines(n) + [b] + q == p + (NewLines(n) + ([b] + q));
    FilteredSplit(0, p, NewLines(n) + ([b] + q));
    RunThenByte(n, b, q);
  }

  /** From a fresh start, a run of `n` newlines and then another byte: min(n, 2) newlines and the byte. */
  lemma RunThenByte(n: nat, b: byte, q: seq<byte>)
    requires b != NL
    ensures Filtered(0, NewLines(n) + ([b] + q)) == NewLines(if n < 2 then n else 2) + [b] + Filtered(0, q)
  {
    var first: seq<byte> := if n > 0 then [NL] else [];
    var second: seq<byte> := if n > 1 then [NL] else [];
    assert first + second == NewLines(if n < 2 then n else 2) by {
      if n >= 2 {
        assert NewLines(2) == [NL, NL];
      } else if n == 1 {
        assert NewLines(1) == [NL];
      }
    }
    FilteredRun(0, n, [b] + q);
    FilteredStep(n, b, q);
  }

  /** A trailing run of newlines comes out as a single newline until more data arrives. */
  lemma TrailingRun(p: seq<byte>, n: nat)
    requires TrailingNewLines(p) == 0
    ensures Filtered(0, p + NewLines(n)) == Filtered(0, p) + (if n > 0 then [NL] else [])
  {
    PendingIsTrailing(p);
    FilteredSplit(0, p, NewLines(n));
    FilteredRun(0, n, []);
    assert NewLines(n) + [] == NewLines(n);
  }

  lemma ConsNonNewLine(b: byte, x: seq<byte>)
    requires b != NL && NoTripleNewLine(x)
    ensures NoTripleNewLine([b] + x)
  {
    var s := [b] + x;
    forall i | 0 <= i && i + 2 < |s| ensures !(s[i] == NL && s[i + 1] == NL && s[i + 2] == NL) {
      if i > 0 {
        assert s[i] == x[i - 1] && s[i + 1] == x[i] && s[i + 2] == x[i + 1];
      }
    }
  }

  lemma ConsNewLine(x: seq<byte>)
    requires NoTripleNewLine(x) && LeadingNewLines(x) <= 1
    ensures NoTripleNewLine([NL] + x) && LeadingNewLines([NL] + x) <= 2
  {
    var s := [NL] + x;
    assert s[1..] == x;
    if |x| >= 2 && x[0] == NL {
      assert LeadingNewLines(x) == 1 + LeadingNewLines(x[1..]);
      assert x[1] != NL;
    }
    forall i | 0 <= i && i + 2 < |s| ensures !(s[i] == NL && s[i + 1] == NL && s[i + 2] == NL) {
      if i > 0 {
        assert s[i] == x[i - 1] && s[i + 1] == x[i] && s[i + 2] == x[i + 1];
      }
    }
  }

  ghost predicate WellSpaced(k: nat, out: seq<byte>) {
    NoTripleNewLine(out) && LeadingNewLines(out) <= (if k == 0 then 2 else 1)
  }

  /** The step of NoTripleInOutput for a newline read. */
  lemma NewLineStep(k: nat, rest: seq<byte>)
    requires WellSpaced(k + 1, Filtered(k + 1, rest))
    ensures WellSpaced(k, Filtered(k, [NL] + rest))
  {
    assert ([NL] + rest)[1..] == rest;
    if k == 0 {
      ConsNewLine(Filtered(1, rest));
    } else {
      assert Filtered(k, [NL] + rest) == Filtered(k + 1, rest);
    }
  }

  /** The step of NoTripleInOutput for another byte read. */
  lemma ByteStep(k: nat, b: byte, rest: seq<byte>)
    requires b != NL && WellSpaced(0, Filtered(0, rest))
    ensures WellSpaced(k, Filtered(k, [b] + rest))
  {
    assert ([b] + rest)[1..] == rest;
    var x := Filtered(0, rest);
    ConsNonNewLine(b, x);
    assert LeadingNewLines([b] + x) == 0;
    if k > 1 {
      ConsNewLine([b] + x);
      assert Filtered(k, [b] + rest) == [NL] + ([b] + x);
    } else {
      assert Filtered(k, [b] + rest) == [b] + x;
    }
  }

  /**
   * The output never holds three newlines in a row, and it starts with at most
   * two newlines (one when a newline is already pending).
   */
  lemma {:induction false} NoTripleInOutput(k: nat, s: seq<byte>)
    ensures NoTripleNewLine(Filtered(k, s))
    ensures LeadingNewLines(Filtered(k, s)) <= (if k == 0 then 2 else 1)
    decreases |s|
  {
    if s != [] {
      assert s == [s[0]] + s[1..];
      if s[0] == NL {
        NoTripleInOutput(k + 1, s[1..]);
        NewLineStep(k, s[1..]);
      } else {
        NoTripleInOutput(0, s[1..]);
        ByteStep(k, s[0], s[1..]);
      }
    }
  }

  /**
   * Filtering is idempotent: running the output through the filter again,
   * from the matching counter, changes nothing.
   */
  lemma {:induction false} FilterIdempotent(k: nat, s: seq<byte>)
    ensures Filtered(if k == 0 then 0 else 1, Filtered(k, s)) == Filtered(k, s)
    decreases |s|
  {
    if s != [] {
      var rest := s[1..];
      if s[0] == NL {
        FilterIdempotent(k + 1, rest);
        if k > 0 {
          assert Filtered(k, s) == Filtered(k + 1, rest);
        } else {
          var y := Filtered(1, rest);
          assert ([NL] + y)[0] == NL && ([NL] + y)[1..] == y;
        }
      } else {
        FilterIdempotent(0, rest);
        var y := Filtered(0, rest);
        var b := s[0];
        assert ([b] + y)[0] == b && ([b] + y)[1..] == y;
        if k > 1 {
          assert ([NL] + [b] + y)[0] == NL && ([NL] + [b] + y)[1..] == [b] + y;
        }
      }
    }
  }
}
