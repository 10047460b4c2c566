/** Bounding newline-delimited input while it streams. */
module Framing {
  import opened Bytes

  const NEWLINE: Byte := 10

  /** What one poll of the wrapped reader yields. */
  datatype Inner = Ready(chunk: seq<Byte>) | Pending | Broken

  datatype Poll = Done | NotYet | Failure

  /** More than limit bytes come before, or without, a newline. */
  ghost predicate OverLong(input: seq<Byte>, limit: nat) {
    exists s: nat :: Window(input, s, limit)
  }

  /** limit bytes without a newline, and one more byte after them. */
  ghost predicate Window(input: seq<Byte>, s: nat, limit: nat) {
    s + limit < |input| && NoNewline(input, s, s + limit)
  }

  ghost predicate NoNewline(input: seq<Byte>, from: nat, to: nat)
    requires from <= to <= |input|
  {
    forall i :: from <= i < to ==> input[i] != NEWLINE
  }

  /** Bytes since the last newline. */
  function Tail(input: seq<Byte>): nat {
    if input == [] || input[|input| - 1] == NEWLINE then 0 else Tail(input[..|input| - 1]) + 1
  }

  lemma {:induction false} TailWindow(input: seq<Byte>)
    ensures Tail(input) <= |input| && NoNewline(input, |input| - Tail(input), |input|)
    ensures Tail(input) < |input| ==> input[|input| - Tail(input) - 1] == NEWLINE
  {
    if input != [] && input[|input| - 1] != NEWLINE {
      TailWindow(input[..|input| - 1]);
    }
  }

  lemma {:induction false} TailReaches(input: seq<Byte>, from: nat)
    requires from <= |input| && NoNewline(input, from, |input|)
    ensures Tail(input) >= |input| - from
  {
    if from < |input| {
      TailReaches(input[..|input| - 1], from);
    }
  }

  /** A byte makes the input over-long exactly when limit bytes without newline precede it. */
  lemma OverLongNext(input: seq<Byte>, b: Byte, limit: nat)
    ensures OverLong(input + [b], limit) <==> OverLong(input, limit) || Tail(input) >= limit
  {
    var longer := input + [b];
    TailWindow(input);
    if OverLong(longer, limit) {
      var s: nat :| Window(longer, s, limit);
      if s + limit < |input| {
        assert forall i :: s <= i < s + limit ==> input[i] == longer[i];
        assert Window(input, s, limit);
      } else {
        assert forall i :: s <= i < |input| ==> input[i] == longer[i];
        TailReaches(input, s);
      }
    }
    if OverLong(input, limit) {
      var s: nat :| Window(input, s, limit);
      assert Window(longer, s, limit);
    }
    if Tail(input) >= limit {
      assert Window(longer, |input| - limit, limit);
    }
  }

  lemma {:induction false} OverLongGrows(input: seq<Byte>, more: seq<Byte>, limit: nat)
    requires OverLong(input, limit)
    ensures OverLong(input + more, limit)
  {
    var s: nat :| Window(input, s, limit);
    assert Window(input + more, s, limit);
  }

  // ----- the meaning of the bound -----

  /** The lines of the input, each with its newline; the last may lack one. */
  function SplitLines(input: seq<Byte>): seq<seq<Byte>> {
    if input == [] then []
    else
      var init, b := input[..|input| - 1], input[|input| - 1];
      var lines := SplitLines(init);
      if init == [] || init[|init| - 1] == 10 || lines == [] then lines + [[b]]
      else lines[..|lines| - 1] + [lines[|lines| - 1] + [b]]
  }

  lemma {:induction false} LastLine(input: seq<Byte>)
    requires input != []
    ensures SplitLines(input) != []
    ensures var lines := SplitLines(input);
            var last := lines[|lines| - 1];
            |last| == Tail(input[..|input| - 1]) + 1
  {
    var init := input[..|input| - 1];
    if init != [] {
      LastLine(init);
      if init[|init| - 1] != NEWLINE {
        assert Tail(init) == Tail(init[..|init| - 1]) + 1;
      }
    }
  }

  /** No line, newline included, is longer than the limit if and only if nothing is over-long. */
  lemma {:induction false} BoundedLinesMean(input: seq<Byte>, limit: nat)
    ensures !OverLong(input, limit) <==> forall line :: line in SplitLines(input) ==> |line| <= limit
  {
    if input != [] {
      var init, b := input[..|input| - 1], input[|input| - 1];
      assert input == init + [b];
      BoundedLinesMean(init, limit);
      OverLongNext(init, b, limit);
      LastLine(input);
      var lines, before := SplitLines(input), SplitLines(init);
      var last := lines[|lines| - 1];
      if init == [] || init[|init| - 1] == NEWLINE {
        assert lines == before + [[b]];
      } else {
        LastLine(init);
        assert Tail(init) == Tail(init[..|init| - 1]) + 1;
        var kept := before[..|before| - 1];
        assert lines == kept + [last] && before == kept + [before[|before| - 1]];
        assert |before[|before| - 1]| < |last|;
      }
      assert last in lines;
    }
  }

  // ----- the reader -----

  class BoundedLines {
    var bytes: nat
    const limit: nat
    var failed: bool
    /** Everything the wrapped reader has yielded, and what of it was passed on. */
    ghost var input: seq<Byte>
    ghost var delivered: seq<Byte>

    constructor (limit: nat)
      ensures Valid() && this.limit == limit && !failed && input == [] && delivered == []
    {
      this.limit, bytes, failed := limit, 0, false;
      input, delivered := [], [];
    }

    ghost predicate Valid()
      reads this
    {
      && delivered <= input && !OverLong(delivered, limit)
      && (failed <==> OverLong(input, limit))
      && (!failed ==> delivered == input && bytes == Tail(input))
    }

    /**
     Passes a chunk on whole, or not at all: the reader fails with the chunk that
     makes the input over-long, and stays failed.
     */
    method PollRead(inner: Inner, buffer: seq<Byte>) returns (poll: Poll, filled: seq<Byte>)
      requires Valid()
      modifies this
      ensures Valid()
      ensures old(failed) ==> poll == Failure && filled == buffer && failed
      ensures !old(failed) ==> input == old(input) + if inner.Ready? then inner.chunk else []
      ensures old(failed) ==> input == old(input)
      ensures !old(failed) && inner.Ready? ==> (poll == Done <==> !OverLong(input, limit)) && (poll != Done ==> poll == Failure)
      ensures !old(failed) && !inner.Ready? ==> poll == if inner.Pending? then NotYet else Failure
      ensures if poll == Done then filled == buffer + inner.chunk && delivered == old(delivered) + inner.chunk
              else filled == buffer && delivered == old(delivered)
    {
      hide Tail, OverLong;
      if failed {
        return Failure, buffer;
      }
      match inner {
        case Pending => return NotYet, buffer;
        case Broken => return Failure, buffer;
        case Ready(chunk) =>
          filled := buffer + chunk;
          ghost var before := input;
          assert before + chunk[..0] == before;
          var i := 0;
          while i < |chunk|
            invariant 0 <= i <= |chunk| && !failed
            invariant input == before && delivered == before
            invariant bytes == Tail(before + chunk[..i]) && !OverLong(before + chunk[..i], limit)
          {
            assert before + chunk[..i + 1] == before + chunk[..i] + [chunk[i]];
            OverLongNext(before + chunk[..i], chunk[i], limit);
            TailNext(before + chunk[..i], chunk[i]);
            bytes := bytes + 1;
            if bytes > limit {
              failed := true;
              input := before + chunk;
              assert before + chunk == before + chunk[..i + 1] + chunk[i + 1..];
              OverLongGrows(before + chunk[..i + 1], chunk[i + 1..], limit);
              return Failure, buffer;
            }
            if chunk[i] == NEWLINE {
              bytes := 0;
            }
            i := i + 1;
          }
          assert chunk[..|chunk|] == chunk;
          input, delivered := before + chunk, before + chunk;
          poll := Done;
      }
    }
  }

  lemma TailNext(input: seq<Byte>, b: Byte)
    ensures Tail(input + [b]) == if b == NEWLINE then 0 else Tail(input) + 1
  {
    assert (input + [b])[..|input|] == input;
  }

  function Joined(chunks: seq<seq<Byte>>): seq<Byte> {
    if chunks == [] then [] else Joined(chunks[..|chunks| - 1]) + chunks[|chunks| - 1]
  }

  /**
   However the input is cut: what comes out is the reads before the first that
   makes the input over-long, and all of them if none does.
   */
  method ReadAll(chunks: seq<seq<Byte>>, limit: nat) returns (out: seq<Byte>, ok: bool, ghost kept: nat)
    ensures kept <= |chunks| && out == Joined(chunks[..kept])
    ensures ok <==> !OverLong(Joined(chunks), limit)
    ensures ok ==> kept == |chunks|
    ensures !OverLong(out, limit)
    ensures !ok ==> kept < |chunks| && OverLong(Joined(chunks[..kept + 1]), limit)
  {
    var reader := new BoundedLines(limit);
    out, kept := [], 0;
    for i := 0 to |chunks|
      invariant reader.Valid() && fresh(reader) && reader.limit == limit
      invariant kept <= i && out == Joined(chunks[..kept]) && out == reader.delivered
      invariant !reader.failed ==> kept == i && reader.input == Joined(chunks[..i])
      invariant reader.failed ==> kept < i && OverLong(Joined(chunks[..kept + 1]), limit)
      invariant reader.failed <==> OverLong(Joined(chunks[..i]), limit)
    {
      assert chunks[..i + 1][..i] == chunks[..i];
      if reader.failed {
        OverLongGrows(Joined(chunks[..i]), chunks[i], limit);
      }
      var poll, filled := reader.PollRead(Ready(chunks[i]), out);
      if poll == Done {
        kept := i + 1;
      }
      out := filled;
    }
    assert chunks[..|chunks|] == chunks;
    ok := !reader.failed;
  }
}
