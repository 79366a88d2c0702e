/**
 * The clock of the simulation's main loop: the condition that keeps it going, the round
 * count read from the coordinator's id store (one line per round), and the retried reads
 * of the round and block counters.
 */
module Clock {
  import opened Common

  /** Each counter read is tried this many times. */
  const ReadAttempts: nat := 3

  /** The loop condition: a limit of 0 means "no limit", and reaching either nonzero limit
      ends the run. */
  function Continues(rounds: int, blocks: int, round: int, block: int): (r: bool)
    ensures r <==> (rounds == 0 || round < rounds) && (blocks == 0 || block < blocks)
  {
    if rounds != 0 && round >= rounds then false
    else if blocks != 0 && block >= blocks then false
    else true
  }

  /** The run never ends by itself exactly when both limits are 0. */
  lemma RunsForeverIffNoLimits(rounds: int, blocks: int)
    ensures (forall round: int, block: int :: Continues(rounds, blocks, round, block))
      <==> rounds == 0 && blocks == 0
  {
    if rounds != 0 {
      assert !Continues(rounds, blocks, if rounds > 0 then rounds else 0, 0);
    } else if blocks != 0 {
      assert !Continues(rounds, blocks, 0, if blocks > 0 then blocks else 0);
    }
  }

  /** Reaching one nonzero limit stops the run whatever the other counter says. */
  lemma EitherLimitStops(rounds: int, blocks: int, round: int, block: int)
    requires (rounds > 0 && round >= rounds) || (blocks > 0 && block >= blocks)
    ensures !Continues(rounds, blocks, round, block)
  {
  }

  // ---------------------------------------------------------------------------
  // The round count.

  /** Python's `str.split("\n")`: the pieces between newlines, always at least one. */
  function SplitLines(s: string): (r: seq<string>)
    ensures |r| >= 1
    ensures forall i :: 0 <= i < |r| ==> '\n' !in r[i]
  {
    if s == [] then [[]]
    else
      var rest := SplitLines(s[1..]);
      if s[0] == '\n' then [[]] + rest
      else [[s[0]] + rest[0]] + rest[1..]
  }

  /** `"\n".join(parts)`. */
  function JoinLines(parts: seq<string>): string
    requires |parts| >= 1
  {
    if |parts| == 1 then parts[0] else parts[0] + "\n" + JoinLines(parts[1..])
  }

  /** The number of newline characters in `s`. */
  function Newlines(s: string): nat {
    if s == [] then 0 else (if s[0] == '\n' then 1 else 0) + Newlines(s[1..])
  }

  /** The round count read from the id store: the pieces of the split less the last one. */
  function RoundCount(store: string): (n: nat)
    ensures n == Newlines(store)
  {
    SplitLinesCount(store);
    |SplitLines(store)[..|SplitLines(store)| - 1]|
  }

  lemma {:induction false} SplitLinesCount(s: string)
    ensures |SplitLines(s)| == Newlines(s) + 1
  {
    if s != [] {
      SplitLinesCount(s[1..]);
    }
  }

  /** Joining the pieces gives the store back. */
  lemma {:induction false} JoinSplitLines(s: string)
    ensures JoinLines(SplitLines(s)) == s
  {
    if s != [] {
      JoinSplitLines(s[1..]);
      var rest := SplitLines(s[1..]);
      if s[0] == '\n' {
        assert SplitLines(s)[1..] == rest;
        assert s == [s[0]] + s[1..];
      } else {
        var r := SplitLines(s);
        if |rest| == 1 {
          assert r == [[s[0]] + rest[0]];
        } else {
          assert r[1..] == rest[1..];
          assert JoinLines(rest) == rest[0] + "\n" + JoinLines(rest[1..]);
        }
      }
    }
  }

  /** Splitting newline-free pieces joined by newlines gives the pieces back. */
  lemma {:induction false} SplitJoinLines(parts: seq<string>)
    requires |parts| >= 1
    requires forall i :: 0 <= i < |parts| ==> '\n' !in parts[i]
    ensures SplitLines(JoinLines(parts)) == parts
    decreases |parts|, |parts[0]|
  {
    if |parts[0]| > 0 {
      var p := parts[0];
      var tail := [p[1..]] + parts[1..];
      assert '\n' !in p[1..] by { assert forall c :: c in p[1..] ==> c in p; }
      SplitJoinLines(tail);
      assert JoinLines(parts) == [p[0]] + JoinLines(tail) by {
        if |parts| > 1 {
          assert tail[1..] == parts[1..];
        }
      }
      assert p == [p[0]] + p[1..];
      assert parts == [p] + parts[1..];
    } else if |parts| > 1 {
      SplitJoinLines(parts[1..]);
      assert JoinLines(parts) == "\n" + JoinLines(parts[1..]);
      assert parts == [[]] + parts[1..];
    }
  }

  /** Adding one line to the store adds one round. */
  lemma AppendLineAddsRound(store: string, line: string)
    requires '\n' !in line
    ensures RoundCount(store + line + "\n") == RoundCount(store) + 1
  {
    NewlinesAppend(store + line, "\n");
    NewlinesAppend(store, line);
    NewlinesNone(line);
    assert Newlines("\n") == 1 by { assert "\n"[1..] == []; }
  }

  lemma {:induction false} NewlinesAppend(a: string, b: string)
    ensures Newlines(a + b) == Newlines(a) + Newlines(b)
  {
    if a == [] {
      assert a + b == b;
    } else {
      assert (a + b)[0] == a[0];
      assert (a + b)[1..] == a[1..] + b;
      NewlinesAppend(a[1..], b);
    }
  }

  lemma {:induction false} NewlinesNone(s: string)
    requires '\n' !in s
    ensures Newlines(s) == 0
  {
    if s != [] {
      assert '\n' !in s[1..] by { assert forall c :: c in s[1..] ==> c in s; }
      NewlinesNone(s[1..]);
    }
  }

  // ---------------------------------------------------------------------------
  // Retried reads.

  /** `attempt(a)` is the outcome of the `a`-th try: the value read, or None when it raised. */
  type Reader = nat -> Option<int>

  /** The counter after tries `a` to ReadAttempts - 1: the first value read, else `prev`. */
  function Retried(prev: int, attempt: Reader, a: nat): int
    decreases ReadAttempts - a
  {
    if a >= ReadAttempts then prev
    else match attempt(a)
      case Some(v) => v
      case None => Retried(prev, attempt, a + 1)
  }

  /** The number of tries made from try `a` on. */
  function TriesFrom(attempt: Reader, a: nat): (n: nat)
    ensures a < ReadAttempts ==> 1 <= n <= ReadAttempts - a
    decreases ReadAttempts - a
  {
    if a >= ReadAttempts then 0
    else if attempt(a).Some? then 1
    else 1 + TriesFrom(attempt, a + 1)
  }

  /** The retry loop of one counter read in `run`. */
  method ReadWithRetry(prev: int, attempt: Reader) returns (v: int, tries: nat)
    ensures v == Retried(prev, attempt, 0)
    ensures tries == TriesFrom(attempt, 0)
  {
    v, tries := prev, 0;
    var a := 0;
    while a < ReadAttempts
      invariant 0 <= a <= ReadAttempts && tries == a && v == prev
      invariant Retried(prev, attempt, 0) == Retried(prev, attempt, a)
      invariant TriesFrom(attempt, 0) == a + TriesFrom(attempt, a)
    {
      tries := tries + 1;
      var r := attempt(a);
      if r.Some? {
        v := r.value;
        return;
      }
      a := a + 1;
    }
  }

  /** The value kept is the first one read, or the old one when every try raised. */
  lemma {:induction false} RetriedMeaning(prev: int, attempt: Reader, a: nat)
    ensures var v := Retried(prev, attempt, a);
      || (v == prev && forall b :: a <= b < ReadAttempts ==> attempt(b).None?)
      || (exists b :: a <= b < ReadAttempts && attempt(b) == Some(v)
            && forall e :: a <= e < b ==> attempt(e).None?)
    decreases ReadAttempts - a
  {
    if a < ReadAttempts && attempt(a).None? {
      RetriedMeaning(prev, attempt, a + 1);
    }
  }

  /** When every try raises, the counter keeps its old value after ReadAttempts tries. */
  lemma AllTriesFail(prev: int, attempt: Reader)
    requires forall b :: 0 <= b < ReadAttempts ==> attempt(b).None?
    ensures Retried(prev, attempt, 0) == prev
    ensures TriesFrom(attempt, 0) == ReadAttempts
  {
    assert attempt(0).None? && attempt(1).None? && attempt(2).None?;
  }

  /** A successful read replaces the counter even when it is lower: the counters are not
      monotone. */
  lemma ReadMayLower(prev: int, attempt: Reader)
    requires attempt(0) == Some(prev - 1)
    ensures Retried(prev, attempt, 0) < prev
  {
  }

  /** The block counter: the node's block count less the count when the run began. */
  function BlockReader(blockCount: Reader, initial: int): (r: Reader)
    ensures forall a :: r(a).Some? <==> blockCount(a).Some?
    ensures forall a :: blockCount(a).Some? ==> r(a) == Some(blockCount(a).value - initial)
  {
    (a: nat) => if blockCount(a).Some? then Some(blockCount(a).value - initial) else None
  }

  /** The round counter: the lines of the id store, when it could be peeked. */
  function RoundReader(peek: nat -> Option<string>): (r: Reader)
    ensures forall a :: r(a).Some? <==> peek(a).Some?
    ensures forall a :: peek(a).Some? ==> r(a) == Some(Newlines(peek(a).value))
  {
    (a: nat) => if peek(a).Some? then Some(RoundCount(peek(a).value)) else None
  }
}
