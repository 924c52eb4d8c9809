/**
 The simulator's interrogation schedule: a reader asks one antenna at a time, and
 the antennas' attempts are staggered.
*/
module Interrogation {
  import opened Basics

  /** The j-th instant of a reader that makes hz attempts a second. */
  function Instant(j: nat, hz: real): Time
    requires hz > 0.0
  {
    j as real / hz
  }

  lemma InstantsAdd(a: nat, b: nat, hz: real)
    requires hz > 0.0
    ensures Instant(a + b, hz) == Instant(a, hz) + Instant(b, hz)
  {
  }

  lemma InstantsIncrease(a: nat, b: nat, hz: real)
    requires hz > 0.0
    ensures a < b <==> Instant(a, hz) < Instant(b, hz)
  {
    assert Instant(b, hz) - Instant(a, hz) == (b - a) as real / hz;
  }

  /** An antenna's own step, one over its share of the rate, is as many instants as there are antennas. */
  lemma StepIsRound(n: nat, hz: real)
    requires n > 0 && hz > 0.0
    ensures hz / n as real > 0.0
    ensures 1.0 / (hz / n as real) == Instant(n, hz)
  {
    InverseOfQuotient(hz, n as real);
  }

  lemma InverseOfQuotient(a: real, b: real)
    requires a > 0.0 && b > 0.0
    ensures a / b > 0.0 && 1.0 / (a / b) == b / a
  {
    QuotientTimes(a, b);
    QuotientTimes(b, a);
    var x, y := a / b, b / a;
    assert x > 0.0;
    assert (x * y) * b == a * y;
    Cancel(x * y, 1.0, b);
    QuotientIs(1.0, x, y);
  }

  lemma QuotientTimes(a: real, b: real)
    requires b > 0.0
    ensures (a / b) * b == a
  {
  }

  lemma Cancel(a: real, b: real, c: real)
    requires c > 0.0 && a * c == b * c
    ensures a == b
  {
  }

  lemma QuotientIs(a: real, b: real, c: real)
    requires b > 0.0 && b * c == a
    ensures a / b == c
  {
    QuotientTimes(a, b);
    Cancel(a / b, c, b);
  }

  lemma OffsetIsInstant(i: nat, n: nat, hz: real)
    requires n > 0 && hz > 0.0
    ensures (i as real / n as real) * Instant(n, hz) == Instant(i, hz)
  {
    var x := i as real / n as real;
    assert x * n as real == i as real;
    assert (x * Instant(n, hz)) * hz == x * (Instant(n, hz) * hz);
    assert Instant(n, hz) * hz == n as real;
    assert Instant(i, hz) * hz == i as real;
  }

  /** Some instant lies beyond the pass. */
  lemma SomeInstantBeyond(duration: Time, hz: real) returns (n: nat)
    requires hz > 0.0
    ensures Instant(n, hz) >= duration
  {
    n := if duration * hz < 0.0 then 0 else (duration * hz).Floor + 1;
    assert n as real >= duration * hz;
    assert Instant(n, hz) * hz == n as real;
  }

  /** Whose turn the j-th instant is: j modulo the number of antennas. */
  function Turn(j: nat, n: nat): (r: nat)
    requires n > 0
    ensures r < n && r <= j
    ensures j < n ==> r == j
  {
    if j < n then j else Turn(j - n, n)
  }

  /** It is the remainder: below n, and j less a multiple of n. */
  lemma {:induction false} TurnIsRemainder(j: nat, n: nat) returns (rounds: nat)
    requires n > 0
    ensures j == rounds * n + Turn(j, n) && Turn(j, n) < n
  {
    if j < n {
      rounds := 0;
    } else {
      var before := TurnIsRemainder(j - n, n);
      rounds := before + 1;
      assert rounds * n == before * n + n;
    }
  }

  /** The next number with the same turn is n further on. */
  lemma {:induction false} NextOfTurn(j: nat, n: nat, i: nat)
    requires n > 0 && Turn(i, n) == Turn(j, n) && j < i
    ensures i >= j + n
    decreases j
  {
    if j >= n {
      NextOfTurn(j - n, n, i - n);
    }
  }

  /** The antenna's turn and the time of one attempt. */
  datatype Attempt = Attempt(antenna: nat, at: Time)

  /** js numbers the attempts: each instant once, at the antenna whose turn it is. */
  ghost predicate Numbered(attempts: seq<Attempt>, js: seq<nat>, n: nat, hz: real)
    requires n > 0 && hz > 0.0
  {
    && |js| == |attempts| && NoDuplicates(js)
    && forall x :: 0 <= x < |js| ==> attempts[x] == Attempt(Turn(js[x], n), Instant(js[x], hz))
  }

  /** Two antennas' attempts together: different turns, so different instants. */
  lemma NumberedConcat(a: seq<Attempt>, js: seq<nat>, b: seq<Attempt>, more: seq<nat>, n: nat, hz: real)
    requires n > 0 && hz > 0.0 && Numbered(a, js, n, hz) && Numbered(b, more, n, hz)
    requires forall j :: j in js ==> j !in more
    ensures Numbered(a + b, js + more, n, hz)
  {
    ConcatKeepsDistinct(js, more);
  }

  /** The turns of one antenna below j, and what the next one is. */
  lemma NextAttempt(j: nat, n: nat, hz: real)
    requires n > 0 && hz > 0.0
    ensures Turn(j + n, n) == Turn(j, n) && Instant(j + n, hz) == Instant(j, hz) + Instant(n, hz)
    ensures forall i: nat :: Turn(i, n) == Turn(j, n) && j < i ==> i >= j + n
  {
    forall i: nat | Turn(i, n) == Turn(j, n) && j < i
      ensures i >= j + n
    {
      NextOfTurn(j, n, i);
    }
    InstantsAdd(j, n, hz);
  }

  /** One antenna's attempts over a pass, and those of them a tag answered: every instant of its turn. */
  method AntennaReads(index: nat, n: nat, duration: Time, hz: real, step: real)
    returns (answered: seq<Attempt>, attempts: seq<Attempt>, ghost js: seq<nat>)
    requires index < n && hz > 0.0 && step == Instant(n, hz)
    ensures Numbered(attempts, js, n, hz)
    ensures forall i: nat :: i in js <==> Turn(i, n) == index && Instant(i, hz) < duration
    ensures |answered| <= |attempts| && forall r :: r in answered ==> r in attempts
  {
    var elapsed := (index as real / n as real) * step;
    OffsetIsInstant(index, n, hz);
    ghost var end := SomeInstantBeyond(duration, hz);
    ghost var j := index;
    hide Instant, Turn;
    answered, attempts, js := [], [], [];
    while elapsed < duration
      invariant Turn(j, n) == index && elapsed == Instant(j, hz)
      invariant forall i: nat :: Turn(i, n) == index && i < index ==> false
      invariant Numbered(attempts, js, n, hz)
      invariant forall i: nat :: i in js <==> Turn(i, n) == index && i < j && Instant(i, hz) < duration
      invariant |answered| <= |attempts| && forall r :: r in answered ==> r in attempts
      decreases end - j
    {
      InstantsIncrease(j, end, hz);
      var attempt := Attempt(index, elapsed);
      if * {
        answered := answered + [attempt];
      }
      attempts := attempts + [attempt];
      js := js + [j];
      NextAttempt(j, n, hz);
      elapsed := elapsed + step;
      j := j + n;
    }
    forall i: nat | Turn(i, n) == index && Instant(i, hz) < duration
      ensures i < j
    {
      InstantsIncrease(i, j, hz);
    }
  }

  /**
   The attempts of every antenna over one pass, and those of them a tag answered.
   Over all antennas the attempts fall on the instants j / hz before the end
   of the pass, each hit once, however many antennas there are.
  */
  method PassReads(n: nat, duration: Time, hz: real)
    returns (answered: seq<Attempt>, attempts: seq<Attempt>, ghost js: seq<nat>)
    requires n > 0 && hz > 0.0
    ensures Numbered(attempts, js, n, hz)
    ensures forall j: nat :: j in js <==> Instant(j, hz) < duration
    ensures |answered| <= |attempts| && forall r :: r in answered ==> r in attempts
  {
    var step := 1.0 / (hz / n as real);
    StepIsRound(n, hz);
    hide Instant, Turn;
    answered, attempts, js := [], [], [];
    for index := 0 to n
      invariant Numbered(attempts, js, n, hz)
      invariant forall j: nat :: j in js <==> Instant(j, hz) < duration && Turn(j, n) < index
      invariant |answered| <= |attempts| && forall r :: r in answered ==> r in attempts
    {
      var heard, tried;
      ghost var more;
      heard, tried, more := AntennaReads(index, n, duration, hz, step);
      NumberedConcat(attempts, js, tried, more, n, hz);
      answered, attempts, js := answered + heard, attempts + tried, js + more;
    }
    forall j: nat
      ensures j in js <==> Instant(j, hz) < duration
    {
      assert Turn(j, n) < n;
    }
  }

  /** So there are exactly as many attempts as instants: the duration times the rate, rounded up. */
  lemma AttemptsFillThePass(attempts: seq<Attempt>, js: seq<nat>, n: nat, duration: Time, hz: real, ceiling: nat)
    requires n > 0 && hz > 0.0 && Numbered(attempts, js, n, hz)
    requires forall j: nat :: j in js <==> Instant(j, hz) < duration
    requires Instant(ceiling, hz) >= duration && (ceiling > 0 ==> Instant(ceiling - 1, hz) < duration)
    ensures |attempts| == ceiling
  {
    forall j: nat
      ensures Instant(j, hz) < duration <==> j < ceiling
    {
      BelowCeiling(j, duration, hz, ceiling);
    }
    SameSize(js, ceiling);
  }

  lemma SameSize(js: seq<nat>, n: nat)
    requires NoDuplicates(js) && forall j: nat :: j in js <==> j < n
    ensures |js| == n
  {
    DistinctSize(js);
    DistinctBound(js, n);
    var shown, all := (set j | j in js), Range(n);
    assert forall j :: j in all ==> j in shown;
    SubsetSize(all, shown);
  }

  lemma BelowCeiling(j: nat, duration: Time, hz: real, ceiling: nat)
    requires hz > 0.0
    requires Instant(ceiling, hz) >= duration && (ceiling > 0 ==> Instant(ceiling - 1, hz) < duration)
    ensures Instant(j, hz) < duration <==> j < ceiling
  {
    InstantsIncrease(j, ceiling, hz);
    if ceiling > 0 && j < ceiling && j != ceiling - 1 {
      InstantsIncrease(j, ceiling - 1, hz);
    }
  }
}
