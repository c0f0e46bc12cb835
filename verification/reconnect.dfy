/** The reverse tunnel's reconnect schedule. Durations are in nanoseconds; a
    round is one ssh child: whether it started, how long it ran, and the die
    roll behind the jitter. */
module Reconnect {

  const SECOND: nat := 1_000_000_000
  const LONGEST: nat := 30 * SECOND
  const STABLE: nat := 120 * SECOND

  datatype Round = Round(started: bool, ran: nat, roll: nat)

  /** A run long enough to count as a recovery. */
  predicate Recovers(r: Round) {
    r.started && r.ran >= STABLE
  }

  function Pow2(n: nat): (r: nat)
    ensures r >= 1
  {
    if n == 0 then 1 else 2 * Pow2(n - 1)
  }

  function Min(a: nat, b: nat): nat {
    if a <= b then a else b
  }

  /** The least delay of an attempt, jitter apart: doubling seconds, up to 30. */
  function Base(attempt: nat): nat {
    Min(Pow2(Min(attempt, 5)) * SECOND, LONGEST)
  }

  function Delay(attempt: nat, roll: nat): nat {
    var base := Base(attempt);
    var maxJitter := Min(base / 5, LONGEST - base);
    if maxJitter == 0 then base else base + roll % (maxJitter + 1)
  }

  // ----- One delay -----

  lemma BaseValues(attempt: nat)
    ensures Base(attempt) == (if attempt == 0 then 1 else if attempt == 1 then 2 else if attempt == 2 then 4
                              else if attempt == 3 then 8 else if attempt == 4 then 16 else 30) * SECOND
  {
    assert Pow2(1) == 2 && Pow2(2) == 4;
    assert Pow2(3) == 8;
    assert Pow2(4) == 16;
    assert Pow2(5) == 32;
  }

  lemma PowMonotone(a: nat, b: nat)
    requires a <= b
    ensures Pow2(a) <= Pow2(b)
    decreases b
  {
    if a < b { PowMonotone(a, b - 1); }
  }

  /** A delay lies between min(2^attempt, 30) and 30 seconds, at most a fifth over
      the former. */
  lemma DelayBounds(attempt: nat, roll: nat)
    ensures Min(Pow2(attempt) * SECOND, LONGEST) <= Delay(attempt, roll) <= LONGEST
    ensures 5 * Delay(attempt, roll) <= 6 * Min(Pow2(attempt) * SECOND, LONGEST)
  {
    BaseValues(attempt);
    assert Min(Pow2(attempt) * SECOND, LONGEST) == Base(attempt) by {
      if attempt > 5 { PowMonotone(5, attempt); BaseValues(5); assert Pow2(5) == 32; }
    }
  }

  /** Whatever the dice, a later attempt never waits less. */
  lemma DelaysGrow(a: nat, b: nat, roll: nat, roll': nat)
    requires a < b
    ensures Delay(a, roll) <= Delay(b, roll')
  {
    BaseValues(a);
    BaseValues(b);
  }

  method Backoff(attempt: nat, roll: nat) returns (delay: nat)
    ensures delay == Delay(attempt, roll)
    ensures Min(Pow2(attempt) * SECOND, LONGEST) <= delay <= LONGEST
    ensures 5 * delay <= 6 * Min(Pow2(attempt) * SECOND, LONGEST)
  {
    DelayBounds(attempt, roll);
    var a := attempt;
    if a > 5 {
      a := 5;
    }
    var base := SECOND * Pow2(a);
    if base > LONGEST {
      base := LONGEST;
    }
    var maxJitter: int := base / 5;
    if base + maxJitter > LONGEST {
      maxJitter := LONGEST - base;
    }
    if maxJitter <= 0 {
      return base;
    }
    return base + roll % (maxJitter + 1);
  }

  // ----- The loop -----

  /** The counter's value at each round's delay, when it stands at `attempt` before. */
  function Counters(attempt: nat, rounds: seq<Round>): (cs: seq<nat>)
    ensures |cs| == |rounds|
    decreases |rounds|
  {
    if rounds == [] then []
    else
      var a := if Recovers(rounds[0]) then 0 else attempt;
      [a] + Counters(a + 1, rounds[1..])
  }

  /** The counter after all of them. */
  function Count(attempt: nat, rounds: seq<Round>): nat {
    if rounds == [] then attempt else Counters(attempt, rounds)[|rounds| - 1] + 1
  }

  /** The waits between rounds. */
  function Waits(attempt: nat, rounds: seq<Round>): (waits: seq<nat>)
    ensures |waits| == |rounds|
    ensures forall k | 0 <= k < |rounds| :: waits[k] == Delay(Counters(attempt, rounds)[k], rounds[k].roll)
  {
    seq(|rounds|, k requires 0 <= k < |rounds| => Delay(Counters(attempt, rounds)[k], rounds[k].roll))
  }

  /** The counter at the delay after a round. */
  function At(attempt: nat, round: Round): nat {
    if Recovers(round) then 0 else attempt
  }

  lemma CountersCons(attempt: nat, x: Round, rest: seq<Round>)
    ensures Counters(attempt, [x] + rest) == [At(attempt, x)] + Counters(At(attempt, x) + 1, rest)
    ensures Count(attempt, [x] + rest) == Count(At(attempt, x) + 1, rest)
  {
    assert ([x] + rest)[1..] == rest;
  }

  lemma CountersGlue(attempt: nat, x: Round, tail: seq<Round>, b: seq<Round>, whole: seq<Round>)
    requires whole == [x] + (tail + b)
    requires var next := At(attempt, x) + 1; Counters(next, tail + b) == Counters(next, tail) + Counters(Count(next, tail), b)
    ensures Counters(attempt, whole) == Counters(attempt, [x] + tail) + Counters(Count(attempt, [x] + tail), b)
  {
    CountersCons(attempt, x, tail + b);
    CountersCons(attempt, x, tail);
  }

  lemma HeadAndTail(a: seq<Round>, b: seq<Round>)
    requires a != []
    ensures a == [a[0]] + a[1..] && a + b == [a[0]] + (a[1..] + b)
  {}

  lemma {:induction false} CountersConcat(attempt: nat, a: seq<Round>, b: seq<Round>)
    ensures Counters(attempt, a + b) == Counters(attempt, a) + Counters(Count(attempt, a), b)
    decreases |a|
  {
    if a == [] {
      assert a + b == b;
    } else {
      HeadAndTail(a, b);
      CountersConcat(At(attempt, a[0]) + 1, a[1..], b);
      CountersGlue(attempt, a[0], a[1..], b, a + b);
    }
  }

  lemma CountersSnoc(attempt: nat, rounds: seq<Round>, last: Round)
    ensures var c := if Recovers(last) then 0 else Count(attempt, rounds);
      && Counters(attempt, rounds + [last]) == Counters(attempt, rounds) + [c]
      && Count(attempt, rounds + [last]) == c + 1
  {
    CountersConcat(attempt, rounds, [last]);
    assert [last][1..] == [];
    assert Counters(Count(attempt, rounds), [last]) == [if Recovers(last) then 0 else Count(attempt, rounds)];
  }

  lemma WaitsSnoc(attempt: nat, rounds: seq<Round>, last: Round)
    ensures Waits(attempt, rounds + [last])
      == Waits(attempt, rounds) + [Delay(if Recovers(last) then 0 else Count(attempt, rounds), last.roll)]
  {
    CountersSnoc(attempt, rounds, last);
  }

  /** The loop until the context ends, after `rounds`; a last child still running
      or a last wait cut short adds nothing. */
  method TunnelLoop(rounds: seq<Round>) returns (waits: seq<nat>)
    ensures waits == Waits(0, rounds)
  {
    waits := [];
    var attempt := 0;
    for k := 0 to |rounds|
      invariant waits == Waits(0, rounds[..k])
      invariant attempt == Count(0, rounds[..k])
    {
      var round := rounds[k];
      CountersSnoc(0, rounds[..k], round);
      WaitsSnoc(0, rounds[..k], round);
      assert rounds[..k + 1] == rounds[..k] + [round];
      if round.started {
        if round.ran >= STABLE {
          attempt := 0;
        }
      }
      var delay := Backoff(attempt, round.roll);
      attempt := attempt + 1;
      waits := waits + [delay];
    }
    assert rounds[..|rounds|] == rounds;
  }

  // ----- Bounds on a whole outage -----

  predicate Outage(rounds: seq<Round>) {
    forall i | 0 <= i < |rounds| :: !Recovers(rounds[i])
  }

  /** Within an outage the counter grows by one a round. */
  lemma {:induction false} CountersGrow(attempt: nat, rounds: seq<Round>, k: nat)
    requires Outage(rounds) && k < |rounds|
    ensures Counters(attempt, rounds)[k] == attempt + k
    decreases k
  {
    if k == 0 {
    } else {
      assert forall i | 0 <= i < |rounds| - 1 :: rounds[1..][i] == rounds[i + 1];
      CountersGrow(attempt + 1, rounds[1..], k - 1);
    }
  }

  /** The first outage starts at attempt 0, and one after a two-minute run again. */
  lemma CountersFresh(attempt: nat, rounds: seq<Round>, k: nat)
    requires k < |rounds| && (attempt == 0 || Recovers(rounds[0])) && Outage(rounds[1..])
    ensures Counters(attempt, rounds)[k] == k
  {
    if k > 0 { CountersGrow(1, rounds[1..], k - 1); }
  }

  /** The first wait of a loop is for attempt 0, and so is the one after a two-minute
      run; from there the k-th wait of the outage lies between min(2^k, 30) seconds and
      a fifth more, and never over 30. */
  lemma WaitsDouble(before: seq<Round>, outage: seq<Round>, k: nat)
    requires k < |outage| && (before == [] || Recovers(outage[0])) && Outage(outage[1..])
    ensures var waits, n := Waits(0, before + outage), |before|;
      && Min(Pow2(k) * SECOND, LONGEST) <= waits[n + k] <= LONGEST
      && 5 * waits[n + k] <= 6 * Min(Pow2(k) * SECOND, LONGEST)
  {
    CountersConcat(0, before, outage);
    CountersFresh(Count(0, before), outage, k);
    DelayBounds(k, outage[k].roll);
  }

  function Sum(waits: seq<nat>): nat {
    if waits == [] then 0 else waits[0] + Sum(waits[1..])
  }

  /** The least total of n waits from a counter at `attempt`. */
  function Least(attempt: nat, n: nat): nat
    decreases n
  {
    if n == 0 then 0 else Base(attempt) + Least(attempt + 1, n - 1)
  }

  lemma {:induction false} AtLeast(attempt: nat, waits: seq<nat>)
    requires forall k | 0 <= k < |waits| :: waits[k] >= Base(attempt + k)
    ensures Sum(waits) >= Least(attempt, |waits|)
    decreases |waits|
  {
    if waits == [] {
    } else {
      assert forall k | 0 <= k < |waits| - 1 :: waits[1..][k] == waits[k + 1];
      AtLeast(attempt + 1, waits[1..]);
    }
  }

  lemma DelayIsOverBase(attempt: nat, roll: nat)
    ensures Delay(attempt, roll) >= Base(attempt)
  {}

  lemma {:induction false} LeastGrows(a: nat, b: nat, n: nat)
    requires a <= b
    ensures Least(a, n) <= Least(b, n)
    decreases n
  {
    if n == 0 {
    } else {
      LeastGrows(a + 1, b + 1, n - 1);
      BaseValues(a);
      BaseValues(b);
    }
  }

  lemma {:induction false} LeastFlat(attempt: nat, n: nat)
    requires attempt >= 5
    ensures Least(attempt, n) == n * LONGEST
    decreases n
  {
    if n == 0 {
    } else {
      LeastFlat(attempt + 1, n - 1);
      BaseValues(attempt);
    }
  }

  lemma LeastTotal(n: nat)
    requires n >= 5
    ensures Least(0, n) == 31 * SECOND + (n - 5) * LONGEST
  {
    BaseValues(0);
    BaseValues(1);
    BaseValues(2);
    BaseValues(3);
    BaseValues(4);
    LeastFlat(5, n - 5);
    assert Least(3, n - 3) == Base(3) + (Base(4) + Least(5, n - 5));
    assert Least(1, n - 1) == Base(1) + (Base(2) + Least(3, n - 3));
  }

  /** n >= 5 rounds in a row without a two-minute run, at any point of the loop,
      wait at least 31 + 30(n - 5) seconds in all. */
  lemma OutageIsPaced(attempt: nat, rounds: seq<Round>)
    requires |rounds| >= 5 && Outage(rounds)
    ensures Sum(Waits(attempt, rounds)) >= 31 * SECOND + (|rounds| - 5) * LONGEST
  {
    forall k | 0 <= k < |rounds| ensures Waits(attempt, rounds)[k] >= Base(attempt + k) {
      CountersGrow(attempt, rounds, k);
      DelayIsOverBase(attempt + k, rounds[k].roll);
    }
    AtLeast(attempt, Waits(attempt, rounds));
    LeastGrows(0, attempt, |rounds|);
    LeastTotal(|rounds|);
  }

  /** In a loop's whole history, each stretch of rounds without a two-minute run is
      paced so. */
  lemma LoopIsPaced(before: seq<Round>, outage: seq<Round>, later: seq<Round>)
    requires |outage| >= 5 && Outage(outage)
    ensures Sum(Waits(0, before + outage + later)[|before|..|before| + |outage|]) >= 31 * SECOND + (|outage| - 5) * LONGEST
  {
    CountersConcat(0, before + outage, later);
    CountersConcat(0, before, outage);
    OutageIsPaced(Count(0, before), outage);
    assert Waits(0, before + outage + later)[|before|..|before| + |outage|] == Waits(Count(0, before), outage);
  }

  /** The wait after a two-minute run is at most 1.2 seconds. */
  lemma RecoveryResets(attempt: nat, rounds: seq<Round>)
    requires rounds != [] && Recovers(rounds[0])
    ensures 5 * Waits(attempt, rounds)[0] <= 6 * SECOND
  {
    DelayBounds(0, rounds[0].roll);
  }
}
