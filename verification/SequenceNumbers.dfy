/** Inbound sequence numbers: a gap or a replay is reported and then followed, no resend is asked
    for. The counters are 64-bit, and their arithmetic wraps. */
module SequenceNumbers {
  import opened Wrappers

  const U64 := 0x1_0000_0000_0000_0000
  const MAX := U64 - 1

  type Seq64 = n: int | 0 <= n < U64

  function Inc(n: Seq64): Seq64 { if n == MAX then 0 else n + 1 }

  /** Unsigned subtraction. */
  function Sub(a: Seq64, b: Seq64): Seq64 { if b <= a then a - b else a - b + U64 }

  datatype Warning = Gap(distance: Seq64) | Replay(distance: Seq64)

  /** What `Session::check` reports for a message numbered `current` after one numbered `previous`;
      the inbound counter becomes `current` in every case. */
  function Check(previous: Seq64, current: Seq64): Option<Warning> {
    var expected := Inc(previous);
    if current == expected then None
    else if expected < current then Some(Gap(Sub(current, previous)))
    else Some(Replay(Sub(previous, current)))
  }

  /** The inbound counter after the messages numbered `numbers`. */
  function Inbound(numbers: seq<Seq64>): Seq64 {
    if numbers == [] then 0 else numbers[|numbers| - 1]
  }

  function Report(numbers: seq<Seq64>, i: nat): Option<Warning>
    requires i < |numbers|
  {
    Check(Inbound(numbers[..i]), numbers[i])
  }

  /** One per message, plus distance - 1 for each reported gap, minus distance + 1 for each replay. */
  function Accounted(numbers: seq<Seq64>): int {
    if numbers == [] then 0
    else
      var last := |numbers| - 1;
      Accounted(numbers[..last]) + 1 +
      match Report(numbers, last)
      case None => 0
      case Some(Gap(distance)) => distance - 1
      case Some(Replay(distance)) => -(distance + 1)
  }

  /** How many messages took the counter away from its largest value. */
  function Wraps(numbers: seq<Seq64>): nat {
    if numbers == [] then 0
    else
      var last := |numbers| - 1;
      Wraps(numbers[..last]) + (if Inbound(numbers[..last]) == MAX && numbers[last] != MAX then 1 else 0)
  }

  /** Nothing is reported for the next number, a gap for a higher one and a replay for a lower one. A
      reported distance is the true difference, except for a gap that is reported when the counter
      turns over: there, and only there, the subtraction underflows. */
  lemma DistanceUnderflow(previous: Seq64, current: Seq64)
    ensures match Check(previous, current)
      case None => current == (previous + 1) % U64
      case Some(Gap(distance)) =>
        && current > (previous + 1) % U64
        && (distance == current - previous <==> previous != MAX || current == MAX)
        && (distance == current - previous + U64 <==> previous == MAX && current != MAX)
      case Some(Replay(distance)) =>
        && current < (previous + 1) % U64
        && current <= previous && distance == previous - current && previous != MAX
  {
  }

  /** An input at which the subtraction underflows, and the account is off by one turn. */
  lemma UnderflowHappens()
    ensures Check(MAX, 5) == Some(Gap(6)) && 5 - MAX != 6
    ensures Accounted([MAX, 5]) == Inbound([MAX, 5]) + U64
  {
    assert [MAX, 5][..1] == [MAX] && [MAX][..0] == [];
    assert Accounted([MAX]) == MAX;
  }

  /** Conservation for every sequence of numbers: what the reports account for is the inbound
      counter, plus one full turn for every message that took the counter from its largest value. */
  lemma {:induction false} InboundConserved(numbers: seq<Seq64>)
    ensures Accounted(numbers) == Inbound(numbers) + U64 * Wraps(numbers)
  {
    if numbers != [] {
      InboundConserved(numbers[..|numbers| - 1]);
    }
  }

  /** The reports account for the counter exactly iff a message numbered 2^64 - 1 is only ever
      followed by another one with that number. */
  lemma {:induction false} ConservedExactlyIff(numbers: seq<Seq64>)
    ensures Accounted(numbers) == Inbound(numbers) <==>
            forall i :: 0 <= i < |numbers| - 1 && numbers[i] == MAX ==> numbers[i + 1] == MAX
  {
    InboundConserved(numbers);
    WrapsCount(numbers);
  }

  lemma {:induction false} WrapsCount(numbers: seq<Seq64>)
    ensures Wraps(numbers) == 0 <==> forall i :: 0 <= i < |numbers| - 1 && numbers[i] == MAX ==> numbers[i + 1] == MAX
  {
    if numbers != [] {
      var init := numbers[..|numbers| - 1];
      WrapsCount(init);
      assert forall i :: 0 <= i < |init| ==> init[i] == numbers[i];
      if init != [] {
        assert Inbound(init) == numbers[|numbers| - 2];
      }
    }
  }

  ghost predicate Silent(numbers: seq<Seq64>) {
    forall i :: 0 <= i < |numbers| ==> Report(numbers, i).None?
  }

  lemma CountsUp(n: nat)
    ensures Inc(n % U64) == (n + 1) % U64
  {
  }

  /** No warning is ever reported iff the numbers are 1, 2, 3, ... (turning over at 2^64). */
  lemma {:induction false} SilentIff(numbers: seq<Seq64>)
    ensures Silent(numbers) <==> forall i :: 0 <= i < |numbers| ==> numbers[i] == (i + 1) % U64
  {
    if numbers != [] {
      var n := |numbers| - 1;
      var init := numbers[..n];
      SilentIff(init);
      forall i | 0 <= i < n ensures Report(init, i) == Report(numbers, i) {
        assert init[..i] == numbers[..i];
      }
      assert Silent(numbers) <==> Silent(init) && Report(numbers, n).None?;
      CountsUp(n);
      if Silent(init) {
        assert Inbound(init) == n % U64;
      }
    }
  }
}
