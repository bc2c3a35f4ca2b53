/**
 Whole runs of the sequence-number rule of Stack/securechannel/opcua_tcpsecurechannel.c
 (section 6.7.2 of OPC UA Part 6): what GetSequenceNumber produces and what CheckSequenceNumber
 accepts, number after number and across every wrap of the 32-bit counter.
 */
module SequenceNumbers {
  import opened Basics
  import opened SecureChannels

  /** The `n`-th number that GetSequenceNumber hands out when the counter starts at `start`. */
  function Produced(start: UInt32, n: nat): UInt32 {
    if n == 0 then start else Succ32(Produced(start, n - 1))
  }

  /** The first `n` numbers, in the order of sending. */
  function Sent(start: UInt32, n: nat): seq<UInt32> {
    seq(n, i requires 0 <= i < n => Produced(start, i + 1))
  }

  /** The numbers that CheckSequenceNumber accepts out of those offered, when the last one was `last`. */
  function Accepted(last: UInt32, offered: seq<UInt32>): (r: seq<UInt32>)
    ensures |r| <= |offered|
    decreases |offered|
  {
    if offered == [] then []
    else if Follows(last, offered[0]) then [offered[0]] + Accepted(offered[0], offered[1..])
    else Accepted(last, offered[1..])
  }

  /** The number that came before position `k`. */
  function Before(last: UInt32, s: seq<UInt32>, k: nat): UInt32
    requires k < |s|
  {
    if k == 0 then last else s[k - 1]
  }

  /** Each number follows the one before it, the first one follows `last`. */
  ghost predicate Chain(last: UInt32, s: seq<UInt32>) {
    forall k :: 0 <= k < |s| ==> Follows(Before(last, s, k), s[k])
  }

  lemma ChainCons(last: UInt32, x: UInt32, rest: seq<UInt32>)
    ensures Chain(last, [x] + rest) <==> Follows(last, x) && Chain(x, rest)
  {
    hide Follows;
    var s := [x] + rest;
    assert Before(last, s, 0) == last && s[0] == x;
    if Chain(last, s) {
      forall k | 0 <= k < |rest|
        ensures Follows(Before(x, rest, k), rest[k])
      {
        assert Before(x, rest, k) == Before(last, s, k + 1) && s[k + 1] == rest[k];
      }
    }
    if Follows(last, x) && Chain(x, rest) {
      forall k | 0 < k < |s|
        ensures Follows(Before(last, s, k), s[k])
      {
        assert Before(x, rest, k - 1) == Before(last, s, k) && s[k] == rest[k - 1];
      }
    }
  }

  lemma {:induction false} AcceptedIsChain(last: UInt32, offered: seq<UInt32>)
    ensures Chain(last, Accepted(last, offered))
    decreases |offered|
  {
    if offered == [] {
    } else if Follows(last, offered[0]) {
      AcceptedIsChain(offered[0], offered[1..]);
      ChainCons(last, offered[0], Accepted(offered[0], offered[1..]));
    } else {
      AcceptedIsChain(last, offered[1..]);
    }
  }

  lemma {:induction false} ChainIsAccepted(last: UInt32, s: seq<UInt32>)
    requires Chain(last, s)
    ensures Accepted(last, s) == s
    decreases |s|
  {
    if s == [] {
    } else {
      assert s == [s[0]] + s[1..];
      ChainCons(last, s[0], s[1..]);
      ChainIsAccepted(s[0], s[1..]);
    }
  }

  /** A fresh receiver accepts everything a sender produces, forever, exactly when the sender's
      first number is below 1024. */
  lemma InOrderAccepted(start: UInt32, n: nat)
    ensures Accepted(UINT32_MAX, Sent(start, n)) == Sent(start, n) <==> n == 0 || Succ32(start) < FIRST_NUMBER_LIMIT
  {
    var s := Sent(start, n);
    if n > 0 {
      assert s[0] == Produced(start, 1) == Succ32(Produced(start, 0));
      if Succ32(start) < FIRST_NUMBER_LIMIT {
        forall k | 0 <= k < n
          ensures Follows(Before(UINT32_MAX, s, k), s[k])
        {
          assert s[k] == Succ32(Produced(start, k));
        }
        ChainIsAccepted(UINT32_MAX, s);
      } else {
        assert !Follows(UINT32_MAX, s[0]);
        assert |Accepted(UINT32_MAX, s)| <= n - 1;
      }
    }
  }

  /** The stack's own starting value meets the condition. */
  lemma StartingNumberAccepted(n: nat)
    ensures Accepted(UINT32_MAX, Sent(STARTING_SEQUENCE_NUMBER, n)) == Sent(STARTING_SEQUENCE_NUMBER, n)
  {
    InOrderAccepted(STARTING_SEQUENCE_NUMBER, n);
  }

  /** When the last number accepted was one of the last 1024 before the wrap, every number below 1024 is accepted, and
      else only the next one: exactly these. */
  lemma AcceptedNext(last: UInt32, number: UInt32)
    ensures Accepted(last, [number]) == [number] <==>
      Sub32(number, last) == 1 || (last + 1024 >= TWO_TO_THE_32 && number < 1024)
    ensures Accepted(last, [number]) == [number] || Accepted(last, [number]) == []
  {
    assert [number][1..] == [];
  }

  /** So a sender may wrap at any number of the window and go on from any number below 1024: a fresh receiver accepts all
      of both climbs. */
  lemma AnyWrapAccepted(last: UInt32, first: UInt32, n: nat)
    requires last + 1024 >= TWO_TO_THE_32 && first < 1024 && first + n <= UINT32_MAX
    ensures var numbers := seq(last + 1, k requires 0 <= k < last + 1 => k) + seq(n, k requires 0 <= k < n => first + k);
      Accepted(UINT32_MAX, numbers) == numbers
  {
    var numbers: seq<UInt32> := seq(last + 1, k requires 0 <= k < last + 1 => k) + seq(n, k requires 0 <= k < n => first + k);
    forall k | 0 <= k < |numbers|
      ensures Follows(Before(UINT32_MAX, numbers, k), numbers[k])
    {
      assert numbers[k] == if k <= last then k else first + (k - (last + 1));
      assert k > 0 ==> numbers[k - 1] == if k - 1 <= last then k - 1 else first + (k - 1 - (last + 1));
    }
    ChainIsAccepted(UINT32_MAX, numbers);
  }

  // ----- how soon a number can recur -----

  const RECURRENCE_BOUND := 4294965250

  function Max0(x: int): nat {
    if x > 0 then x else 0
  }

  /** In a chain that started at `x`, the least number of steps after which `y` can be reached once
      the counter has wrapped: climb into the wrap window, wrap, and climb from 1023 at best. */
  function LeastSteps(x: UInt32, y: UInt32): nat {
    Max0(LAST_NUMBER_BEFORE_WRAP_WINDOW + 1 - x) + 1 + Max0(y - (FIRST_NUMBER_LIMIT - 1))
  }

  lemma OneStepFurther(x: UInt32, y: UInt32, z: UInt32, n: nat)
    requires Follows(y, z)
    requires y == x + n || n >= LeastSteps(x, y)
    ensures z == x + n + 1 || n + 1 >= LeastSteps(x, z)
  {
    assert z == y + 1 || (z <= 1023 && y >= LAST_NUMBER_BEFORE_WRAP_WINDOW + 1);
  }

  /** Either the chain climbed by ones all the way, or it wrapped and has paid for that. */
  lemma {:induction false} ClimbOrWrap(last: UInt32, s: seq<UInt32>, i: nat, j: nat)
    requires Chain(last, s) && i <= j < |s|
    ensures s[j] == s[i] + (j - i) || j - i >= LeastSteps(s[i], s[j])
    decreases j - i
  {
    if i == j {
    } else {
      hide Follows;
      ClimbOrWrap(last, s, i, j - 1);
      assert Before(last, s, j) == s[j - 1];
      OneStepFurther(s[i], s[j - 1], s[j], j - 1 - i);
    }
  }

  /** Whatever is offered, two acceptances of one number are at least 4294965250 acceptances apart. */
  lemma RecurrenceBound(last: UInt32, offered: seq<UInt32>, i: nat, j: nat)
    requires i < j < |Accepted(last, offered)|
    requires Accepted(last, offered)[i] == Accepted(last, offered)[j]
    ensures j - i >= RECURRENCE_BOUND
  {
    AcceptedIsChain(last, offered);
    ClimbOrWrap(last, Accepted(last, offered), i, j);
  }

  /** The shortest run that repeats a number: from 1023 up to the wrap window, and back to 1023. */
  function ShortestRun(): (s: seq<UInt32>)
    ensures |s| == RECURRENCE_BOUND + 1
    ensures forall k :: 0 <= k < |s| ==> s[k] == if k < RECURRENCE_BOUND then 1023 + k else 1023
  {
    seq(RECURRENCE_BOUND + 1, k requires 0 <= k < RECURRENCE_BOUND + 1 => if k < RECURRENCE_BOUND then 1023 + k else 1023)
  }

  /** The bound is reached, from the receiver's initial state. */
  lemma RecurrenceBoundIsTight()
    ensures Accepted(UINT32_MAX, ShortestRun()) == ShortestRun()
    ensures ShortestRun()[0] == ShortestRun()[RECURRENCE_BOUND]
  {
    var s := ShortestRun();
    forall k | 0 <= k < |s|
      ensures Follows(Before(UINT32_MAX, s, k), s[k])
    {
    }
    ChainIsAccepted(UINT32_MAX, s);
  }
}
