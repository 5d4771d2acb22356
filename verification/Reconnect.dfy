/**
 The tunnel agent's connection loop: QUIC with fallback to WebSockets, and the reconnect delay.

 A run is driven by the outcome of every dial, one `Cycle` per iteration of the loop. `Agent`
 holds the loop and the delay; `Trace` is the specification. Delays are 64-bit counts of
 nanoseconds and doubling wraps around.
 */
module Reconnect {
  import opened Arithmetic

  const AUTO_QUIC_COOLDOWN := 5

  const TWO_62: int := 0x4000_0000_0000_0000
  const TWO_63: int := 0x8000_0000_0000_0000

  /** The value of a 64-bit signed multiplication by two. */
  function Doubled(delay: int): int {
    var d := (2 * delay) % (2 * TWO_63);
    if d >= TWO_63 then d - 2 * TWO_63 else d
  }

  /** The delay after a wait. */
  function NextDelay(delay: int, max: int): int {
    if Doubled(delay) > max then max else Doubled(delay)
  }

  /** What the dials of one iteration would yield. */
  datatype Cycle = Cycle(quicConnects: bool, wssConnects: bool)

  /** One iteration as it went: whether QUIC was dialled, whether a connection was made, and the wait that followed. */
  datatype Entry = Entry(dialled: bool, connected: bool, overQuic: bool, waited: int)

  datatype Loop = Loop(cooldown: nat, delay: int)

  function Iterate(l: Loop, initial: int, max: int, c: Cycle): (Loop, Entry) {
    var dialled := l.cooldown == 0;
    var overQuic := dialled && c.quicConnects;
    var connected := overQuic || c.wssConnects;
    var waited := if connected then initial else l.delay;
    var cooldown := if overQuic then 0 else if dialled then AUTO_QUIC_COOLDOWN else l.cooldown - 1;
    (Loop(cooldown, NextDelay(waited, max)), Entry(dialled, connected, overQuic, waited))
  }

  function State(initial: int, max: int, cycles: seq<Cycle>): Loop {
    if cycles == [] then Loop(0, initial)
    else Iterate(State(initial, max, cycles[..|cycles| - 1]), initial, max, cycles[|cycles| - 1]).0
  }

  function EntryAt(initial: int, max: int, cycles: seq<Cycle>, i: nat): Entry
    requires i < |cycles|
  {
    Iterate(State(initial, max, cycles[..i]), initial, max, cycles[i]).1
  }

  class Agent {
    const reconnectInitial: int
    const reconnectMax: int
    var reconnectDelay: int

    constructor (initial: int, max: int)
      ensures reconnectInitial == initial && reconnectMax == max && reconnectDelay == initial
    {
      reconnectInitial, reconnectMax, reconnectDelay := initial, max, initial;
    }

    method WaitReconnect() returns (waited: int)
      modifies this
      ensures waited == old(reconnectDelay)
      ensures reconnectDelay == NextDelay(old(reconnectDelay), reconnectMax)
    {
      waited := reconnectDelay;
      reconnectDelay := Doubled(reconnectDelay);
      if reconnectDelay > reconnectMax {
        reconnectDelay := reconnectMax;
      }
    }

    /** The loop of the automatic transport over a finite prefix of its iterations. */
    method RunAuto(cycles: seq<Cycle>) returns (log: seq<Entry>)
      requires reconnectDelay == reconnectInitial
      modifies this
      ensures |log| == |cycles|
      ensures forall i :: 0 <= i < |cycles| ==> log[i] == EntryAt(reconnectInitial, reconnectMax, cycles, i)
      ensures reconnectDelay == State(reconnectInitial, reconnectMax, cycles).delay
    {
      hide NextDelay, Doubled;
      var quicCooldown: nat := 0;
      log := [];
      var i := 0;
      while i < |cycles|
        invariant 0 <= i <= |cycles| && |log| == i
        invariant Loop(quicCooldown, reconnectDelay) == State(reconnectInitial, reconnectMax, cycles[..i])
        invariant forall k :: 0 <= k < i ==> log[k] == EntryAt(reconnectInitial, reconnectMax, cycles, k)
      {
        StateStep(reconnectInitial, reconnectMax, cycles, i);
        var dialled := quicCooldown == 0;
        if quicCooldown == 0 {
          if cycles[i].quicConnects {
            reconnectDelay := reconnectInitial;
            var waited := WaitReconnect();
            log := log + [Entry(dialled, true, true, waited)];
            i := i + 1;
            continue;
          }
          quicCooldown := AUTO_QUIC_COOLDOWN;
        } else {
          quicCooldown := quicCooldown - 1;
        }
        if !cycles[i].wssConnects {
          var waited := WaitReconnect();
          log := log + [Entry(dialled, false, false, waited)];
          i := i + 1;
          continue;
        }
        reconnectDelay := reconnectInitial;
        var waited := WaitReconnect();
        log := log + [Entry(dialled, true, false, waited)];
        i := i + 1;
      }
      assert cycles[..i] == cycles;
    }
  }

  lemma StateStep(initial: int, max: int, cycles: seq<Cycle>, i: nat)
    requires i < |cycles|
    ensures State(initial, max, cycles[..i + 1]) == Iterate(State(initial, max, cycles[..i]), initial, max, cycles[i]).0
    ensures EntryAt(initial, max, cycles, i) == Iterate(State(initial, max, cycles[..i]), initial, max, cycles[i]).1
  {
    hide Iterate;
    assert cycles[..i + 1][..i] == cycles[..i];
  }

  // ---------------------------------------------------------------- the cooldown

  /** After a failed QUIC dial the cooldown counts down over the iterations that follow. */
  lemma {:induction false} CooldownCounts(initial: int, max: int, cycles: seq<Cycle>, i: nat, k: nat)
    requires i + k < |cycles| && k <= AUTO_QUIC_COOLDOWN
    requires EntryAt(initial, max, cycles, i).dialled && !EntryAt(initial, max, cycles, i).overQuic
    ensures State(initial, max, cycles[..i + k + 1]).cooldown == AUTO_QUIC_COOLDOWN - k
  {
    hide NextDelay;
    StateStep(initial, max, cycles, i + k);
    if k > 0 {
      CooldownCounts(initial, max, cycles, i, k - 1);
    }
  }

  /** Exactly five iterations without a QUIC dial separate a failed QUIC dial from the next one. */
  lemma CooldownIsExact(initial: int, max: int, cycles: seq<Cycle>, i: nat, j: nat)
    requires i < j < |cycles| && j <= i + AUTO_QUIC_COOLDOWN + 1
    requires EntryAt(initial, max, cycles, i).dialled && !EntryAt(initial, max, cycles, i).overQuic
    ensures EntryAt(initial, max, cycles, j).dialled <==> j == i + AUTO_QUIC_COOLDOWN + 1
  {
    hide NextDelay, State;
    CooldownCounts(initial, max, cycles, i, j - i - 1);
  }

  /** After a QUIC connection the next iteration dials QUIC again. */
  lemma ConnectedDialsAgain(initial: int, max: int, cycles: seq<Cycle>, i: nat)
    requires i + 1 < |cycles| && EntryAt(initial, max, cycles, i).overQuic
    ensures EntryAt(initial, max, cycles, i + 1).dialled
  {
    hide NextDelay, State;
    StateStep(initial, max, cycles, i);
  }

  // ---------------------------------------------------------------- the delay

  /** The j-th wait since the last connection, without a width. */
  function Backoff(initial: int, max: int, j: nat): int {
    if initial * Pow2(j) < max then initial * Pow2(j) else max
  }

  /** The delay that the code waits j iterations after the last connection. */
  function Delay(initial: int, max: int, j: nat): int {
    if j == 0 then initial else NextDelay(Delay(initial, max, j - 1), max)
  }

  /** The wait of iteration `i` is the j-th, from 0, since the last connection or since the start. */
  ghost predicate WaitsSince(initial: int, max: int, cycles: seq<Cycle>, i: nat, j: nat)
    requires i < |cycles|
  {
    && j <= i
    && (j == i || EntryAt(initial, max, cycles, i - j).connected)
    && (forall k :: i - j < k <= i ==> !EntryAt(initial, max, cycles, k).connected)
  }

  lemma {:induction false} WaitFollowsDelay(initial: int, max: int, cycles: seq<Cycle>, i: nat, j: nat)
    requires i < |cycles| && WaitsSince(initial, max, cycles, i, j)
    ensures EntryAt(initial, max, cycles, i).waited == Delay(initial, max, j)
    ensures State(initial, max, cycles[..i + 1]).delay == NextDelay(Delay(initial, max, j), max)
  {
    hide NextDelay;
    StateStep(initial, max, cycles, i);
    if j > 0 {
      assert WaitsSince(initial, max, cycles, i - 1, j - 1);
      WaitFollowsDelay(initial, max, cycles, i - 1, j - 1);
    } else if i == 0 {
      assert cycles[..0] == [];
    }
  }

  lemma BackoffDoubles(initial: int, max: int, j: nat)
    requires 0 < initial <= max
    ensures Backoff(initial, max, j + 1) ==
            if 2 * Backoff(initial, max, j) < max then 2 * Backoff(initial, max, j) else max
    ensures 0 < Backoff(initial, max, j) <= max
    ensures Backoff(initial, max, 0) == initial
  {
    var p := Pow2(j);
    assert Pow2(j + 1) == 2 * p;
    assert initial * (2 * p) == 2 * (initial * p);
    ProductPositive(initial, p);
    assert Pow2(0) == 1;
  }

  lemma ProductPositive(a: int, b: int)
    requires a >= 1 && b >= 1
    ensures a * b >= b
  {
  }

  lemma DoubledInRange(d: int)
    requires 0 <= d < TWO_63
    ensures Doubled(d) == if d < TWO_62 then 2 * d else 2 * d - 2 * TWO_63
  {
  }

  lemma {:induction false} DelayIsBackoff(initial: int, max: int, j: nat)
    requires 0 < initial <= max < TWO_62
    ensures Delay(initial, max, j) == Backoff(initial, max, j)
  {
    hide Doubled, Backoff;
    if j == 0 {
      BackoffDoubles(initial, max, 0);
    } else {
      DelayIsBackoff(initial, max, j - 1);
      BackoffDoubles(initial, max, j - 1);
      DoubledInRange(Backoff(initial, max, j - 1));
    }
  }

  lemma Pow2Is62()
    ensures Pow2(62) == TWO_62
  {
    assert Pow2(10) == 1024;
    assert Pow2(20) == 1048576;
    assert Pow2(30) == 0x4000_0000;
    assert Pow2(40) == 0x100_0000_0000;
    assert Pow2(50) == 0x4_0000_0000_0000;
    assert Pow2(60) == 0x1000_0000_0000_0000;
  }

  /** With a cap of 2^62 nanoseconds or more the doubling wraps around by the 63rd wait: the delay is then negative. */
  lemma DelayWrapsAround(initial: int, max: int)
    requires 0 < initial <= max < TWO_63 && TWO_62 <= max
    requires Delay(initial, max, 62) == Backoff(initial, max, 62)
    ensures Delay(initial, max, 63) < 0 < Backoff(initial, max, 63)
  {
    hide Doubled;
    Pow2Is62();
    ProductPositive(initial, Pow2(62));
    BackoffDoubles(initial, max, 62);
    BackoffDoubles(initial, max, 63);
    DoubledInRange(Backoff(initial, max, 62));
  }

  ghost predicate BacksOff(initial: int, max: int) {
    forall j: nat :: Delay(initial, max, j) == Backoff(initial, max, j)
  }

  /** The waits since the last connection are the initial delay doubled each time and capped, for every number
      of failures, exactly if the cap is below 2^62 nanoseconds. */
  lemma BacksOffIff(initial: int, max: int)
    requires 0 < initial <= max < TWO_63
    ensures BacksOff(initial, max) <==> max < TWO_62
  {
    hide Delay, Backoff;
    if max < TWO_62 {
      forall j: nat
        ensures Delay(initial, max, j) == Backoff(initial, max, j)
      {
        DelayIsBackoff(initial, max, j);
      }
    } else if Delay(initial, max, 62) == Backoff(initial, max, 62) {
      DelayWrapsAround(initial, max);
      assert Delay(initial, max, 63) != Backoff(initial, max, 63);
    }
  }

  /** Every wait of every run, under a cap below 2^62. */
  lemma EveryWait(initial: int, max: int, cycles: seq<Cycle>, i: nat, j: nat)
    requires 0 < initial <= max < TWO_62
    requires i < |cycles| && WaitsSince(initial, max, cycles, i, j)
    ensures EntryAt(initial, max, cycles, i).waited == Backoff(initial, max, j)
  {
    hide EntryAt, Delay, Backoff, WaitsSince, State;
    WaitFollowsDelay(initial, max, cycles, i, j);
    DelayIsBackoff(initial, max, j);
  }

  // ---------------------------------------------------------------- one iteration

  /** Doubling is multiplication by two in signed 64-bit arithmetic. */
  lemma DoubledIsSigned(delay: int)
    ensures -TWO_63 <= Doubled(delay) < TWO_63
    ensures (Doubled(delay) - 2 * delay) % (2 * TWO_63) == 0
  {
    var m := 2 * TWO_63;
    var d := 2 * delay % m;
    assert 2 * delay == 2 * delay / m * m + d;
    DivUnique(d - 2 * delay, m, -(2 * delay / m), 0);
    DivUnique(d - m - 2 * delay, m, -(2 * delay / m) - 1, 0);
  }

  /** What one iteration does, from any state of the loop: QUIC is dialled exactly when no cooldown is left, a
      connection is made over QUIC or else over WebSockets, and the wait that follows is the initial delay after a
      connection and the present one otherwise. */
  lemma IterationMeans(l: Loop, initial: int, max: int, c: Cycle)
    ensures var (after, e) := Iterate(l, initial, max, c);
            && (e.dialled <==> l.cooldown == 0)
            && (e.overQuic <==> l.cooldown == 0 && c.quicConnects)
            && (e.connected <==> (l.cooldown == 0 && c.quicConnects) || c.wssConnects)
            && e.waited == (if e.connected then initial else l.delay)
            && (e.overQuic ==> after.cooldown == 0)
            && (e.dialled && !e.overQuic ==> after.cooldown == 5)
            && (!e.dialled ==> after.cooldown == l.cooldown - 1)
            && (Doubled(e.waited) > max ==> after.delay == max)
            && (Doubled(e.waited) <= max ==> after.delay == Doubled(e.waited))
  {
  }

  /** The first iteration dials QUIC. */
  lemma FirstIterationDials(initial: int, max: int, cycles: seq<Cycle>)
    requires cycles != []
    ensures EntryAt(initial, max, cycles, 0).dialled
  {
    assert cycles[..0] == [];
  }
}
