/** The worker's packet counters: records and flushes may interleave at every atomic operation, and nothing recorded is
    lost or pushed twice. */
module Metrics {
  datatype Kind = Received | Passed | Dropped

  const KINDS := [Received, Passed, Dropped]

  datatype Counts = Counts(received: nat, passed: nat, dropped: nat) {
    function Of(k: Kind): (n: nat) {
      match k
      case Received => received
      case Passed => passed
      case Dropped => dropped
    }

    function With(k: Kind, n: nat): (c: Counts)
      ensures c.Of(k) == n && forall j :: j != k ==> c.Of(j) == Of(j)
    {
      match k
      case Received => this.(received := n)
      case Passed => this.(passed := n)
      case Dropped => this.(dropped := n)
    }
  }

  const NOTHING := Counts(0, 0, 0)

  /** A flush takes the three counters in turn and then pushes what it took in turn. */
  datatype Flush = Flush(done: nat, held: Counts)

  datatype Sys = Sys(local: Counts, pushed: Counts, flushes: seq<Flush>, recorded: Counts)

  datatype Act = Record(kind: Kind) | Begin | Step(flush: nat)

  predicate Enabled(s: Sys, a: Act) {
    a.Step? ==> a.flush < |s.flushes| && s.flushes[a.flush].done < 6
  }

  function Next(s: Sys, a: Act): (t: Sys)
    requires Enabled(s, a)
  {
    match a
    case Record(k) =>
      s.(local := s.local.With(k, s.local.Of(k) + 1), recorded := s.recorded.With(k, s.recorded.Of(k) + 1))
    case Begin => s.(flushes := s.flushes + [Flush(0, NOTHING)])
    case Step(i) =>
      var f := s.flushes[i];
      if f.done < 3 then
        var k := KINDS[f.done];
        s.(local := s.local.With(k, 0), flushes := s.flushes[i := Flush(f.done + 1, f.held.With(k, s.local.Of(k)))])
      else
        var k := KINDS[f.done - 3];
        s.(pushed := s.pushed.With(k, s.pushed.Of(k) + f.held.Of(k)),
           flushes := s.flushes[i := Flush(f.done + 1, f.held.With(k, 0))])
  }

  /** What all flushes together have in hand. */
  function InHand(flushes: seq<Flush>, k: Kind): (n: nat) {
    if flushes == [] then 0 else flushes[0].held.Of(k) + InHand(flushes[1..], k)
  }

  /** A flush holds nothing of a counter that it has not taken yet or has already pushed. */
  ghost predicate Orderly(f: Flush) {
    f.done <= 6 && forall i :: 0 <= i < 3 && (f.done <= i || i + 3 < f.done) ==> f.held.Of(KINDS[i]) == 0
  }

  ghost predicate Inv(s: Sys) {
    && (forall i :: 0 <= i < |s.flushes| ==> Orderly(s.flushes[i]))
    && (forall k :: s.pushed.Of(k) + InHand(s.flushes, k) + s.local.Of(k) == s.recorded.Of(k))
  }

  lemma {:induction false} InHandUpdate(flushes: seq<Flush>, i: nat, f: Flush, k: Kind)
    requires i < |flushes|
    ensures InHand(flushes[i := f], k) + flushes[i].held.Of(k) == InHand(flushes, k) + f.held.Of(k)
  {
    if i == 0 {
      assert flushes[0 := f][1..] == flushes[1..];
    } else {
      assert flushes[i := f][1..] == flushes[1..][i - 1 := f];
      InHandUpdate(flushes[1..], i - 1, f, k);
    }
  }

  lemma {:induction false} InHandAppend(flushes: seq<Flush>, f: Flush, k: Kind)
    ensures InHand(flushes + [f], k) == InHand(flushes, k) + f.held.Of(k)
  {
    if flushes == [] {
      assert flushes + [f] == [f];
    } else {
      assert (flushes + [f])[1..] == flushes[1..] + [f];
      InHandAppend(flushes[1..], f, k);
    }
  }

  lemma NextInv(s: Sys, a: Act)
    requires Inv(s) && Enabled(s, a)
    ensures Inv(Next(s, a))
  {
    var t := Next(s, a);
    forall k
      ensures t.pushed.Of(k) + InHand(t.flushes, k) + t.local.Of(k) == t.recorded.Of(k)
    {
      match a
      case Record(_) =>
      case Begin => InHandAppend(s.flushes, Flush(0, NOTHING), k);
      case Step(i) => InHandUpdate(s.flushes, i, t.flushes[i], k);
    }
  }

  ghost predicate Runs(s: Sys, acts: seq<Act>)
    decreases acts
  {
    acts != [] ==> Enabled(s, acts[0]) && Runs(Next(s, acts[0]), acts[1..])
  }

  function Exec(s: Sys, acts: seq<Act>): (t: Sys)
    requires Runs(s, acts)
    decreases acts
  {
    if acts == [] then s else Exec(Next(s, acts[0]), acts[1..])
  }

  function Recorded(acts: seq<Act>, k: Kind): (n: nat) {
    if acts == [] then 0 else (if acts[0] == Record(k) then 1 else 0) + Recorded(acts[1..], k)
  }

  lemma {:induction false} ExecInv(s: Sys, acts: seq<Act>, k: Kind)
    requires Inv(s) && Runs(s, acts)
    ensures Inv(Exec(s, acts)) && Exec(s, acts).recorded.Of(k) == s.recorded.Of(k) + Recorded(acts, k)
    decreases acts
  {
    hide Inv;
    if acts == [] {
    } else {
      NextInv(s, acts[0]);
      ExecInv(Next(s, acts[0]), acts[1..], k);
    }
  }

  /** Under every interleaving of records with any number of flushes, what was pushed, what flushes have in hand and
      what is still local add up to the records. */
  lemma CountersAccount(acts: seq<Act>, k: Kind)
    requires Runs(Sys(NOTHING, NOTHING, [], NOTHING), acts)
    ensures var t := Exec(Sys(NOTHING, NOTHING, [], NOTHING), acts);
            t.pushed.Of(k) + InHand(t.flushes, k) + t.local.Of(k) == Recorded(acts, k)
  {
    ExecInv(Sys(NOTHING, NOTHING, [], NOTHING), acts, k);
  }

  /** Once every flush is over, everything not local has been pushed. */
  lemma {:induction false} FinishedFlushesHoldNothing(flushes: seq<Flush>, k: Kind)
    requires forall i :: 0 <= i < |flushes| ==> Orderly(flushes[i]) && flushes[i].done == 6
    ensures InHand(flushes, k) == 0
  {
    if flushes == [] {
    } else {
      var i := if k == Received then 0 else if k == Passed then 1 else 2;
      assert KINDS[i] == k;
      FinishedFlushesHoldNothing(flushes[1..], k);
    }
  }

  lemma EverythingIsPushed(acts: seq<Act>, k: Kind)
    requires Runs(Sys(NOTHING, NOTHING, [], NOTHING), acts)
    requires var t := Exec(Sys(NOTHING, NOTHING, [], NOTHING), acts);
             forall i :: 0 <= i < |t.flushes| ==> t.flushes[i].done == 6
    ensures var t := Exec(Sys(NOTHING, NOTHING, [], NOTHING), acts);
            t.pushed.Of(k) + t.local.Of(k) == Recorded(acts, k)
  {
    var t := Exec(Sys(NOTHING, NOTHING, [], NOTHING), acts);
    ExecInv(Sys(NOTHING, NOTHING, [], NOTHING), acts, k);
    FinishedFlushesHoldNothing(t.flushes, k);
  }

  /** The counters of one worker; `pushed` is what the collector was told. */
  class Counters {
    var local: Counts
    var pushed: Counts

    method Record(k: Kind)
      modifies this
      ensures pushed == old(pushed) && local == old(local).With(k, old(local).Of(k) + 1)
    {
      local := local.With(k, local.Of(k) + 1);
    }

    method Take(k: Kind) returns (n: nat)
      modifies this
      ensures n == old(local).Of(k) && local == old(local).With(k, 0) && pushed == old(pushed)
    {
      n := local.Of(k);
      local := local.With(k, 0);
    }

    method Push(k: Kind, n: nat)
      modifies this
      ensures pushed == old(pushed).With(k, old(pushed).Of(k) + n) && local == old(local)
    {
      pushed := pushed.With(k, pushed.Of(k) + n);
    }

    /** Without a collector nothing is taken either. */
    method Flush(collector: bool)
      modifies this
      ensures forall k: Kind :: pushed.Of(k) + local.Of(k) == old(pushed).Of(k) + old(local).Of(k)
      ensures if collector then local == NOTHING else local == old(local)
    {
      if !collector {
        return;
      }
      var received := Take(Received);
      var passed := Take(Passed);
      var dropped := Take(Dropped);
      if received > 0 { Push(Received, received); }
      if passed > 0 { Push(Passed, passed); }
      if dropped > 0 { Push(Dropped, dropped); }
    }
  }
}
