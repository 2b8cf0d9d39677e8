/** Per-thread timers (include/profiling/thread_profiling.h) as a state machine: instrumented blocks add to atomic
    counters while another thread drains the counters one by one. Every step below is one atomic access. */
module ThreadTimers {
  import opened Options
  import opened Bags
  import opened MapTotals

  const WORD: nat := 0x1_0000_0000_0000_0000

  lemma {:induction false} WordSize()
    ensures WORD == 18446744073709551616
  {
  }

  /** A drain in progress: the map entries it has still to visit and the total so far. */
  datatype Drain = Drain(pending: seq<int>, total: nat)

  /** The shared map, the drain if one is running, and the totals returned so far. `measured` and `lost` only
      keep the account: all intervals ever measured, and all time erased by initialising an entry again. */
  datatype State = State(timing: map<int, nat>, drain: Option<Drain>, returned: seq<nat>, measured: nat, lost: nat)

  datatype Step =
    | Init(tid: int)
    | Finish(tid: int, start: nat, end: nat)
    | DrainBegin(order: seq<int>)
    | DrainNext
    | DrainEnd

  const START := State(map[], None, [], 0, 0)

  /** The map is visited in some order, each entry once. */
  ghost predicate Lists(order: seq<int>, timing: map<int, nat>) {
    UniqueBy(order, Itself) && forall tid :: tid in order <==> tid in timing
  }

  ghost predicate Enabled(s: State, step: Step) {
    match step
    case Init(_) => true
    case Finish(_, start, end) => start <= end
    case DrainBegin(order) => s.drain == None && Lists(order, s.timing)
    case DrainNext => s.drain.Some? && s.drain.value.pending != []
    case DrainEnd => s.drain.Some? && s.drain.value.pending == []
  }

  /** One atomic step, in 64-bit unsigned arithmetic. */
  ghost function Next(s: State, step: Step): State
    requires Enabled(s, step)
  {
    match step
    case Init(tid) => s.(timing := s.timing[tid := 0], lost := s.lost + Get(s.timing, tid))
    case Finish(tid, start, end) =>
      s.(timing := s.timing[tid := (Get(s.timing, tid) + (end - start)) % WORD], measured := s.measured + (end - start))
    case DrainBegin(order) => s.(drain := Some(Drain(order, 0)))
    case DrainNext =>
      var d := s.drain.value;
      var tid := d.pending[0];
      s.(timing := s.timing[tid := 0], drain := Some(Drain(d.pending[1..], (d.total + Get(s.timing, tid)) % WORD)))
    case DrainEnd => s.(drain := None, returned := s.returned + [s.drain.value.total])
  }

  /** The state sequence of a run. */
  ghost predicate IsRun(states: seq<State>, steps: seq<Step>) {
    && |states| == |steps| + 1 && states[0] == START
    && forall i :: 0 <= i < |steps| ==> Enabled(states[i], steps[i]) && states[i + 1] == Next(states[i], steps[i])
  }

  // ----- Conservation -----

  function Partial(s: State): nat { if s.drain.Some? then s.drain.value.total else 0 }

  function NatOf(n: nat): int { n }

  /** Everything measured is in exactly one place. */
  ghost predicate Conserved(s: State) {
    Sum(s.returned, NatOf) + Partial(s) + Total(s.timing) + s.lost == s.measured
  }

  lemma {:induction false} ReturnedNonNegative(r: seq<nat>)
    ensures Sum(r, NatOf) >= 0
  {
    if r != [] { ReturnedNonNegative(r[..|r| - 1]); }
  }

  /** No sum wraps around while the measured time fits in a word. */
  lemma {:induction false} Fits(x: int)
    requires 0 <= x < WORD
    ensures x % WORD == x
  {
  }

  lemma {:induction false} FinishConserves(s: State, tid: int, start: nat, end: nat)
    requires Conserved(s) && start <= end && s.measured + (end - start) < WORD
    ensures Conserved(Next(s, Finish(tid, start, end)))
  {
    var c := Get(s.timing, tid) + (end - start);
    ReturnedNonNegative(s.returned);
    PartOfTotal(s.timing, tid);
    TotalUpdate(s.timing, tid, c);
    Fits(c);
  }

  lemma {:induction false} DrainNextConserves(s: State)
    requires Conserved(s) && Enabled(s, DrainNext) && s.measured < WORD
    ensures Conserved(Next(s, DrainNext))
  {
    var tid := s.drain.value.pending[0];
    ReturnedNonNegative(s.returned);
    PartOfTotal(s.timing, tid);
    TotalUpdate(s.timing, tid, 0);
    Fits(s.drain.value.total + Get(s.timing, tid));
  }

  lemma {:induction false} StepConserves(s: State, step: Step)
    requires Conserved(s) && Enabled(s, step) && Next(s, step).measured < WORD
    ensures Conserved(Next(s, step))
  {
    match step
    case Init(tid) => TotalUpdate(s.timing, tid, 0);
    case Finish(tid, start, end) => FinishConserves(s, tid, start, end);
    case DrainBegin(_) =>
    case DrainNext => DrainNextConserves(s);
    case DrainEnd =>
      SumAppend(s.returned, [s.drain.value.total], NatOf);
      SumSingle(s.drain.value.total, NatOf);
  }

  lemma {:induction false} MeasuredGrows(s: State, step: Step)
    requires Enabled(s, step)
    ensures s.measured <= Next(s, step).measured
  {
  }

  /** For every interleaving: returned totals, the drain in progress, the counters and what re-initialisation
      erased add up to the measured time. */
  lemma {:induction false} RunConserves(states: seq<State>, steps: seq<Step>)
    requires IsRun(states, steps) && states[|steps|].measured < WORD
    ensures Conserved(states[|steps|])
  {
    var n := |steps|;
    if n == 0 {
      TotalZero(START.timing);
    } else {
      assert IsRun(states[..n], steps[..n - 1]);
      MeasuredGrows(states[n - 1], steps[n - 1]);
      RunConserves(states[..n], steps[..n - 1]);
      StepConserves(states[n - 1], steps[n - 1]);
    }
  }

  /** Every initialisation finds its thread's counter empty. */
  ghost predicate NoneErased(states: seq<State>, steps: seq<Step>)
    requires |states| == |steps| + 1
  {
    forall i :: 0 <= i < |steps| && steps[i].Init? ==> Get(states[i].timing, steps[i].tid) == 0
  }

  /** Time is lost exactly by initialising a thread whose counter is not empty. */
  lemma {:induction false} LostIff(states: seq<State>, steps: seq<Step>)
    requires IsRun(states, steps)
    ensures states[|steps|].lost == 0 <==> NoneErased(states, steps)
  {
    var n := |steps|;
    if n > 0 {
      assert IsRun(states[..n], steps[..n - 1]);
      LostIff(states[..n], steps[..n - 1]);
      assert states[n] == Next(states[n - 1], steps[n - 1]);
      var last := steps[n - 1].Init? ==> Get(states[n - 1].timing, steps[n - 1].tid) == 0;
      assert NoneErased(states, steps) <==> NoneErased(states[..n], steps[..n - 1]) && last;
    }
  }

  /** What has been returned, what the running drain holds and the counters. */
  ghost function Accounted(s: State): int { Sum(s.returned, NatOf) + Partial(s) + Total(s.timing) }

  /** For every interleaving: nothing is lost and nothing counted twice if and only if every initialisation finds
      its thread's counter empty. */
  lemma {:induction false} Conservation(states: seq<State>, steps: seq<Step>)
    requires IsRun(states, steps) && states[|steps|].measured < WORD
    ensures Accounted(states[|steps|]) == states[|steps|].measured <==> NoneErased(states, steps)
  {
    RunConserves(states, steps);
    LostIff(states, steps);
  }

  /** No thread is initialised after it has finished a block. */
  ghost predicate InitialisedFirst(steps: seq<Step>) {
    forall i, j :: 0 <= i < j < |steps| && steps[i].Finish? && steps[j].Init? ==> steps[i].tid != steps[j].tid
  }

  /** A thread that has finished no block has an empty counter. */
  lemma {:induction false} StillEmpty(states: seq<State>, steps: seq<Step>, tid: int)
    requires IsRun(states, steps) && forall i :: 0 <= i < |steps| && steps[i].Finish? ==> steps[i].tid != tid
    ensures Get(states[|steps|].timing, tid) == 0
  {
    var n := |steps|;
    if n > 0 {
      assert IsRun(states[..n], steps[..n - 1]);
      StillEmpty(states[..n], steps[..n - 1], tid);
      assert states[n] == Next(states[n - 1], steps[n - 1]);
    }
  }

  /** Initialising every thread before its own first block is enough, whatever the other threads do. */
  lemma {:induction false} InitialisedFirstSuffices(states: seq<State>, steps: seq<Step>)
    requires IsRun(states, steps) && InitialisedFirst(steps)
    ensures NoneErased(states, steps)
  {
    forall j | 0 <= j < |steps| && steps[j].Init? ensures Get(states[j].timing, steps[j].tid) == 0 {
      assert IsRun(states[..j + 1], steps[..j]);
      StillEmpty(states[..j + 1], steps[..j], steps[j].tid);
    }
  }

  // ----- A drain nobody interrupts -----

  /** The states of an uninterrupted drain loop. */
  ghost function DrainAll(s: State): State
    requires s.drain.Some?
    decreases |s.drain.value.pending|
  {
    if s.drain.value.pending == [] then Next(s, DrainEnd) else DrainAll(Next(s, DrainNext))
  }

  /** A visited counter stays empty, so afterwards all of them are. */
  lemma {:induction false} DrainEmpties(s: State)
    requires s.drain.Some? && forall k :: Get(s.timing, k) != 0 ==> k in s.drain.value.pending
    ensures var e := DrainAll(s); e.drain == None && e.measured == s.measured && e.lost == s.lost
    ensures Total(DrainAll(s).timing) == 0
    decreases |s.drain.value.pending|
  {
    if s.drain.value.pending != [] {
      var pending := s.drain.value.pending;
      assert pending == [pending[0]] + pending[1..];
      var s' := Next(s, DrainNext);
      forall k | Get(s'.timing, k) != 0 ensures k in s'.drain.value.pending {
        assert Get(s.timing, k) != 0;
      }
      DrainEmpties(s');
    } else {
      forall k ensures Get(s.timing, k) == 0 {
        assert k !in s.drain.value.pending;
      }
      TotalZero(s.timing);
    }
  }

  lemma {:induction false} DrainKeepsAccount(s: State)
    requires s.drain.Some? && Conserved(s) && s.measured < WORD
    ensures Conserved(DrainAll(s))
    decreases |s.drain.value.pending|
  {
    if s.drain.value.pending == [] {
      StepConserves(s, DrainEnd);
    } else {
      StepConserves(s, DrainNext);
      DrainKeepsAccount(Next(s, DrainNext));
    }
  }

  /** Once the workers are quiet, one more drain accounts for all measured time. */
  lemma {:induction false} FinalDrain(states: seq<State>, steps: seq<Step>, order: seq<int>)
    requires IsRun(states, steps) && NoneErased(states, steps) && states[|steps|].measured < WORD
    requires Enabled(states[|steps|], DrainBegin(order))
    ensures var e := DrainAll(Next(states[|steps|], DrainBegin(order)));
            Sum(e.returned, NatOf) == states[|steps|].measured
  {
    var s := states[|steps|];
    RunConserves(states, steps);
    LostIff(states, steps);
    var b := Next(s, DrainBegin(order));
    StepConserves(s, DrainBegin(order));
    DrainEmpties(b);
    DrainKeepsAccount(b);
  }

  /** Initialising a thread again after it measured something erases that time. */
  lemma {:induction false} LateInitLoses()
    ensures var steps := [Finish(1, 0, 5), Init(1)];
            exists states: seq<State> ::
              IsRun(states, steps) && states[2].lost == 5 && states[2].measured == 5 && Total(states[2].timing) == 0
  {
    var steps := [Finish(1, 0, 5), Init(1)];
    var s1 := Next(START, steps[0]);
    var s2 := Next(s1, steps[1]);
    TotalZero(s2.timing);
    assert IsRun([START, s1, s2], steps);
    assert [START, s1, s2][2] == s2;
  }

  // ----- Whatever is measured -----

  ghost function Account(s: State): int {
    Sum(s.returned, NatOf) + Partial(s) + Total(s.timing) + s.lost - s.measured
  }

  /** Every counter, every total returned and the one in progress is a word. */
  ghost predicate WithinWords(s: State) {
    && (forall tid :: Get(s.timing, tid) < WORD) && Partial(s) < WORD
    && forall i :: 0 <= i < |s.returned| ==> s.returned[i] < WORD
  }

  lemma {:induction false} Reduced(account: int, x: nat)
    requires account % WORD == 0
    ensures (account - x + x % WORD) % WORD == 0 && 0 <= x % WORD < WORD
  {
    assert x == WORD * (x / WORD) + x % WORD;
  }

  lemma {:induction false} FinishModulo(s: State, tid: int, start: nat, end: nat)
    requires start <= end && Account(s) % WORD == 0 && WithinWords(s)
    ensures var s' := Next(s, Finish(tid, start, end)); Account(s') % WORD == 0 && WithinWords(s')
  {
    var c := Get(s.timing, tid) + (end - start);
    var s' := Next(s, Finish(tid, start, end));
    TotalUpdate(s.timing, tid, c % WORD);
    Reduced(Account(s) + c - c, c);
    assert Account(s') == Account(s) - c + c % WORD;
    StaysBelow(s.timing, tid, c % WORD, s'.timing);
  }

  lemma {:induction false} StaysBelow(timing: map<int, nat>, tid: int, v: nat, next: map<int, nat>)
    requires v < WORD && next == timing[tid := v] && forall x :: Get(timing, x) < WORD
    ensures forall x :: Get(next, x) < WORD
  {
    forall x ensures Get(next, x) < WORD {
      assert Get(timing, x) < WORD;
    }
  }

  lemma {:induction false} StepModulo(s: State, step: Step)
    requires Enabled(s, step) && Account(s) % WORD == 0 && WithinWords(s)
    ensures Account(Next(s, step)) % WORD == 0 && WithinWords(Next(s, step))
  {
    match step
    case Init(tid) =>
      TotalUpdate(s.timing, tid, 0);
      StaysBelow(s.timing, tid, 0, Next(s, step).timing);
    case Finish(tid, start, end) => FinishModulo(s, tid, start, end);
    case DrainBegin(_) =>
    case DrainNext =>
      var tid := s.drain.value.pending[0];
      TotalUpdate(s.timing, tid, 0);
      StaysBelow(s.timing, tid, 0, Next(s, step).timing);
      Reduced(Account(s), s.drain.value.total + Get(s.timing, tid));
    case DrainEnd =>
      SumAppend(s.returned, [s.drain.value.total], NatOf);
      SumSingle(s.drain.value.total, NatOf);
  }

  /** For every run and whatever it measures, the account is complete modulo 2^64, in words. */
  lemma {:induction false} RunModulo(states: seq<State>, steps: seq<Step>)
    requires IsRun(states, steps)
    ensures Account(states[|steps|]) % WORD == 0 && WithinWords(states[|steps|])
  {
    if steps == [] {
      TotalZero(START.timing);
    } else {
      var n := |steps| - 1;
      assert IsRun(states[..|steps|], steps[..n]);
      RunModulo(states[..|steps|], steps[..n]);
      StepModulo(states[n], steps[n]);
    }
  }

  // ----- A drain visits every entry -----

  /** Step k empties the counter of tid. */
  ghost predicate VisitedAt(states: seq<State>, steps: seq<Step>, tid: int, k: int) {
    && 0 <= k < |steps| < |states| && steps[k].DrainNext? && states[k].drain.Some?
    && states[k].drain.value.pending != [] && states[k].drain.value.pending[0] == tid
  }

  ghost predicate VisitedIn(states: seq<State>, steps: seq<Step>, tid: int, b: int, j: int) {
    exists k :: b < k < j && VisitedAt(states, steps, tid, k)
  }

  /** At state j a drain begun at step b has visited all entries but the pending ones. */
  lemma {:induction false} VisitedSoFar(states: seq<State>, steps: seq<Step>, b: nat, j: nat) returns (v: nat)
    requires IsRun(states, steps) && b < j <= |steps| && steps[b].DrainBegin?
    requires forall k :: b < k < j ==> !steps[k].DrainEnd?
    ensures v <= |steps[b].order| && states[j].drain.Some? && states[j].drain.value.pending == steps[b].order[v..]
    ensures forall x :: 0 <= x < v ==> VisitedIn(states, steps, steps[b].order[x], b, j)
  {
    var order := steps[b].order;
    assert states[j] == Next(states[j - 1], steps[j - 1]);
    if j == b + 1 {
      v := 0;
    } else {
      v := VisitedSoFar(states, steps, b, j - 1);
      forall x | 0 <= x < v ensures VisitedIn(states, steps, order[x], b, j) {
        var k :| b < k < j - 1 && VisitedAt(states, steps, order[x], k);
      }
      if steps[j - 1].DrainNext? {
        assert VisitedAt(states, steps, order[v], j - 1);
        v := v + 1;
      }
    }
  }

  /** Before a drain returns it has emptied every counter that the map had when it began. */
  lemma {:induction false} EveryEntryVisited(states: seq<State>, steps: seq<Step>, b: nat, e: nat, tid: int)
    requires IsRun(states, steps) && b < e < |steps| && steps[b].DrainBegin? && steps[e].DrainEnd?
    requires (forall k :: b < k < e ==> !steps[k].DrainEnd?) && tid in states[b].timing
    ensures VisitedIn(states, steps, tid, b, e)
  {
    assert Enabled(states[b], steps[b]) && Enabled(states[e], steps[e]);
    var v := VisitedSoFar(states, steps, b, e);
    var x :| 0 <= x < |steps[b].order| && steps[b].order[x] == tid;
    assert steps[b].order[v..] == [];
  }
}
