/** The rsync worker pools: a closed queue of units drained by goroutines under one context, over
    every interleaving. `runParallelRsyncSSH` and `runParallelRsyncMount` differ in when a worker
    gives up and in which errors count. */
module WorkerQueue {
  datatype Mode = Ssh | Mount

  /** How a unit went; `Cut` is the error of a context that was cancelled. */
  datatype Outcome = Good | Bad | Cut

  datatype Result = Result(unit: nat, outcome: Outcome)

  datatype Worker = Ready | Holding(unit: nat) | Gone

  /** `next` units have left the queue; `stopped`: the workers' context; `outside`: cancelled by the caller. */
  datatype Pool = Pool(total: nat, next: nat, workers: seq<Worker>, results: seq<Result>, stopped: bool, outside: bool)

  datatype Action =
    | Take(w: nat)
    | Stop(w: nat)
    | Report(w: nat, outcome: Outcome, setup: bool)
    | Cancel

  predicate Has(p: Pool, w: nat, x: Worker) { w < |p.workers| && p.workers[w] == x }

  /** After a result: the worker quits if its set-up failed; over SSH after any error, taking the
      others down unless it was set-up; on a mount once the context is done. */
  function Apply(mode: Mode, p: Pool, a: Action): Pool {
    match a
    case Take(w) =>
      if !Has(p, w, Ready) then p
      else if p.next < p.total then p.(next := p.next + 1, workers := p.workers[w := Holding(p.next)])
      else p.(workers := p.workers[w := Gone])
    case Stop(w) => if Has(p, w, Ready) && p.stopped then p.(workers := p.workers[w := Gone]) else p
    case Report(w, outcome, setup) =>
      if w >= |p.workers| || !p.workers[w].Holding? || (outcome.Cut? && (!p.stopped || setup)) then p
      else
        var sent := p.(results := p.results + [Result(p.workers[w].unit, outcome)]);
        var failed := !outcome.Good?;
        var quits := if mode.Ssh? then failed else (failed && setup) || p.stopped;
        sent.(workers := p.workers[w := if quits then Gone else Ready],
              stopped := p.stopped || (mode.Ssh? && failed && !setup))
    case Cancel => p.(stopped := true, outside := true)
  }

  function Run(mode: Mode, p: Pool, acts: seq<Action>): Pool
    decreases acts
  {
    if acts == [] then p else Run(mode, Apply(mode, p, acts[0]), acts[1..])
  }

  function Begin(total: nat, workers: nat): Pool {
    Pool(total, 0, seq(workers, _ => Ready), [], false, false)
  }

  predicate Finished(p: Pool) { forall w | 0 <= w < |p.workers| :: p.workers[w].Gone? }

  /** The caller's error is nil: over SSH no result is an error, on a mount only cancelled ones. */
  predicate IsNil(mode: Mode, p: Pool) {
    forall i | 0 <= i < |p.results| :: p.results[i].outcome.Good? || (mode.Mount? && p.results[i].outcome.Cut?)
  }

  predicate HasResult(p: Pool, u: nat, o: Outcome) { exists i | 0 <= i < |p.results| :: p.results[i] == Result(u, o) }

  // ---- how the units really went ----

  /** The action is the end of unit `u`, with outcome `o`, in the hands of the worker that held it. */
  predicate Ends(p: Pool, a: Action, u: nat, o: Outcome) {
    a.Report? && Has(p, a.w, Holding(u)) && a.outcome == o && (o.Cut? ==> p.stopped && !a.setup)
  }

  predicate EndsAt(mode: Mode, p: Pool, acts: seq<Action>, k: nat, u: nat, o: Outcome)
    requires k < |acts|
  {
    Ends(Run(mode, p, acts[..k]), acts[k], u, o)
  }

  /** Somewhere in the run unit `u` went so. */
  predicate Went(mode: Mode, p: Pool, acts: seq<Action>, u: nat, o: Outcome) {
    exists k | 0 <= k < |acts| :: EndsAt(mode, p, acts, k, u, o)
  }

  predicate AllSucceeded(mode: Mode, p: Pool, acts: seq<Action>) {
    forall u | 0 <= u < p.total :: Went(mode, p, acts, u, Good)
  }

  lemma {:induction false} RunSnoc(mode: Mode, p: Pool, acts: seq<Action>, a: Action)
    ensures Run(mode, p, acts + [a]) == Apply(mode, Run(mode, p, acts), a)
    decreases acts
  {
    if acts == [] {
      assert acts + [a] == [a] && [a][1..] == [];
      assert Run(mode, p, [a]) == Run(mode, Apply(mode, p, a), []);
    } else {
      assert (acts + [a])[1..] == acts[1..] + [a];
      RunSnoc(mode, Apply(mode, p, acts[0]), acts[1..], a);
    }
  }

  lemma WentSnoc(mode: Mode, p: Pool, acts: seq<Action>, a: Action, u: nat, o: Outcome)
    ensures Went(mode, p, acts + [a], u, o) <==> Went(mode, p, acts, u, o) || Ends(Run(mode, p, acts), a, u, o)
  {
    var all := acts + [a];
    assert all[..|acts|] == acts;
    forall k | 0 <= k < |acts| ensures EndsAt(mode, p, all, k, u, o) <==> EndsAt(mode, p, acts, k, u, o) {
      assert all[..k] == acts[..k];
    }
    if Ends(Run(mode, p, acts), a, u, o) { assert EndsAt(mode, p, all, |acts|, u, o); }
  }

  lemma ResultSnoc(mode: Mode, p: Pool, a: Action, u: nat, o: Outcome)
    ensures HasResult(Apply(mode, p, a), u, o) <==> HasResult(p, u, o) || Ends(p, a, u, o)
  {
    var t := Apply(mode, p, a);
    if HasResult(p, u, o) {
      var i :| 0 <= i < |p.results| && p.results[i] == Result(u, o);
      assert t.results[i] == Result(u, o);
    }
    if Ends(p, a, u, o) { assert t.results[|p.results|] == Result(u, o); }
  }

  /** The results are what happened: a unit has a result of some outcome exactly when, in the hands
      of the worker that held it, it went so. */
  lemma {:induction false} ResultsAreTrue(mode: Mode, p: Pool, acts: seq<Action>, u: nat, o: Outcome)
    requires p.results == []
    ensures HasResult(Run(mode, p, acts), u, o) <==> Went(mode, p, acts, u, o)
    decreases |acts|
  {
    if acts != [] {
      var front, a := acts[..|acts| - 1], acts[|acts| - 1];
      assert acts == front + [a];
      ResultsAreTrue(mode, p, front, u, o);
      RunSnoc(mode, p, front, a);
      WentSnoc(mode, p, front, a, u, o);
      ResultSnoc(mode, Run(mode, p, front), a, u, o);
    }
  }

  // ---- each unit is handed out once ----

  predicate IsReported(p: Pool, u: nat) { exists i | 0 <= i < |p.results| :: p.results[i].unit == u }

  predicate IsHeld(p: Pool, u: nat) { exists w | 0 <= w < |p.workers| :: p.workers[w] == Holding(u) }

  predicate Distinct(p: Pool) {
    && (forall i | 0 <= i < |p.results| :: p.results[i].unit < p.next)
    && (forall w | 0 <= w < |p.workers| && p.workers[w].Holding? :: p.workers[w].unit < p.next)
    && (forall i, j | 0 <= i < j < |p.results| :: p.results[i].unit != p.results[j].unit)
    && (forall v, w | 0 <= v < w < |p.workers| && p.workers[v].Holding? && p.workers[w].Holding? ::
          p.workers[v].unit != p.workers[w].unit)
    && (forall i, w | 0 <= i < |p.results| && 0 <= w < |p.workers| && p.workers[w].Holding? ::
          p.results[i].unit != p.workers[w].unit)
  }

  predicate Accounted(p: Pool) {
    p.next <= p.total && forall u | 0 <= u < p.next :: IsReported(p, u) || IsHeld(p, u)
  }

  /** Why a worker is gone, and why the context is done. */
  predicate Reasons(mode: Mode, p: Pool) {
    && (p.outside ==> p.stopped)
    && (p.stopped && !p.outside ==> !IsNil(mode, p))
    && (forall w | 0 <= w < |p.workers| && p.workers[w].Gone? :: p.next == p.total || p.outside || !IsNil(mode, p))
    && (forall i | 0 <= i < |p.results| && p.results[i].outcome.Cut? :: p.outside || !IsNil(mode, p))
  }

  predicate Inv(mode: Mode, p: Pool) { Distinct(p) && Accounted(p) && Reasons(mode, p) }

  lemma DistinctStep(mode: Mode, p: Pool, a: Action)
    requires Inv(mode, p)
    ensures Distinct(Apply(mode, p, a))
  {}

  lemma AccountedStep(mode: Mode, p: Pool, a: Action)
    requires Inv(mode, p)
    ensures Accounted(Apply(mode, p, a))
  {
    var t := Apply(mode, p, a);
    forall u | 0 <= u < t.next ensures IsReported(t, u) || IsHeld(t, u) {
      if u == p.next {
        assert t.workers[a.w] == Holding(u);
      } else if IsReported(p, u) {
        var i :| 0 <= i < |p.results| && p.results[i].unit == u;
        assert t.results[i].unit == u;
      } else {
        var w :| 0 <= w < |p.workers| && p.workers[w] == Holding(u);
        assert t.workers[w] == Holding(u) || t.results[|p.results|].unit == u;
      }
    }
  }

  lemma ErrorStays(mode: Mode, p: Pool, a: Action)
    requires !IsNil(mode, p)
    ensures !IsNil(mode, Apply(mode, p, a))
  {
    var i :| 0 <= i < |p.results| && !(p.results[i].outcome.Good? || (mode.Mount? && p.results[i].outcome.Cut?));
    assert Apply(mode, p, a).results[i] == p.results[i];
  }

  lemma ReasonsStep(mode: Mode, p: Pool, a: Action)
    requires Inv(mode, p)
    ensures Reasons(mode, Apply(mode, p, a))
  {
    var t := Apply(mode, p, a);
    if !IsNil(mode, p) { ErrorStays(mode, p, a); }
    if t.results != p.results { assert t.results[|p.results|].outcome == a.outcome; }
  }

  lemma {:induction false} InvRun(mode: Mode, p: Pool, acts: seq<Action>)
    requires Inv(mode, p)
    ensures Inv(mode, Run(mode, p, acts))
    decreases acts
  {
    if acts != [] {
      DistinctStep(mode, p, acts[0]);
      AccountedStep(mode, p, acts[0]);
      ReasonsStep(mode, p, acts[0]);
      InvRun(mode, Apply(mode, p, acts[0]), acts[1..]);
    }
  }

  // ---- result sends never block ----

  lemma {:induction false} Pigeonhole(units: seq<nat>, bound: nat)
    requires forall i | 0 <= i < |units| :: units[i] < bound
    requires forall i, j | 0 <= i < j < |units| :: units[i] != units[j]
    ensures |units| <= bound
    decreases units
  {
    var seen := set i | 0 <= i < |units| :: units[i];
    SetSize(units);
    Below(seen, bound);
  }

  lemma {:induction false} SetSize(units: seq<nat>)
    requires forall i, j | 0 <= i < j < |units| :: units[i] != units[j]
    ensures |set i | 0 <= i < |units| :: units[i]| == |units|
    decreases units
  {
    if units != [] {
      var n := |units| - 1;
      SetSize(units[..n]);
      assert (set i | 0 <= i < |units| :: units[i]) == (set i | 0 <= i < n :: units[..n][i]) + {units[n]};
    }
  }

  lemma {:induction false} Below(seen: set<nat>, bound: nat)
    requires forall u | u in seen :: u < bound
    ensures |seen| <= bound
    decreases bound
  {
    if bound == 0 {
      assert seen == {};
    } else {
      Below(seen - {bound - 1}, bound - 1);
    }
  }

  /** The channel of results has one place per unit: in every reachable state a worker about to
      report finds a free one, and no unit is ever handed out or reported twice. */
  lemma SendsNeverBlock(mode: Mode, total: nat, workers: nat, acts: seq<Action>, w: nat)
    ensures var p := Run(mode, Begin(total, workers), acts);
            && Distinct(p) && |p.results| <= p.next <= total
            && (w < |p.workers| && p.workers[w].Holding? ==> |p.results| < total)
  {
    var p := Run(mode, Begin(total, workers), acts);
    InvRun(mode, Begin(total, workers), acts);
    TotalStays(mode, Begin(total, workers), acts);
    var units := seq(|p.results|, i requires 0 <= i < |p.results| => p.results[i].unit);
    Pigeonhole(units, p.next);
    if w < |p.workers| && p.workers[w].Holding? {
      Pigeonhole(units + [p.workers[w].unit], p.next);
    }
  }

  lemma {:induction false} TotalStays(mode: Mode, p: Pool, acts: seq<Action>)
    ensures Run(mode, p, acts).total == p.total && |Run(mode, p, acts).workers| == |p.workers|
    decreases acts
  {
    if acts != [] { TotalStays(mode, Apply(mode, p, acts[0]), acts[1..]); }
  }

  // ---- what a nil error means ----

  predicate Uncancelled(acts: seq<Action>) { forall i | 0 <= i < |acts| :: !acts[i].Cancel? }

  lemma {:induction false} StaysInside(mode: Mode, p: Pool, acts: seq<Action>)
    requires Uncancelled(acts) && !p.outside
    ensures !Run(mode, p, acts).outside
    decreases acts
  {
    if acts != [] {
      assert !acts[0].Cancel?;
      StaysInside(mode, Apply(mode, p, acts[0]), acts[1..]);
    }
  }

  /** Not cancelled, a nil error means that every unit went well. */
  lemma NilMeansAllDone(mode: Mode, total: nat, workers: nat, acts: seq<Action>)
    requires workers > 0 && Uncancelled(acts)
    requires var p := Run(mode, Begin(total, workers), acts); Finished(p) && IsNil(mode, p)
    ensures AllSucceeded(mode, Begin(total, workers), acts)
  {
    var p := Run(mode, Begin(total, workers), acts);
    InvRun(mode, Begin(total, workers), acts);
    TotalStays(mode, Begin(total, workers), acts);
    StaysInside(mode, Begin(total, workers), acts);
    assert p.workers[0].Gone?;
    forall u | 0 <= u < p.total ensures Went(mode, Begin(total, workers), acts, u, Good) {
      assert IsReported(p, u) || IsHeld(p, u);
      var i :| 0 <= i < |p.results| && p.results[i].unit == u;
      assert p.results[i] == Result(u, Good);
      ResultsAreTrue(mode, Begin(total, workers), acts, u, Good);
    }
  }

  /** And the count of completed units is then the number of units. */
  lemma NilMeansFullCount(mode: Mode, total: nat, workers: nat, acts: seq<Action>)
    requires workers > 0 && Uncancelled(acts)
    requires var p := Run(mode, Begin(total, workers), acts); Finished(p) && IsNil(mode, p)
    ensures Goods(Run(mode, Begin(total, workers), acts).results) == total
  {
    var p := Run(mode, Begin(total, workers), acts);
    NilMeansAllDone(mode, total, workers, acts);
    SendsNeverBlock(mode, total, workers, acts, 0);
    TotalStays(mode, Begin(total, workers), acts);
    forall u | 0 <= u < total ensures HasResult(p, u, Good) {
      assert Went(mode, Begin(total, workers), acts, u, Good);
      ResultsAreTrue(mode, Begin(total, workers), acts, u, Good);
    }
    Enough(p);
  }

  /** With a good result for each of `total` units there are at least `total` good results. */
  lemma Enough(p: Pool)
    requires |p.results| <= p.total && forall u | 0 <= u < p.total :: HasResult(p, u, Good)
    ensures Goods(p.results) == p.total
  {
    var results, total := p.results, p.total;
    var units := set i | 0 <= i < |results| && results[i].outcome.Good? :: results[i].unit;
    GoodUnits(results);
    forall u | 0 <= u < total ensures u in units {
      assert HasResult(p, u, Good);
      var i :| 0 <= i < |results| && results[i] == Result(u, Good);
    }
    AtLeast(units, total);
    GoodsBound(results);
  }

  lemma {:induction false} GoodsBound(results: seq<Result>)
    ensures Goods(results) <= |results|
    decreases results
  {
    if results != [] { GoodsBound(results[..|results| - 1]); }
  }

  lemma {:induction false} GoodUnits(results: seq<Result>)
    ensures |set i | 0 <= i < |results| && results[i].outcome.Good? :: results[i].unit| <= Goods(results)
    decreases results
  {
    if results != [] {
      var n := |results| - 1;
      var front, r := results[..n], results[n];
      GoodUnits(front);
      var before := set i | 0 <= i < n && front[i].outcome.Good? :: front[i].unit;
      assert (set i | 0 <= i < |results| && results[i].outcome.Good? :: results[i].unit)
             == before + if r.outcome.Good? then {r.unit} else {};
    }
  }

  lemma {:induction false} AtLeast(units: set<nat>, total: nat)
    requires forall u | 0 <= u < total :: u in units
    ensures total <= |units|
    decreases total
  {
    if total > 0 { AtLeast(units - {total - 1}, total - 1); }
  }

  /** The caller cancels, and every worker sees it before taking a unit. */
  function GiveUp(workers: nat): seq<Action> { [Cancel] + Stops(workers) }

  function Stops(workers: nat): seq<Action>
    decreases workers
  {
    if workers == 0 then [] else [Stop(workers - 1)] + Stops(workers - 1)
  }

  lemma {:induction false} AllStop(mode: Mode, p: Pool, n: nat)
    requires p.stopped && n <= |p.workers| && forall w | 0 <= w < n :: p.workers[w].Ready?
    requires forall w | n <= w < |p.workers| :: p.workers[w].Gone?
    ensures var t := Run(mode, p, Stops(n)); Finished(t) && t.results == p.results && t.total == p.total
    decreases n
  {
    if n > 0 {
      assert Stops(n)[1..] == Stops(n - 1);
      AllStop(mode, Apply(mode, p, Stop(n - 1)), n - 1);
    }
  }

  lemma NilThoughNothingDone(mode: Mode, total: nat, workers: nat)
    requires total > 0
    ensures var p := Run(mode, Begin(total, workers), GiveUp(workers));
            Finished(p) && IsNil(mode, p) && forall u, o :: !Went(mode, Begin(total, workers), GiveUp(workers), u, o)
  {
    var p := Begin(total, workers);
    assert GiveUp(workers)[1..] == Stops(workers);
    AllStop(mode, Apply(mode, p, Cancel), workers);
    var t := Run(mode, p, GiveUp(workers));
    assert t.results == [];
    forall u, o ensures !Went(mode, p, GiveUp(workers), u, o) { ResultsAreTrue(mode, p, GiveUp(workers), u, o); }
  }

  /** A nil error stands for "every unit succeeded" exactly when the context cannot be cancelled:
      both runners report nil when they are cancelled before doing anything. */
  lemma NilIsTrustworthyIffUncancelled(mode: Mode, total: nat, workers: nat, mayCancel: bool)
    requires workers > 0
    ensures (forall acts | (mayCancel || Uncancelled(acts)) && Finished(Run(mode, Begin(total, workers), acts))
                           && IsNil(mode, Run(mode, Begin(total, workers), acts)) ::
               AllSucceeded(mode, Begin(total, workers), acts))
            <==> !mayCancel || total == 0
  {
    if mayCancel && total > 0 {
      NilThoughNothingDone(mode, total, workers);
      assert !Went(mode, Begin(total, workers), GiveUp(workers), 0, Good);
    } else {
      forall acts | (mayCancel || Uncancelled(acts)) && Finished(Run(mode, Begin(total, workers), acts))
                    && IsNil(mode, Run(mode, Begin(total, workers), acts))
        ensures AllSucceeded(mode, Begin(total, workers), acts)
      {
        TotalStays(mode, Begin(total, workers), acts);
        if total > 0 { NilMeansAllDone(mode, total, workers, acts); }
      }
    }
  }

  // ---- what one failed unit does to the others ----

  predicate NoSetupFails(acts: seq<Action>) { forall i | 0 <= i < |acts| && acts[i].Report? :: !acts[i].setup }

  lemma {:induction false} GoesOn(p: Pool, acts: seq<Action>)
    requires Uncancelled(acts) && NoSetupFails(acts) && !p.stopped
    requires forall w | 0 <= w < |p.workers| && p.workers[w].Gone? :: p.next >= p.total
    ensures var t := Run(Mount, p, acts);
            !t.stopped && forall w | 0 <= w < |t.workers| && t.workers[w].Gone? :: t.next >= t.total
    decreases acts
  {
    if acts != [] {
      assert !acts[0].Cancel? && (acts[0].Report? ==> !acts[0].setup);
      GoesOn(Apply(Mount, p, acts[0]), acts[1..]);
    }
  }

  /** On a mount a unit's error keeps no other unit from being tried: unless the context is cancelled
      or a worker's set-up fails, every unit comes to its end, well or badly. */
  lemma MountTriesEveryUnit(total: nat, workers: nat, acts: seq<Action>, u: nat)
    requires workers > 0 && Uncancelled(acts) && NoSetupFails(acts) && u < total
    requires Finished(Run(Mount, Begin(total, workers), acts))
    ensures Went(Mount, Begin(total, workers), acts, u, Good) || Went(Mount, Begin(total, workers), acts, u, Bad)
  {
    var p := Run(Mount, Begin(total, workers), acts);
    GoesOn(Begin(total, workers), acts);
    InvRun(Mount, Begin(total, workers), acts);
    TotalStays(Mount, Begin(total, workers), acts);
    assert p.workers[0].Gone? && (IsReported(p, u) || IsHeld(p, u));
    var i :| 0 <= i < |p.results| && p.results[i].unit == u;
    var o := p.results[i].outcome;
    assert HasResult(p, u, o);
    ResultsAreTrue(Mount, Begin(total, workers), acts, u, o);
    if o.Cut? { NeverCut(Begin(total, workers), acts, u); }
  }

  lemma NeverCut(p: Pool, acts: seq<Action>, u: nat)
    requires Uncancelled(acts) && NoSetupFails(acts) && !p.stopped
    requires forall w | 0 <= w < |p.workers| && p.workers[w].Gone? :: p.next >= p.total
    ensures !Went(Mount, p, acts, u, Cut)
  {
    forall k | 0 <= k < |acts| ensures !EndsAt(Mount, p, acts, k, u, Cut) {
      GoesOn(p, acts[..k]);
    }
  }

  /** Over SSH it takes the others down: from the error of a unit on, unless it was set-up, the
      workers' context is done, and the worker that met it takes no more. */
  lemma SshErrorStopsTheRest(p: Pool, a: Action, u: nat, o: Outcome, rest: seq<Action>)
    requires Ends(p, a, u, o) && !o.Good? && !a.setup
    ensures var t := Run(Ssh, Apply(Ssh, p, a), rest); t.stopped && Has(t, a.w, Gone)
  {
    Stays(Apply(Ssh, p, a), a.w, rest);
  }

  lemma {:induction false} Stays(p: Pool, w: nat, acts: seq<Action>)
    requires p.stopped && Has(p, w, Gone)
    ensures var t := Run(Ssh, p, acts); t.stopped && Has(t, w, Gone)
    decreases acts
  {
    if acts != [] { Stays(Apply(Ssh, p, acts[0]), w, acts[1..]); }
  }

  // ---- the collector ----

  function Goods(results: seq<Result>): nat
    decreases results
  {
    if results == [] then 0
    else Goods(results[..|results| - 1]) + if results[|results| - 1].outcome.Good? then 1 else 0
  }

  /** The collector's loop: the number of units completed, and whether there is an error. */
  method Collect(mode: Mode, results: seq<Result>) returns (completed: nat, failures: nat)
    ensures completed == Goods(results) && completed + failures <= |results|
    ensures failures == 0 <==> forall i | 0 <= i < |results| ::
              results[i].outcome.Good? || (mode.Mount? && results[i].outcome.Cut?)
  {
    completed, failures := 0, 0;
    for i := 0 to |results|
      invariant completed == Goods(results[..i]) && completed + failures <= i
      invariant failures == 0 <==> forall k | 0 <= k < i ::
                  results[k].outcome.Good? || (mode.Mount? && results[k].outcome.Cut?)
    {
      assert results[..i + 1][..i] == results[..i];
      if !results[i].outcome.Good? {
        if mode.Ssh? || !results[i].outcome.Cut? { failures := failures + 1; }
        continue;
      }
      completed := completed + 1;
    }
    assert results[..|results|] == results;
  }
}
