// What the worker pool of 3rd/libuv/src/threadpool.c gets done: the order in
// which items are taken, and that every submission ends with its done callback.
module ThreadPoolProgress {
  import opened ThreadPool

  // ---------- the shared queue is first in, first out ----------

  // The step that puts e into the shared queue.
  predicate Posts(a: Step, e: Entry) {
    match e
    case Work(i) => a.Submit? && a.item == i
    case Exit => a.PostExit?
  }

  // A worker gets e: an item into its hands, or the order to leave.
  ghost predicate Takes(s: State, a: Step, s': State, e: Entry) {
    && a.Enter? && a.t < |s.workers| && a.t < |s'.workers|
    && match e
       case Work(i) => s'.workers[a.t] == Running(i)
       case Exit => s'.workers[a.t] == Exited
  }

  ghost predicate Before<T>(q: seq<T>, x: T, y: T) { exists j, k :: 0 <= j < k < |q| && q[j] == x && q[k] == y }

  // Leaving the queue: taken by a worker, or cancelled.
  ghost predicate Leaves(s: State, a: Step, s': State, e: Entry) {
    && e in s.wq && e !in s'.wq && e.Work?
    && (Takes(s, a, s', e) || a == Cancel(e.item))
  }

  lemma {:induction false} WithoutOrder<T>(q: seq<T>, x: T, y: T, z: T)
    requires NoDup(q) && Before(q, x, y) && x != z && y != z
    ensures Before(Without(q, z), x, y)
  {
    var rest := Without(q[1..], z);
    var j, k :| 0 <= j < k < |q| && q[j] == x && q[k] == y;
    assert q[1..][k - 1] == y;
    if q[0] == x {
      assert y in q[1..];
      WithoutSame(q[1..], z);
      assert y in rest;
      var m :| 0 <= m < |rest| && rest[m] == y;
      assert ([x] + rest)[0] == x && ([x] + rest)[m + 1] == y;
    } else if q[0] != z {
      assert q[1..][j - 1] == x;
      WithoutOrder(q[1..], x, y, z);
      var m, n :| 0 <= m < n < |rest| && rest[m] == x && rest[n] == y;
      assert ([q[0]] + rest)[m + 1] == x && ([q[0]] + rest)[n + 1] == y;
    } else {
      assert q[1..][j - 1] == x;
    }
  }

  lemma TailOrder<T>(q: seq<T>, x: T, y: T)
    requires NoDup(q) && Before(q, x, y) && q[0] != x
    ensures Before(q[1..], x, y)
  {
    var j, k :| 0 <= j < k < |q| && q[j] == x && q[k] == y;
    assert q[1..][j - 1] == x && q[1..][k - 1] == y;
  }

  lemma AppendOrder<T>(q: seq<T>, x: T, y: T, z: T)
    requires Before(q, x, y)
    ensures Before(q + [z], x, y)
  {
    var j, k :| 0 <= j < k < |q| && q[j] == x && q[k] == y;
    assert (q + [z])[j] == x && (q + [z])[k] == y;
  }

  lemma OrderKept(s: State, a: Step, s': State, x: Entry, y: Entry)
    requires Inv(s) && Next(s, a, s') && Before(s.wq, x, y) && y in s'.wq
    ensures Before(s'.wq, x, y) || Leaves(s, a, s', x)
  {
    hide HandsInv, LoopsInv, ItemsInv, WakeInv, NoDup, Before, PhaseOf;
    assert x in s.wq && x != y && y in s.wq by { OrderMembers(s.wq, x, y); }
    match a
    case Submit(l, i, woken) => AppendOrder(s.wq, x, y, Work(i));
    case PostExit(woken) => AppendOrder(s.wq, x, y, Exit);
    case Enter(t, woken) =>
      if s.wq[0] != Exit {
        TailNoDup(s.wq);
        if s.wq[0] != x { TailOrder(s.wq, x, y); }
      }
    case Cancel(i) =>
      WithoutSame(s.wq, Work(i));
      if s'.wq != s.wq && x != Work(i) { WithoutOrder(s.wq, x, y, Work(i)); }
    case _ =>
  }

  lemma OrderMembers<T>(q: seq<T>, x: T, y: T)
    requires NoDup(q) && Before(q, x, y)
    ensures x in q && y in q && x != y && q != [] && q[0] != y
  {
  }

  // What is posted while x waits is taken only after x has been taken or
  // cancelled; nothing posted after the exit message is taken at all.
  lemma TakenInOrder(run: seq<State>, steps: seq<Step>, m: nat, n: nat, x: Entry, y: Entry) returns (k: nat)
    requires IsRun(run, steps) && m < n < |steps|
    requires x in run[m].wq && Posts(steps[m], y) && Takes(run[n], steps[n], run[n + 1], y)
    requires forall k :: m < k <= n ==> y in run[k].wq
    ensures m < k < n && Leaves(run[k], steps[k], run[k + 1], x)
  {
    RunInv(run, steps, m);
    PostedLast(run[m], steps[m], run[m + 1], x, y);
    k := m + 1;
    while k < n && Before(run[k + 1].wq, x, y)
      invariant m < k <= n && Before(run[k].wq, x, y)
    {
      k := k + 1;
    }
    RunInv(run, steps, k);
    if k == n {
      TakesHead(run[n], steps[n], run[n + 1], y);
      OrderMembers(run[n].wq, x, y);
      assert false;
    }
    assert y in run[k + 1].wq;
    OrderKept(run[k], steps[k], run[k + 1], x, y);
  }

  lemma PostedLast(s: State, a: Step, s': State, x: Entry, y: Entry)
    requires Next(s, a, s') && x in s.wq && Posts(a, y)
    ensures Before(s'.wq, x, y)
  {
    var j :| 0 <= j < |s.wq| && s.wq[j] == x;
    assert s'.wq[j] == x && s'.wq[|s.wq|] == y;
  }

  lemma TakesHead(s: State, a: Step, s': State, e: Entry)
    requires Next(s, a, s') && Takes(s, a, s', e)
    ensures s.wq != [] && s.wq[0] == e
  {
  }

  // ---------- one loop delivers what it has ----------

  predicate LoopStep(a: Step, l: nat) { a == Drain(l) || a == Done(l) }

  ghost predicate CanServe(s: State, l: nat) { exists a, s' :: LoopStep(a, l) && Next(s, a, s') }

  function LoopEffort(lp: Loop): nat { |lp.wq| + |lp.drained| + if lp.alerted then 1 else 0 }

  // done for every item of q in turn, with UV_ECANCELED for those whose cancel
  // has succeeded.
  ghost function Dones(h: seq<Event>, q: seq<nat>): (d: seq<Event>)
    ensures |d| == |q|
  {
    seq(|q|, k requires 0 <= k < |q| => DoneCalled(q[k], PhaseOf(h, q[k]) == Some(Dropped)))
  }

  // The items whose done is to be called, in order.
  ghost function Due(s: State, l: nat): seq<nat>
    requires l in s.loops
  {
    s.loops[l].drained + s.loops[l].wq
  }

  // No cancel is halfway through on loop l.
  ghost predicate Free(s: State, l: nat) { l in s.loops && s.loops[l].cancelling == None }

  lemma ServeStep(s: State, a: Step, s': State, l: nat)
    requires Inv(s) && Free(s, l) && LoopStep(a, l) && Next(s, a, s')
    ensures Inv(s') && Free(s', l) && LoopEffort(s'.loops[l]) < LoopEffort(s.loops[l])
    ensures s'.history + Dones(s'.history, Due(s', l)) == s.history + Dones(s.history, Due(s, l))
  {
    NextInv(s, a, s');
    hide Inv, Dones, DoneStep;
    if a == Drain(l) {
      assert Due(s', l) == Due(s, l);
    } else {
      ServeDone(s, s', l);
    }
  }

  lemma ServeDone(s: State, s': State, l: nat)
    requires Inv(s) && Free(s, l) && DoneStep(s, l, s')
    ensures Free(s', l) && LoopEffort(s'.loops[l]) < LoopEffort(s.loops[l])
    ensures s'.history + Dones(s'.history, Due(s', l)) == s.history + Dones(s.history, Due(s, l))
  {
    hide PhaseOf, QueueInv, HandsInv, ItemsInv, WakeInv, NoDup;
    assert LoopOk(s, l, s.loops[l]);
    var q, i := Due(s', l), s.loops[l].drained[0];
    assert i in s.loops[l].drained;
    var e := DoneCalled(i, PhaseOf(s.history, i) == Some(Dropped));
    assert s'.history == s.history + [e];
    assert Due(s, l) == [i] + q;
    JoinNoDup(s.loops[l].drained, s.loops[l].wq);
    DonesNext(s.history, e, q);
  }

  lemma DonesNext(h: seq<Event>, e: Event, q: seq<nat>)
    requires e.DoneCalled? && NoDup([e.item] + q) && e.cancelled == (PhaseOf(h, e.item) == Some(Dropped))
    ensures h + [e] + Dones(h + [e], q) == h + Dones(h, [e.item] + q)
  {
    hide PhaseOf, Dones;
    PhasesAppend(h, e);
    var due := [e.item] + q;
    DonesAt(h, due, 0);
    forall k | 0 <= k < |q| ensures Dones(h + [e], q)[k] == Dones(h, due)[k + 1] {
      assert due[0] != due[k + 1] && due[k + 1] == q[k];
      DonesAt(h + [e], q, k);
      DonesAt(h, due, k + 1);
    }
    assert Dones(h, due) == [e] + Dones(h + [e], q);
  }

  lemma DonesAt(h: seq<Event>, q: seq<nat>, k: nat)
    requires k < |q|
    ensures Dones(h, q)[k] == DoneCalled(q[k], PhaseOf(h, q[k]) == Some(Dropped))
  {
  }

  lemma ServePossible(s: State, l: nat)
    requires Inv(s) && Free(s, l)
    ensures CanServe(s, l) <==> s.loops[l].drained != [] || s.loops[l].alerted
    ensures !CanServe(s, l) ==> Due(s, l) == []
  {
    hide PhaseOf, QueueInv, HandsInv, ItemsInv, WakeInv;
    assert LoopOk(s, l, s.loops[l]);
    var lp := s.loops[l];
    if lp.drained != [] {
      var i := lp.drained[0];
      assert i in lp.drained;
      var s' := s.(loops := s.loops[l := lp.(drained := lp.drained[1..])],
                   history := s.history + [DoneCalled(i, s.items[i].work == Cancelled)]);
      assert LoopStep(Done(l), l) && Next(s, Done(l), s');
    } else if lp.alerted {
      var s' := s.(loops := s.loops[l := lp.(wq := [], drained := lp.wq, alerted := false)]);
      assert LoopStep(Drain(l), l) && Next(s, Drain(l), s');
    }
  }

  // Left to itself, a loop's thread takes a bounded number of steps, and when it
  // stops, done has been called once for every item that was due, in order, with
  // its status.
  lemma {:induction false} LoopDelivers(run: seq<State>, steps: seq<Step>, l: nat)
    requires |run| == |steps| + 1 && Inv(run[0]) && Free(run[0], l)
    requires forall n :: 0 <= n < |steps| ==> LoopStep(steps[n], l) && Next(run[n], steps[n], run[n + 1])
    ensures var s, t := run[0], run[|steps|];
            && Inv(t) && Free(t, l) && |steps| + LoopEffort(t.loops[l]) <= LoopEffort(s.loops[l])
            && t.history + Dones(t.history, Due(t, l)) == s.history + Dones(s.history, Due(s, l))
            && (!CanServe(t, l) ==> Due(t, l) == [] && t.history == s.history + Dones(s.history, Due(s, l)))
    decreases |steps|
  {
    hide Inv, Next, CanServe, Dones, Due;
    var m := |steps|;
    var t := run[m];
    if m > 0 {
      var run0, steps0 := run[..m], steps[..m - 1];
      LoopDelivers(run0, steps0, l);
      assert run0[|steps0|] == run[m - 1];
      ServeStep(run[m - 1], steps[m - 1], t, l);
    }
    ServePossible(t, l);
    if !CanServe(t, l) { NothingDue(t.history); }
  }

  lemma NothingDue(h: seq<Event>)
    ensures h + Dones(h, []) == h
  {
  }

  // ---------- every submission ends ----------

  // What the pool and the loops do without being asked anything new.
  predicate SystemStep(a: Step) { a.Enter? || a.Execute? || a.Return? || a.FinishCancel? || a.Drain? || a.Done? }

  ghost predicate CanStep(s: State) { exists a, s' :: SystemStep(a) && Next(s, a, s') }

  function WorkLeft(w: Worker): nat {
    match w
    case Exited => 0
    case Waiting => 0
    case Start => 1
    case Woken => 1
    case Ran(_) => 4
    case Running(_) => 5
  }

  function LoopLeft(lp: Loop): nat { LoopEffort(lp) + if lp.cancelling.Some? then 3 else 0 }

  ghost function LoopsLeft(loops: map<nat, Loop>): nat
    decreases |loops|
  {
    if loops == map[] then 0
    else
      var l :| l in loops;
      RemoveSmaller(loops, l);
      LoopLeft(loops[l]) + LoopsLeft(loops - {l})
  }

  lemma RemoveSmaller(loops: map<nat, Loop>, l: nat)
    requires l in loops
    ensures |loops - {l}| < |loops|
  {
    assert (loops - {l}).Keys == loops.Keys - {l};
    assert |loops.Keys| == |loops| && |(loops - {l}).Keys| == |loops - {l}|;
  }

  lemma {:induction false} LoopsPick(loops: map<nat, Loop>, l: nat)
    requires l in loops
    ensures LoopsLeft(loops) == LoopLeft(loops[l]) + LoopsLeft(loops - {l})
    decreases |loops|
  {
    var k :| k in loops && LoopsLeft(loops) == LoopLeft(loops[k]) + LoopsLeft(loops - {k});
    if k != l {
      RemoveSmaller(loops, k);
      RemoveSmaller(loops, l);
      LoopsPick(loops - {k}, l);
      LoopsPick(loops - {l}, k);
      assert loops - {k} - {l} == loops - {l} - {k};
    }
  }

  lemma LoopsUpdate(loops: map<nat, Loop>, l: nat, lp: Loop)
    requires l in loops
    ensures LoopsLeft(loops[l := lp]) == LoopsLeft(loops) - LoopLeft(loops[l]) + LoopLeft(lp)
  {
    LoopsPick(loops, l);
    LoopsPick(loops[l := lp], l);
    assert loops[l := lp] - {l} == loops - {l};
  }

  ghost function Left(s: State): nat { TotalWeight(s.workers, WorkLeft) + 5 * |s.wq| + LoopsLeft(s.loops) }

  lemma SystemStepLeft(s: State, a: Step, s': State)
    requires SystemStep(a) && Next(s, a, s') && Exit !in s.wq
    ensures Left(s') < Left(s) && Exit !in s'.wq
  {
    hide LoopsLeft, TotalWeight, PhaseOf;
    match a
    case Enter(t, woken) =>
      if s.wq == [] {
        WeightUpdate(s.workers, t, Waiting, WorkLeft);
      } else {
        assert s.wq[0] in s.wq;
        WeightUpdate(s.workers, t, Running(s.wq[0].item), WorkLeft);
      }
    case Execute(t) => WeightUpdate(s.workers, t, Ran(s.workers[t].item), WorkLeft);
    case Return(t) =>
      var l := s.items[s.workers[t].item].loop;
      WeightUpdate(s.workers, t, Start, WorkLeft);
      LoopsUpdate(s.loops, l, s'.loops[l]);
    case FinishCancel(l) => LoopsUpdate(s.loops, l, s'.loops[l]);
    case Drain(l) => LoopsUpdate(s.loops, l, s'.loops[l]);
    case Done(l) => LoopsUpdate(s.loops, l, s'.loops[l]);
  }

  // Before the exit message no worker leaves.
  ghost predicate Staffed(s: State) {
    |s.workers| > 0 && (Exit !in s.wq ==> forall t :: 0 <= t < |s.workers| ==> Live(s.workers[t]))
  }

  lemma StaffedNext(s: State, a: Step, s': State)
    requires Inv(s) && Staffed(s) && Next(s, a, s')
    ensures Staffed(s')
  {
    if Exit in s.wq { ExitStays(s, a, s'); }
  }

  lemma {:induction false} RunStaffed(run: seq<State>, steps: seq<Step>, n: nat)
    requires IsRun(run, steps) && n < |run|
    ensures Staffed(run[n])
  {
    if n > 0 {
      RunStaffed(run, steps, n - 1);
      RunInv(run, steps, n - 1);
      StaffedNext(run[n - 1], steps[n - 1], run[n]);
    }
  }

  // Where nothing can step any more nothing is in flight.
  lemma RestIsDone(s: State, i: nat)
    requires Inv(s) && Staffed(s) && Exit !in s.wq && !CanStep(s)
    ensures PhaseOf(s.history, i) == Some(Idle)
  {
    hide PhaseOf;
    forall t | 0 <= t < |s.workers| ensures s.workers[t] == Waiting {
      if s.workers[t] != Waiting { MoverSteps(s, t); }
    }
    assert Live(s.workers[0]);
    forall l | l in s.loops ensures Free(s, l) && Due(s, l) == [] { RestingLoop(s, l); }
    if PhaseOf(s.history, i) != Some(Idle) {
      var p :| IsAt(s, i, p);
      NowhereAtRest(s, i, p);
    }
  }

  lemma NowhereAtRest(s: State, i: nat, p: Place)
    requires s.wq == [] && forall l :: l in s.loops ==> Free(s, l) && Due(s, l) == []
    requires forall t :: 0 <= t < |s.workers| ==> s.workers[t] == Waiting
    ensures !IsAt(s, i, p)
  {
    forall l | l in s.loops ensures s.loops[l].wq == s.loops[l].drained == [] {
      assert Free(s, l) && |Due(s, l)| == 0;
    }
  }

  lemma MoverSteps(s: State, t: nat)
    requires Inv(s) && t < |s.workers| && Live(s.workers[t]) && s.workers[t] != Waiting
    ensures CanStep(s)
  {
    OnlyWaitingBlocks(s, t);
    hide Next;
    var a, s' :| OwnStep(a, t) && Next(s, a, s');
    assert SystemStep(a) && Next(s, a, s');
  }

  lemma RestingLoop(s: State, l: nat)
    requires Inv(s) && l in s.loops && !CanStep(s)
    ensures Free(s, l) && Due(s, l) == []
  {
    hide PhaseOf;
    if s.loops[l].cancelling.Some? { FinishPossible(s, l); }
    ServePossible(s, l);
    if CanServe(s, l) { ServerSteps(s, l); }
  }

  lemma FinishPossible(s: State, l: nat)
    requires LoopsInv(s) && l in s.loops && s.loops[l].cancelling.Some?
    ensures CanStep(s)
  {
    assert LoopOk(s, l, s.loops[l]);
    var i := s.loops[l].cancelling.value;
    var s' := s.(items := s.items[i := s.items[i].(work := Cancelled, selfLinked := false)],
                 loops := s.loops[l := s.loops[l].(wq := s.loops[l].wq + [i], cancelling := None, alerted := true)]);
    assert SystemStep(FinishCancel(l)) && Next(s, FinishCancel(l), s');
  }

  lemma ServerSteps(s: State, l: nat)
    requires CanServe(s, l)
    ensures CanStep(s)
  {
    hide Next;
    var a, s' :| LoopStep(a, l) && Next(s, a, s');
    assert SystemStep(a) && Next(s, a, s');
  }

  // From any reachable state before the exit message, if nothing new is asked,
  // the pool and the loops together take a bounded number of steps under every
  // schedule, and when none of them can step, done has been called for every
  // submission.
  lemma {:induction false} EverySubmissionIsDone(run: seq<State>, steps: seq<Step>, m: nat, i: nat)
    requires IsRun(run, steps) && m <= |steps| && Exit !in run[m].wq
    requires forall n :: m <= n < |steps| ==> SystemStep(steps[n])
    ensures var t := run[|steps|];
            && |steps| - m + Left(t) <= Left(run[m]) && Exit !in t.wq
            && (!CanStep(t) ==>
                  && PhaseOf(t.history, i) == Some(Idle)
                  && Count(t.history, DoneCalled(i, true)) + Count(t.history, DoneCalled(i, false))
                     == Count(t.history, Submitted(i)))
    decreases |steps|
  {
    hide Next, CanStep, Left, Init, Inv, Staffed, Count, PhaseOf;
    var n := |steps|;
    var t := run[n];
    if m < n {
      var run0, steps0 := run[..n], steps[..n - 1];
      assert IsRun(run0, steps0);
      EverySubmissionIsDone(run0, steps0, m, i);
      assert run0[|steps0|] == run[n - 1];
      SystemStepLeft(run[n - 1], steps[n - 1], t);
    }
    RunInv(run, steps, n);
    RunStaffed(run, steps, n);
    if !CanStep(t) {
      RestIsDone(t, i);
      DoneCounts(t.history, i);
    }
  }

  // ---------- requests are always served ----------

  lemma SubmitPossible(s: State, l: nat, i: nat) returns (woken: Option<nat>, s': State)
    requires Inv(s) && Free(s, l) && PhaseOf(s.history, i) == Some(Idle)
    ensures Next(s, Submit(l, i, woken), s') && PhaseOf(s'.history, i) == Some(Pending)
  {
    hide Inv, Signal;
    var ws := s.workers;
    woken := None;
    if s.idle > 0 { woken, ws := SignalPossible(s.workers); }
    s' := s.(wq := s.wq + [Work(i)], workers := ws, items := s.items[i := Item(l, Fn, false)],
             history := s.history + [Submitted(i)]);
    PhaseAppend(s.history, Submitted(i), i);
  }

  // A cancel of an item in flight returns 0 exactly if no worker has taken the
  // item yet or a cancel has returned 0 before.
  lemma CancelMeaning(s: State, i: nat) returns (s': State)
    requires Inv(s) && PhaseOf(s.history, i) != Some(Idle) && Free(s, s.items[i].loop)
    ensures Next(s, Cancel(i), s') && forall t :: Next(s, Cancel(i), t) ==> t == s'
    ensures s'.history == s.history + [CancelReturned(i, Work(i) in s.wq || PhaseOf(s.history, i) == Some(Dropped))]
  {
    hide PhaseOf, NoDup, Without;
    var p :| IsAt(s, i, p);
    PlaceFacts(s, i, p);
    var l := s.items[i].loop;
    var lp := s.loops[l];
    if !s.items[i].selfLinked && s.items[i].work != Null {
      CancellablePhase(s, i);
      s' := s.(wq := Without(s.wq, Work(i)),
               loops := s.loops[l := Loop(Without(lp.wq, i), Without(lp.drained, i), Some(i), lp.alerted)],
               history := s.history + [CancelReturned(i, true)]);
    } else {
      RefusedPhase(s, i);
      s' := s.(history := s.history + [CancelReturned(i, false)]);
    }
  }
}
