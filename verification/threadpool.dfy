// The worker pool of 3rd/libuv/src/threadpool.c as a step relation.  Each step
// is one critical section (or one stretch of code that touches only what its
// thread owns); a run is any interleaving of such steps.
module ThreadPool {
  datatype Option<T> = None | Some(value: T)

  // What sits in the shared queue: a submitted item or the exit message.
  datatype Entry = Work(item: nat) | Exit

  // A worker thread, by the next lock it will take or the code it is in.
  datatype Worker =
    | Start              // about to lock the pool mutex
    | Waiting            // blocked in uv_cond_wait
    | Woken              // signalled, has to get the pool mutex back
    | Running(item: nat) // owns an item whose work function has not returned
    | Ran(item: nat)     // the work function returned, loop mutex not yet taken
    | Exited

  // The work field of an item: its function, NULL, or uv__cancelled.
  datatype WorkField = Fn | Null | Cancelled

  // selfLinked: the item's queue node points to itself, so QUEUE_EMPTY holds.
  datatype Item = Item(loop: nat, work: WorkField, selfLinked: bool)

  // One event loop: its queue of finished items, the local queue uv__work_done
  // is draining, the item its thread is halfway through cancelling, and whether
  // uv_async_send has asked for a call of uv__work_done that is still to come.
  datatype Loop = Loop(wq: seq<nat>, drained: seq<nat>, cancelling: Option<nat>, alerted: bool)

  // What the users of the pool observe.
  datatype Event =
    | Submitted(item: nat)
    | WorkRan(item: nat)
    | CancelReturned(item: nat, ok: bool)       // 0 or UV_EBUSY
    | DoneCalled(item: nat, cancelled: bool)    // UV_ECANCELED or 0

  datatype State = State(
    wq: seq<Entry>,
    idle: nat,
    workers: seq<Worker>,
    loops: map<nat, Loop>,
    items: map<nat, Item>,
    history: seq<Event>
  )

  ghost predicate Init(s: State) {
    && s.wq == [] && s.idle == 0 && s.items == map[] && s.history == []
    && |s.workers| >= 1 && (forall t :: 0 <= t < |s.workers| ==> s.workers[t] == Start)
    && (forall l :: l in s.loops ==> s.loops[l] == Loop([], [], None, false))
  }

  // ---------- steps ----------

  datatype Step =
    | Submit(loop: nat, item: nat, woken: Option<nat>)
    | PostExit(woken: Option<nat>)
    | Enter(t: nat, woken: Option<nat>)    // lock the pool mutex, from Start or Woken
    | Spurious(t: nat)                     // uv_cond_wait returns unasked
    | Execute(t: nat)
    | Return(t: nat)
    | Cancel(item: nat)
    | FinishCancel(loop: nat)
    | Drain(loop: nat)
    | Done(loop: nat)

  // uv_cond_signal: one blocked worker, if there is any, leaves uv_cond_wait.
  ghost predicate Signal(ws: seq<Worker>, woken: Option<nat>, ws': seq<Worker>) {
    match woken
    case None => ws' == ws && forall t :: 0 <= t < |ws| ==> ws[t] != Waiting
    case Some(t) => t < |ws| && ws[t] == Waiting && ws' == ws[t := Woken]
  }

  // post
  ghost predicate Post(s: State, e: Entry, woken: Option<nat>, s': State) {
    && s'.wq == s.wq + [e] && s'.idle == s.idle && s'.loops == s.loops
    && (if s.idle > 0 then Signal(s.workers, woken, s'.workers) else woken == None && s'.workers == s.workers)
  }

  // uv__work_submit; the caller owns the item and runs on the loop's thread.
  ghost predicate SubmitStep(s: State, l: nat, i: nat, woken: Option<nat>, s': State) {
    && l in s.loops && s.loops[l].cancelling == None && PhaseOf(s.history, i) == Some(Idle)
    && Post(s, Work(i), woken, s')
    && s'.items == s.items[i := Item(l, Fn, false)]
    && s'.history == s.history + [Submitted(i)]
  }

  // The atexit destructor posts the exit message once.
  ghost predicate PostExitStep(s: State, woken: Option<nat>, s': State) {
    && Exit !in s.wq && Post(s, Exit, woken, s') && s'.items == s.items && s'.history == s.history
  }

  // The first critical section of worker's loop, or its continuation after
  // uv_cond_wait, up to the next wait or unlock.
  ghost predicate EnterStep(s: State, t: nat, woken: Option<nat>, s': State) {
    && t < |s.workers| && (s.workers[t] == Start || s.workers[t] == Woken)
    && s'.loops == s.loops && s'.history == s.history
    && var idle := if s.workers[t] == Woken then s.idle - 1 else s.idle;
    if s.wq == [] then
      && s'.wq == s.wq && s'.idle == idle + 1 && s'.items == s.items && woken == None
      && s'.workers == s.workers[t := Waiting]
    else if s.wq[0] == Exit then
      && s'.wq == s.wq && s'.idle == idle && s'.items == s.items
      && Signal(s.workers[t := Exited], woken, s'.workers)
    else
      var i := s.wq[0].item;
      && s'.wq == s.wq[1..] && s'.idle == idle && woken == None
      && i in s.items && s'.items == s.items[i := s.items[i].(selfLinked := true)]
      && s'.workers == s.workers[t := Running(i)]
  }

  ghost predicate SpuriousStep(s: State, t: nat, s': State) {
    t < |s.workers| && s.workers[t] == Waiting && s' == s.(workers := s.workers[t := Woken])
  }

  // w->work(w); uv__cancelled would abort the process.
  ghost predicate ExecuteStep(s: State, t: nat, s': State) {
    && t < |s.workers| && s.workers[t].Running?
    && var i := s.workers[t].item;
    && s' == s.(workers := s.workers[t := Ran(i)], history := s.history + [WorkRan(i)])
  }

  // The worker's second critical section, under the loop's mutex.
  ghost predicate ReturnStep(s: State, t: nat, s': State) {
    && t < |s.workers| && s.workers[t].Ran?
    && var i := s.workers[t].item;
    && i in s.items && s.items[i].loop in s.loops
    && var l := s.items[i].loop;
    && s' == s.(workers := s.workers[t := Start],
                items := s.items[i := s.items[i].(work := Null, selfLinked := false)],
                loops := s.loops[l := s.loops[l].(wq := s.loops[l].wq + [i], alerted := true)])
  }

  function Without<T(==)>(q: seq<T>, x: T): seq<T> {
    if q == [] then [] else if q[0] == x then q[1..] else [q[0]] + Without(q[1..], x)
  }

  // uv__work_cancel up to the release of both mutexes.  The item is in flight
  // and the caller runs on the loop's thread.
  ghost predicate CancelStep(s: State, i: nat, s': State) {
    && i in s.items && PhaseOf(s.history, i) != Some(Idle)
    && s.items[i].loop in s.loops
    && var l := s.items[i].loop;
    && var lp := s.loops[l];
    && lp.cancelling == None
    && var cancelled := !s.items[i].selfLinked && s.items[i].work != Null;
    if !cancelled then
      s' == s.(history := s.history + [CancelReturned(i, false)])
    else
      // QUEUE_REMOVE takes the node out of whichever queue it is in.
      s' == s.(wq := Without(s.wq, Work(i)),
               loops := s.loops[l := Loop(Without(lp.wq, i), Without(lp.drained, i), Some(i), lp.alerted)],
               history := s.history + [CancelReturned(i, true)])
  }

  // The rest of uv__work_cancel.
  ghost predicate FinishCancelStep(s: State, l: nat, s': State) {
    && l in s.loops && s.loops[l].cancelling.Some?
    && var i := s.loops[l].cancelling.value;
    && i in s.items
    && s' == s.(items := s.items[i := s.items[i].(work := Cancelled, selfLinked := false)],
                loops := s.loops[l := s.loops[l].(wq := s.loops[l].wq + [i], cancelling := None,
                                                     alerted := true)])
  }

  // uv__work_done, called for an alert: QUEUE_MOVE under the loop's mutex.
  ghost predicate DrainStep(s: State, l: nat, s': State) {
    && l in s.loops && s.loops[l].cancelling == None && s.loops[l].drained == [] && s.loops[l].alerted
    && s' == s.(loops := s.loops[l := s.loops[l].(wq := [], drained := s.loops[l].wq, alerted := false)])
  }

  // uv__work_done: take the head of the local queue and call done.
  ghost predicate DoneStep(s: State, l: nat, s': State) {
    && l in s.loops && s.loops[l].cancelling == None && s.loops[l].drained != []
    && var i := s.loops[l].drained[0];
    && i in s.items
    && s' == s.(loops := s.loops[l := s.loops[l].(drained := s.loops[l].drained[1..])],
                history := s.history + [DoneCalled(i, s.items[i].work == Cancelled)])
  }

  ghost predicate Next(s: State, a: Step, s': State) {
    match a
    case Submit(l, i, woken) => SubmitStep(s, l, i, woken, s')
    case PostExit(woken) => PostExitStep(s, woken, s')
    case Enter(t, woken) => EnterStep(s, t, woken, s')
    case Spurious(t) => SpuriousStep(s, t, s')
    case Execute(t) => ExecuteStep(s, t, s')
    case Return(t) => ReturnStep(s, t, s')
    case Cancel(i) => CancelStep(s, i, s')
    case FinishCancel(l) => FinishCancelStep(s, l, s')
    case Drain(l) => DrainStep(s, l, s')
    case Done(l) => DoneStep(s, l, s')
  }

  // ---------- what users may rely on: the life of one submission ----------

  // Idle: not submitted, or done has been called.  Pending: may still be
  // cancelled.  Committed: a cancel was refused, the work is going to run.
  // Executed: the work ran.  Dropped: a cancel succeeded, the work never runs.
  datatype Phase = Idle | Pending | Committed | Executed | Dropped

  function PhaseStep(p: Phase, e: Event): Option<Phase> {
    match (p, e)
    case (Idle, Submitted(_)) => Some(Pending)
    case (Pending, WorkRan(_)) => Some(Executed)
    case (Committed, WorkRan(_)) => Some(Executed)
    case (Pending, CancelReturned(_, ok)) => Some(if ok then Dropped else Committed)
    case (Committed, CancelReturned(_, false)) => Some(Committed)
    case (Executed, CancelReturned(_, false)) => Some(Executed)
    case (Dropped, CancelReturned(_, true)) => Some(Dropped)
    case (Executed, DoneCalled(_, false)) => Some(Idle)
    case (Dropped, DoneCalled(_, true)) => Some(Idle)
    case _ => None
  }

  // The phase of item i after the events of h, or None if h breaks the rules.
  function PhaseOf(h: seq<Event>, i: nat): Option<Phase> {
    if h == [] then Some(Idle)
    else
      var p := PhaseOf(h[..|h| - 1], i);
      var e := h[|h| - 1];
      if p.None? || e.item != i then p else PhaseStep(p.value, e)
  }

  lemma PhaseAppend(h: seq<Event>, e: Event, i: nat)
    ensures PhaseOf(h + [e], i) ==
            if PhaseOf(h, i).None? || e.item != i then PhaseOf(h, i) else PhaseStep(PhaseOf(h, i).value, e)
  {
    assert (h + [e])[..|h|] == h;
  }

  // ---------- invariants ----------

  ghost predicate NoDup<T>(q: seq<T>) {
    forall j, k :: 0 <= j < k < |q| ==> q[j] != q[k]
  }

  ghost predicate Holds(w: Worker, i: nat) { (w.Running? || w.Ran?) && w.item == i }

  // The shared queue.
  ghost predicate QueueInv(s: State) {
    && NoDup(s.wq)
    && forall i :: Work(i) in s.wq ==>
         i in s.items && s.items[i].work == Fn && !s.items[i].selfLinked && PhaseOf(s.history, i) == Some(Pending)
  }

  // The workers' hands.
  ghost predicate HandsInv(s: State) {
    && (forall t, u :: 0 <= t < u < |s.workers| && (s.workers[t].Running? || s.workers[t].Ran?) ==>
          !Holds(s.workers[u], s.workers[t].item))
    && forall t :: 0 <= t < |s.workers| && (s.workers[t].Running? || s.workers[t].Ran?) ==>
         var i := s.workers[t].item;
         && i in s.items && s.items[i].work == Fn && s.items[i].selfLinked
         && var p := PhaseOf(s.history, i);
            if s.workers[t].Ran? then p == Some(Executed) else p == Some(Pending) || p == Some(Committed)
  }

  ghost predicate Finished(s: State, l: nat, i: nat) {
    && i in s.items && s.items[i].loop == l && !s.items[i].selfLinked
    && ((s.items[i].work == Null && PhaseOf(s.history, i) == Some(Executed))
        || (s.items[i].work == Cancelled && PhaseOf(s.history, i) == Some(Dropped)))
  }

  // One loop's queues and cancelling hands.
  ghost predicate LoopOk(s: State, l: nat, lp: Loop) {
    && NoDup(lp.wq) && NoDup(lp.drained) && (lp.wq != [] ==> lp.alerted)
    && (forall i :: i in lp.wq ==> Finished(s, l, i) && i !in lp.drained)
    && (forall i :: i in lp.drained ==> Finished(s, l, i))
    && (lp.cancelling.Some? ==>
          var i := lp.cancelling.value;
          && i in s.items && s.items[i].loop == l && !s.items[i].selfLinked && s.items[i].work != Null
          && PhaseOf(s.history, i) == Some(Dropped) && i !in lp.wq && i !in lp.drained)
  }

  ghost predicate LoopsInv(s: State) {
    forall l :: l in s.loops ==> LoopOk(s, l, s.loops[l])
  }

  // Places an item can be.
  datatype Place = InQueue | InHands(t: nat) | InCancel | InLoop | InDrained

  ghost predicate IsAt(s: State, i: nat, p: Place) {
    match p
    case InQueue => Work(i) in s.wq
    case InHands(t) => t < |s.workers| && Holds(s.workers[t], i)
    case InCancel => exists l :: l in s.loops && s.loops[l].cancelling == Some(i)
    case InLoop => exists l :: l in s.loops && i in s.loops[l].wq
    case InDrained => exists l :: l in s.loops && i in s.loops[l].drained
  }

  // Nothing gets lost, and users' rules are never broken.
  ghost predicate ItemsInv(s: State) {
    forall i :: PhaseOf(s.history, i).Some? &&
      (PhaseOf(s.history, i) != Some(Idle) ==>
        i in s.items && s.items[i].loop in s.loops && exists p :: IsAt(s, i, p))
  }

  function IdleWeight(w: Worker): nat { if w == Waiting || w == Woken then 1 else 0 }

  function IdleCount(ws: seq<Worker>): nat {
    if ws == [] then 0 else IdleCount(ws[..|ws| - 1]) + IdleWeight(ws[|ws| - 1])
  }

  ghost predicate Live(w: Worker) { w != Exited }

  // Somebody will look at a non-empty queue.
  ghost predicate WakeInv(s: State) {
    && s.idle == IdleCount(s.workers)
    && ((s.wq != [] && exists t :: 0 <= t < |s.workers| && Live(s.workers[t])) ==>
          exists t :: 0 <= t < |s.workers| && Live(s.workers[t]) && s.workers[t] != Waiting)
  }

  ghost predicate Inv(s: State) {
    QueueInv(s) && HandsInv(s) && LoopsInv(s) && ItemsInv(s) && WakeInv(s)
  }

  // ---------- counting idle workers ----------

  lemma {:induction false} IdleUpdate(ws: seq<Worker>, t: nat, w: Worker)
    requires t < |ws|
    ensures IdleCount(ws[t := w]) == IdleCount(ws) - IdleWeight(ws[t]) + IdleWeight(w)
  {
    var ws' := ws[t := w];
    if t < |ws| - 1 {
      IdleUpdate(ws[..|ws| - 1], t, w);
      assert ws'[..|ws| - 1] == ws[..|ws| - 1][t := w];
    } else {
      assert ws'[..|ws| - 1] == ws[..|ws| - 1];
    }
  }

  lemma {:induction false} IdleZero(ws: seq<Worker>, t: nat)
    requires IdleCount(ws) == 0 && t < |ws|
    ensures ws[t] != Waiting && ws[t] != Woken
  {
    if t < |ws| - 1 { IdleZero(ws[..|ws| - 1], t); }
  }

  lemma {:induction false} IdlePositive(ws: seq<Worker>, t: nat)
    requires t < |ws| && (ws[t] == Waiting || ws[t] == Woken)
    ensures IdleCount(ws) > 0
  {
    if IdleCount(ws) == 0 { IdleZero(ws, t); }
  }

  lemma SignalIdle(ws: seq<Worker>, woken: Option<nat>, ws': seq<Worker>)
    requires Signal(ws, woken, ws')
    ensures IdleCount(ws') == IdleCount(ws)
  {
    if woken.Some? { IdleUpdate(ws, woken.value, Woken); }
  }

  // After a signal no live worker is blocked unless another one is on its way.
  lemma SignalWakes(ws: seq<Worker>, woken: Option<nat>, ws': seq<Worker>)
    requires Signal(ws, woken, ws')
    ensures (exists t :: 0 <= t < |ws'| && Live(ws'[t])) ==>
              exists t :: 0 <= t < |ws'| && Live(ws'[t]) && ws'[t] != Waiting
  {
    if woken.Some? { assert Live(ws'[woken.value]) && ws'[woken.value] != Waiting; }
  }

  lemma PostWakes(s: State, e: Entry, woken: Option<nat>, s': State)
    requires WakeInv(s) && Post(s, e, woken, s')
    ensures WakeInv(s')
  {
    if s.idle > 0 {
      SignalIdle(s.workers, woken, s'.workers);
      SignalWakes(s.workers, woken, s'.workers);
    } else {
      forall t | 0 <= t < |s.workers| ensures s.workers[t] != Waiting { IdleZero(s.workers, t); }
    }
  }

  lemma EnterWakes(s: State, t: nat, woken: Option<nat>, s': State)
    requires WakeInv(s) && EnterStep(s, t, woken, s')
    ensures WakeInv(s')
  {
    if s.workers[t] == Woken { IdlePositive(s.workers, t); }
    if s.wq == [] {
      IdleUpdate(s.workers, t, Waiting);
    } else if s.wq[0] == Exit {
      IdleUpdate(s.workers, t, Exited);
      SignalIdle(s.workers[t := Exited], woken, s'.workers);
      SignalWakes(s.workers[t := Exited], woken, s'.workers);
    } else {
      IdleUpdate(s.workers, t, Running(s.wq[0].item));
      assert Live(s'.workers[t]) && s'.workers[t] != Waiting;
    }
  }

  lemma WorkerWakes(s: State, t: nat, w: Worker, s': State)
    requires WakeInv(s) && t < |s.workers| && IdleWeight(w) == IdleWeight(s.workers[t]) && Live(w) && w != Waiting
    requires s'.workers == s.workers[t := w] && s'.wq == s.wq && s'.idle == s.idle
    ensures WakeInv(s')
  {
    IdleUpdate(s.workers, t, w);
    assert Live(s'.workers[t]) && s'.workers[t] != Waiting;
  }

  lemma WakeKept(s: State, a: Step, s': State)
    requires WakeInv(s) && Next(s, a, s')
    ensures WakeInv(s')
  {
    match a
    case Submit(l, i, woken) => PostWakes(s, Work(i), woken, s');
    case PostExit(woken) => PostWakes(s, Exit, woken, s');
    case Enter(t, woken) => EnterWakes(s, t, woken, s');
    case Spurious(t) => WorkerWakes(s, t, Woken, s');
    case Execute(t) => WorkerWakes(s, t, Ran(s.workers[t].item), s');
    case Return(t) => WorkerWakes(s, t, Start, s');
    case Cancel(i) =>
    case FinishCancel(l) =>
    case Drain(l) =>
    case Done(l) =>
  }

  // ---------- the items' invariants ----------

  ghost predicate Core(s: State) { QueueInv(s) && HandsInv(s) && LoopsInv(s) && ItemsInv(s) }

  lemma {:induction false} WithoutHas<T>(q: seq<T>, x: T, y: T)
    requires NoDup(q)
    ensures y in Without(q, x) <==> y in q && y != x
    ensures NoDup(Without(q, x))
  {
    if q != [] {
      WithoutHas(q[1..], x, y);
      if q[0] != x {
        forall k | 0 <= k < |Without(q[1..], x)| ensures Without(q[1..], x)[k] != q[0] {
          var z := Without(q[1..], x)[k];
          WithoutHas(q[1..], x, z);
        }
      }
    }
  }

  lemma WithoutSame<T>(q: seq<T>, x: T)
    requires NoDup(q)
    ensures NoDup(Without(q, x)) && forall y :: y in Without(q, x) <==> y in q && y != x
  {
    WithoutHas(q, x, x);
    forall y ensures y in Without(q, x) <==> y in q && y != x { WithoutHas(q, x, y); }
  }

  lemma PhasesAppend(h: seq<Event>, e: Event)
    ensures forall i :: i != e.item ==> PhaseOf(h + [e], i) == PhaseOf(h, i)
    ensures PhaseOf(h, e.item).Some? ==> PhaseOf(h + [e], e.item) == PhaseStep(PhaseOf(h, e.item).value, e)
  {
    forall i ensures i != e.item ==> PhaseOf(h + [e], i) == PhaseOf(h, i) { PhaseAppend(h, e, i); }
    PhaseAppend(h, e, e.item);
  }

  // Every item that is in flight keeps a place.
  lemma PlacesKept(s: State, s': State, moved: nat)
    requires ItemsInv(s)
    requires forall i :: i != moved ==> PhaseOf(s'.history, i) == PhaseOf(s.history, i)
    requires forall i :: i != moved && i in s.items ==> i in s'.items && s'.items[i].loop == s.items[i].loop
    requires forall l :: l in s.loops ==> l in s'.loops
    requires forall i, p :: i != moved && IsAt(s, i, p) ==> IsAt(s', i, p)
    requires PhaseOf(s'.history, moved).Some?
    requires PhaseOf(s'.history, moved) != Some(Idle) ==>
               moved in s'.items && s'.items[moved].loop in s'.loops && exists p :: IsAt(s', moved, p)
    ensures ItemsInv(s')
  {
  }

  // Everything about items other than m is as it was.
  ghost predicate OthersSame(s: State, s': State, m: nat) {
    forall i :: i != m ==>
      && (i in s.items <==> i in s'.items) && (i in s.items ==> s'.items[i] == s.items[i])
      && PhaseOf(s'.history, i) == PhaseOf(s.history, i)
  }

  lemma QueueFrame(s: State, s': State, m: nat)
    requires QueueInv(s) && OthersSame(s, s', m)
    requires NoDup(s'.wq) && forall e :: e in s'.wq ==> e in s.wq && e != Work(m)
    ensures QueueInv(s')
  {
  }

  lemma HandsFrame(s: State, s': State, m: nat)
    requires HandsInv(s) && OthersSame(s, s', m) && |s'.workers| == |s.workers|
    requires forall t :: 0 <= t < |s'.workers| && (s'.workers[t].Running? || s'.workers[t].Ran?) ==>
               s'.workers[t] == s.workers[t] && !Holds(s.workers[t], m)
    ensures HandsInv(s')
  {
  }

  ghost predicate LoopLacks(lp: Loop, m: nat) { m !in lp.wq && m !in lp.drained && lp.cancelling != Some(m) }

  lemma LoopFrame(s: State, s': State, m: nat, l: nat, lp: Loop)
    requires LoopOk(s, l, lp) && LoopLacks(lp, m) && OthersSame(s, s', m)
    ensures LoopOk(s', l, lp)
  {
  }

  // All loops but k are untouched and do not know m.
  lemma LoopsFrame(s: State, s': State, m: nat, k: nat)
    requires LoopsInv(s) && OthersSame(s, s', m) && s'.loops.Keys == s.loops.Keys
    requires forall l :: l in s.loops && l != k ==> s'.loops[l] == s.loops[l] && LoopLacks(s.loops[l], m)
    requires k in s.loops ==> LoopOk(s', k, s'.loops[k])
    ensures LoopsInv(s')
  {
    forall l | l in s'.loops ensures LoopOk(s', l, s'.loops[l]) {
      if l != k { LoopFrame(s, s', m, l, s.loops[l]); }
    }
  }

  // Where an item is not, told from its phase or its own fields.
  lemma NotInLoops(s: State, i: nat, l: nat)
    requires LoopsInv(s) && l in s.loops
    requires i !in s.items || s.items[i].selfLinked || s.items[i].loop != l
             || (PhaseOf(s.history, i) != Some(Executed) && PhaseOf(s.history, i) != Some(Dropped))
    ensures LoopLacks(s.loops[l], i)
  {
  }

  lemma NotInHands(s: State, i: nat, t: nat)
    requires HandsInv(s) && t < |s.workers| && (i !in s.items || !s.items[i].selfLinked
             || PhaseOf(s.history, i) == Some(Idle))
    ensures !Holds(s.workers[t], i)
  {
  }

  lemma SubmitCore(s: State, l: nat, i: nat, woken: Option<nat>, s': State)
    requires Core(s) && SubmitStep(s, l, i, woken, s')
    ensures Core(s')
  {
    hide PhaseOf, NoDup;
    PhasesAppend(s.history, Submitted(i));
    forall t | 0 <= t < |s.workers| ensures !Holds(s.workers[t], i) { NotInHands(s, i, t); }
    forall k | k in s.loops ensures LoopLacks(s.loops[k], i) { NotInLoops(s, i, k); }
    assert Work(i) !in s.wq;
    SnocNoDup(s.wq, Work(i));
    assert QueueInv(s');
    HandsFrame(s, s', i);
    if l in s.loops { LoopFrame(s, s', i, l, s.loops[l]); }
    LoopsFrame(s, s', i, l);
    assert IsAt(s', i, InQueue);
    forall j, p | j != i && IsAt(s, j, p) ensures IsAt(s', j, p) { }
    PlacesKept(s, s', i);
  }

  lemma SnocNoDup<T>(q: seq<T>, x: T)
    requires NoDup(q) && x !in q
    ensures NoDup(q + [x])
  {
  }

  lemma PostExitCore(s: State, woken: Option<nat>, s': State)
    requires Core(s) && PostExitStep(s, woken, s')
    ensures Core(s')
  {
    SnocNoDup(s.wq, Exit);
    forall j, p | IsAt(s, j, p) ensures IsAt(s', j, p) { }
  }

  lemma EnterCore(s: State, t: nat, woken: Option<nat>, s': State)
    requires Core(s) && EnterStep(s, t, woken, s')
    ensures Core(s')
  {
    hide PhaseOf, NoDup;
    if s.wq != [] && s.wq[0] != Exit {
      var i := s.wq[0].item;
      assert Work(i) in s.wq;
      TakeCore(s, t, i, s');
    } else {
      forall j, p | IsAt(s, j, p) ensures IsAt(s', j, p) { }
    }
  }

  lemma TakeCore(s: State, t: nat, i: nat, s': State)
    requires Core(s) && EnterStep(s, t, None, s') && s.wq != [] && s.wq[0] == Work(i)
    ensures Core(s')
  {
    hide PhaseOf, NoDup;
    TailNoDup(s.wq);
    assert Work(i) in s.wq;
    forall u | 0 <= u < |s.workers| ensures !Holds(s.workers[u], i) { NotInHands(s, i, u); }
    forall k | k in s.loops ensures LoopLacks(s.loops[k], i) { NotInLoops(s, i, k); }
    QueueFrame(s, s', i);
    forall k | k in s.loops ensures LoopOk(s', k, s.loops[k]) { LoopFrame(s, s', i, k, s.loops[k]); }
    LoopsFrame(s, s', i, 0);
    assert IsAt(s', i, InHands(t));
    forall j, p | j != i && IsAt(s, j, p) ensures IsAt(s', j, p) { TakePlaces(s, t, i, s', j, p); }
    PlacesKept(s, s', i);
  }

  lemma TakePlaces(s: State, t: nat, i: nat, s': State, j: nat, p: Place)
    requires EnterStep(s, t, None, s') && s.wq != [] && s.wq[0] == Work(i) && j != i && IsAt(s, j, p)
    ensures IsAt(s', j, p)
  {
    if p == InQueue {
      var n :| 0 <= n < |s.wq| && s.wq[n] == Work(j);
      assert s'.wq[n - 1] == Work(j);
    }
  }

  lemma SpuriousCore(s: State, t: nat, s': State)
    requires Core(s) && SpuriousStep(s, t, s')
    ensures Core(s')
  {
    forall j, p | IsAt(s, j, p) ensures IsAt(s', j, p) { }
  }

  lemma ExecuteCore(s: State, t: nat, s': State)
    requires Core(s) && ExecuteStep(s, t, s')
    ensures Core(s')
  {
    hide PhaseOf, NoDup;
    var i := s.workers[t].item;
    PhasesAppend(s.history, WorkRan(i));
    forall k | k in s.loops ensures LoopLacks(s.loops[k], i) { NotInLoops(s, i, k); }
    QueueFrame(s, s', i);
    forall k | k in s.loops ensures LoopOk(s', k, s.loops[k]) { LoopFrame(s, s', i, k, s.loops[k]); }
    LoopsFrame(s, s', i, 0);
    assert IsAt(s', i, InHands(t));
    forall j, p | j != i && IsAt(s, j, p) ensures IsAt(s', j, p) { }
    PlacesKept(s, s', i);
  }

  lemma ReturnCore(s: State, t: nat, s': State)
    requires Core(s) && ReturnStep(s, t, s')
    ensures Core(s')
  {
    hide PhaseOf, NoDup;
    var i := s.workers[t].item;
    var l := s.items[i].loop;
    forall k | k in s.loops ensures LoopLacks(s.loops[k], i) { NotInLoops(s, i, k); }
    QueueFrame(s, s', i);
    HandsFrame(s, s', i);
    SnocNoDup(s.loops[l].wq, i);
    LoopFrame(s, s', i, l, s.loops[l]);
    LoopsFrame(s, s', i, l);
    assert i in s'.loops[l].wq && IsAt(s', i, InLoop);
    forall j, p | j != i && IsAt(s, j, p) ensures IsAt(s', j, p) { LoopPlaces(s, s', l, j, p); }
    PlacesKept(s, s', i);
  }

  // Growing one loop's queue moves nobody out.
  lemma LoopPlaces(s: State, s': State, l: nat, j: nat, p: Place)
    requires IsAt(s, j, p) && l in s.loops && s'.loops.Keys == s.loops.Keys && s'.wq == s.wq
    requires forall k :: k in s.loops && k != l ==> s'.loops[k] == s.loops[k]
    requires j in s.loops[l].wq ==> j in s'.loops[l].wq
    requires j in s.loops[l].drained ==> j in s'.loops[l].drained
    requires s.loops[l].cancelling == Some(j) ==> s'.loops[l].cancelling == Some(j)
    requires |s'.workers| == |s.workers| && forall t :: 0 <= t < |s.workers| && Holds(s.workers[t], j) ==>
             Holds(s'.workers[t], j)
    ensures IsAt(s', j, p)
  {
    match p
    case InQueue =>
    case InHands(t) =>
    case InCancel => var k :| k in s.loops && s.loops[k].cancelling == Some(j);
      assert s'.loops[k].cancelling == Some(j);
    case InLoop => var k :| k in s.loops && j in s.loops[k].wq; assert j in s'.loops[k].wq;
    case InDrained => var k :| k in s.loops && j in s.loops[k].drained; assert j in s'.loops[k].drained;
  }

  // A refused cancel: the item is in a worker's hands or has been executed.
  lemma RefuseCore(s: State, i: nat, s': State)
    requires Core(s) && CancelStep(s, i, s') && (s.items[i].selfLinked || s.items[i].work == Null)
    ensures Core(s')
  {
    hide PhaseOf, NoDup;
    PhasesAppend(s.history, CancelReturned(i, false));
    assert Work(i) !in s.wq;
    QueueFrame(s, s', i);
    var l := s.items[i].loop;
    forall k | k in s.loops && k != l ensures LoopLacks(s.loops[k], i) { NotInLoops(s, i, k); }
    assert LoopOk(s', l, s.loops[l]);
    LoopsFrame(s, s', i, l);
    assert HandsInv(s');
    RefusedPhase(s, i);
    forall j, p | IsAt(s, j, p) ensures IsAt(s', j, p) { }
    PlacesKept(s, s', i);
  }

  // What each place says about the item in it.
  ghost predicate Fits(p: Place, it: Item, ph: Option<Phase>) {
    match p
    case InQueue => it.work == Fn && !it.selfLinked && ph == Some(Pending)
    case InHands(_) => it.work == Fn && it.selfLinked && ph in {Some(Pending), Some(Committed), Some(Executed)}
    case InCancel => it.work != Null && !it.selfLinked && ph == Some(Dropped)
    case _ =>
      !it.selfLinked && ((it.work == Null && ph == Some(Executed))
      || (it.work == Cancelled && ph == Some(Dropped)))
  }

  lemma PlaceFacts(s: State, i: nat, p: Place)
    requires Core(s) && IsAt(s, i, p)
    ensures i in s.items && Fits(p, s.items[i], PhaseOf(s.history, i))
    ensures p in {InCancel, InLoop, InDrained} ==>
            s.items[i].loop in s.loops
            && IsInLoop(s.loops[s.items[i].loop], i, p)
  {
    hide PhaseOf, NoDup;
    match p
    case InQueue =>
    case InHands(t) =>
    case InCancel => var l :| l in s.loops && s.loops[l].cancelling == Some(i); assert LoopOk(s, l, s.loops[l]);
    case InLoop => var l :| l in s.loops && i in s.loops[l].wq; assert LoopOk(s, l, s.loops[l]);
    case InDrained => var l :| l in s.loops && i in s.loops[l].drained; assert LoopOk(s, l, s.loops[l]);
  }

  ghost predicate IsInLoop(lp: Loop, i: nat, p: Place) {
    (p == InCancel ==> lp.cancelling == Some(i)) && (p == InLoop ==> i in lp.wq) && (p == InDrained ==> i in lp.drained)
  }

  lemma RefusedPhase(s: State, i: nat)
    requires Core(s) && i in s.items && (s.items[i].selfLinked || s.items[i].work == Null)
    requires PhaseOf(s.history, i) != Some(Idle)
    ensures PhaseOf(s.history, i) in {Some(Pending), Some(Committed), Some(Executed)}
  {
    var p :| IsAt(s, i, p);
    PlaceFacts(s, i, p);
  }

  // A cancellable item is queued and untouched, or was cancelled before.
  lemma CancellablePhase(s: State, i: nat)
    requires Core(s) && i in s.items && !s.items[i].selfLinked && s.items[i].work != Null
    requires PhaseOf(s.history, i) != Some(Idle)
    ensures (Work(i) in s.wq && PhaseOf(s.history, i) == Some(Pending)) || PhaseOf(s.history, i) == Some(Dropped)
  {
    var p :| IsAt(s, i, p);
    PlaceFacts(s, i, p);
  }

  lemma AcceptCore(s: State, i: nat, s': State)
    requires Core(s) && CancelStep(s, i, s') && !s.items[i].selfLinked && s.items[i].work != Null
    ensures Core(s')
  {
    hide PhaseOf, NoDup, Without;
    PhasesAppend(s.history, CancelReturned(i, true));
    CancellablePhase(s, i);
    var l := s.items[i].loop;
    WithoutSame(s.wq, Work(i));
    WithoutSame(s.loops[l].wq, i);
    WithoutSame(s.loops[l].drained, i);
    QueueFrame(s, s', i);
    forall t | 0 <= t < |s.workers| ensures !Holds(s.workers[t], i) { NotInHands(s, i, t); }
    HandsFrame(s, s', i);
    forall k | k in s.loops && k != l ensures LoopLacks(s.loops[k], i) { NotInLoops(s, i, k); }
    var rest := Loop(Without(s.loops[l].wq, i), Without(s.loops[l].drained, i), None, s.loops[l].alerted);
    if rest.wq != [] { assert rest.wq[0] in s.loops[l].wq; }
    LoopFrame(s, s', i, l, rest);
    LoopsFrame(s, s', i, l);
    assert s'.loops[l].cancelling == Some(i) && IsAt(s', i, InCancel);
    forall j, p | j != i && IsAt(s, j, p) ensures IsAt(s', j, p) { AcceptPlaces(s, i, s', j, p); }
    PlacesKept(s, s', i);
  }

  lemma AcceptPlaces(s: State, i: nat, s': State, j: nat, p: Place)
    requires Core(s) && CancelStep(s, i, s') && !s.items[i].selfLinked && s.items[i].work != Null
    requires j != i && IsAt(s, j, p)
    ensures IsAt(s', j, p)
  {
    hide PhaseOf, Without, Finished;
    var l := s.items[i].loop;
    assert LoopOk(s, l, s.loops[l]);
    WithoutSame(s.wq, Work(i));
    WithoutSame(s.loops[l].wq, i);
    WithoutSame(s.loops[l].drained, i);
    match p
    case InQueue =>
    case InHands(t) =>
    case InCancel => var k :| k in s.loops && s.loops[k].cancelling == Some(j);
      assert s'.loops[k].cancelling == Some(j);
    case InLoop => var k :| k in s.loops && j in s.loops[k].wq; assert j in s'.loops[k].wq;
    case InDrained => var k :| k in s.loops && j in s.loops[k].drained; assert j in s'.loops[k].drained;
  }

  lemma FinishCancelCore(s: State, l: nat, s': State)
    requires Core(s) && FinishCancelStep(s, l, s')
    ensures Core(s')
  {
    hide PhaseOf, NoDup;
    var i := s.loops[l].cancelling.value;
    assert LoopOk(s, l, s.loops[l]);
    QueueFrame(s, s', i);
    forall t | 0 <= t < |s.workers| ensures !Holds(s.workers[t], i) { NotInHands(s, i, t); }
    HandsFrame(s, s', i);
    forall k | k in s.loops && k != l ensures LoopLacks(s.loops[k], i) { NotInLoops(s, i, k); }
    SnocNoDup(s.loops[l].wq, i);
    LoopFrame(s, s', i, l, s.loops[l].(cancelling := None));
    LoopsFrame(s, s', i, l);
    assert i in s'.loops[l].wq && IsAt(s', i, InLoop);
    forall j, p | j != i && IsAt(s, j, p) ensures IsAt(s', j, p) { LoopPlaces(s, s', l, j, p); }
    PlacesKept(s, s', i);
  }

  lemma DrainCore(s: State, l: nat, s': State)
    requires Core(s) && DrainStep(s, l, s')
    ensures Core(s')
  {
    hide PhaseOf;
    assert LoopOk(s, l, s.loops[l]);
    forall k | k in s'.loops ensures LoopOk(s', k, s'.loops[k]) {
      assert LoopOk(s, k, s.loops[k]);
    }
    forall j | PhaseOf(s.history, j) != Some(Idle) ensures exists p :: IsAt(s', j, p) {
      var p :| IsAt(s, j, p);
      if p == InLoop && j in s.loops[l].wq {
        assert j in s'.loops[l].drained && IsAt(s', j, InDrained);
      } else {
        DrainPlaces(s, l, s', j, p);
      }
    }
  }

  lemma DrainPlaces(s: State, l: nat, s': State, j: nat, p: Place)
    requires DrainStep(s, l, s') && IsAt(s, j, p) && j !in s.loops[l].wq
    ensures IsAt(s', j, p)
  {
    LoopPlaces(s, s', l, j, p);
  }

  lemma DoneCore(s: State, l: nat, s': State)
    requires Core(s) && DoneStep(s, l, s')
    ensures Core(s')
  {
    hide PhaseOf, NoDup;
    var i := s.loops[l].drained[0];
    assert i in s.loops[l].drained;
    assert LoopOk(s, l, s.loops[l]);
    assert Work(i) !in s.wq;
    PhasesAppend(s.history, DoneCalled(i, s.items[i].work == Cancelled));
    QueueFrame(s, s', i);
    forall t | 0 <= t < |s.workers| ensures !Holds(s.workers[t], i) { NotInHands(s, i, t); }
    HandsFrame(s, s', i);
    forall k | k in s.loops && k != l ensures LoopLacks(s.loops[k], i) { NotInLoops(s, i, k); }
    TailNoDup(s.loops[l].drained);
    LoopFrame(s, s', i, l, s'.loops[l]);
    LoopsFrame(s, s', i, l);
    forall j, p | j != i && IsAt(s, j, p) ensures IsAt(s', j, p) { LoopPlaces(s, s', l, j, p); }
    PlacesKept(s, s', i);
  }

  lemma TailNoDup<T>(q: seq<T>)
    requires NoDup(q) && q != []
    ensures NoDup(q[1..]) && q[0] !in q[1..] && forall x :: x in q && x != q[0] ==> x in q[1..]
  {
    forall x | x in q && x != q[0] ensures x in q[1..] {
      var n :| 0 <= n < |q| && q[n] == x;
      assert q[1..][n - 1] == x;
    }
  }

  // ---------- the main results ----------

  lemma InitInv(s: State)
    requires Init(s)
    ensures Inv(s)
  {
    IdleStart(s.workers);
  }

  lemma {:induction false} IdleStart(ws: seq<Worker>)
    requires forall t :: 0 <= t < |ws| ==> ws[t] == Start
    ensures IdleCount(ws) == 0
  {
    if ws != [] { IdleStart(ws[..|ws| - 1]); }
  }

  lemma NextInv(s: State, a: Step, s': State)
    requires Inv(s) && Next(s, a, s')
    ensures Inv(s')
  {
    hide WakeInv, QueueInv, HandsInv, LoopsInv, ItemsInv;
    WakeKept(s, a, s');
    match a
    case Submit(l, i, woken) => SubmitCore(s, l, i, woken, s');
    case PostExit(woken) => PostExitCore(s, woken, s');
    case Enter(t, woken) => EnterCore(s, t, woken, s');
    case Spurious(t) => SpuriousCore(s, t, s');
    case Execute(t) => ExecuteCore(s, t, s');
    case Return(t) => ReturnCore(s, t, s');
    case Cancel(i) =>
      if s.items[i].selfLinked || s.items[i].work == Null { RefuseCore(s, i, s'); } else { AcceptCore(s, i, s'); }
    case FinishCancel(l) => FinishCancelCore(s, l, s');
    case Drain(l) => DrainCore(s, l, s');
    case Done(l) => DoneCore(s, l, s');
  }

  // A run: states joined by steps.
  ghost predicate IsRun(run: seq<State>, steps: seq<Step>) {
    && |run| == |steps| + 1 && Init(run[0])
    && forall n :: 0 <= n < |steps| ==> Next(run[n], steps[n], run[n + 1])
  }

  lemma {:induction false} RunInv(run: seq<State>, steps: seq<Step>, n: nat)
    requires IsRun(run, steps) && n < |run|
    ensures Inv(run[n])
  {
    if n == 0 {
      InitInv(run[0]);
    } else {
      RunInv(run, steps, n - 1);
      NextInv(run[n - 1], steps[n - 1], run[n]);
    }
  }

  // In flight: in exactly one place.  Otherwise: nowhere.
  lemma ExactlyOnePlace(run: seq<State>, steps: seq<Step>, n: nat, i: nat)
    requires IsRun(run, steps) && n < |run|
    ensures PhaseOf(run[n].history, i) != Some(Idle) ==>
              exists p :: IsAt(run[n], i, p) && forall q :: IsAt(run[n], i, q) ==> q == p
    ensures PhaseOf(run[n].history, i) == Some(Idle) ==> forall q :: !IsAt(run[n], i, q)
    ensures NoDup(run[n].wq) && forall l :: l in run[n].loops ==> NoDup(run[n].loops[l].wq + run[n].loops[l].drained)
  {
    hide PhaseOf;
    RunInv(run, steps, n);
    var s := run[n];
    if PhaseOf(s.history, i) != Some(Idle) {
      var p :| IsAt(s, i, p);
      forall q | IsAt(s, i, q) ensures q == p { PlacesUnique(s, i, p, q); }
    } else {
      forall q ensures !IsAt(s, i, q) { if IsAt(s, i, q) { PlaceFacts(s, i, q); } }
    }
    forall l | l in s.loops ensures NoDup(s.loops[l].wq + s.loops[l].drained) {
      assert LoopOk(s, l, s.loops[l]);
      JoinNoDup(s.loops[l].wq, s.loops[l].drained);
    }
  }

  lemma JoinNoDup<T>(a: seq<T>, b: seq<T>)
    requires NoDup(a) && NoDup(b) && forall x :: x in a ==> x !in b
    ensures NoDup(a + b)
  {
    forall j, k | 0 <= j < k < |a + b| ensures (a + b)[j] != (a + b)[k] {
      if j < |a| <= k { assert a[j] in a && b[k - |a|] in b; }
    }
  }

  lemma PlacesUnique(s: State, i: nat, p: Place, q: Place)
    requires Core(s) && IsAt(s, i, p) && IsAt(s, i, q)
    ensures p == q
  {
    hide PhaseOf, NoDup;
    PlaceFacts(s, i, p);
    PlaceFacts(s, i, q);
    if p in {InCancel, InLoop, InDrained} { assert LoopOk(s, s.items[i].loop, s.loops[s.items[i].loop]); }
  }

  // Every history the pool can produce obeys the life cycle of every item.
  lemma LifeCycle(run: seq<State>, steps: seq<Step>, n: nat, i: nat)
    requires IsRun(run, steps) && n < |run|
    ensures PhaseOf(run[n].history, i).Some?
  {
    RunInv(run, steps, n);
  }

  // What a work function is called with: never NULL, never uv__cancelled, which
  // would abort the process.
  lemma NeverAborts(run: seq<State>, steps: seq<Step>, n: nat, t: nat)
    requires IsRun(run, steps) && n < |run| && t < |run[n].workers| && run[n].workers[t].Running?
    ensures run[n].workers[t].item in run[n].items && run[n].items[run[n].workers[t].item].work == Fn
  {
    RunInv(run, steps, n);
  }

  // ---------- what the life cycle means ----------

  function Count(h: seq<Event>, e: Event): nat {
    if h == [] then 0 else Count(h[..|h| - 1], e) + (if h[|h| - 1] == e then 1 else 0)
  }

  // Since its last submission item i has been through these events.
  ghost predicate Since(h: seq<Event>, m: nat, i: nat, p: Phase) {
    && m < |h| && h[m] == Submitted(i)
    && (forall k :: m < k < |h| && h[k].item == i ==> !h[k].Submitted? && !h[k].DoneCalled?)
    && (p == Dropped <==> exists k :: m < k < |h| && h[k] == CancelReturned(i, true))
    && (p == Executed <==> exists k :: m < k < |h| && h[k] == WorkRan(i))
    && (forall j, k :: m < j < k < |h| && h[j] == WorkRan(i) ==> h[k] != WorkRan(i))
  }

  lemma {:induction false} SinceSubmission(h: seq<Event>, i: nat) returns (m: nat)
    requires PhaseOf(h, i).Some? && PhaseOf(h, i) != Some(Idle)
    ensures Since(h, m, i, PhaseOf(h, i).value)
  {
    var h0, e := h[..|h| - 1], h[|h| - 1];
    if e == Submitted(i) {
      m := |h| - 1;
    } else {
      m := SinceSubmission(h0, i);
      assert forall k :: 0 <= k < |h0| ==> h[k] == h0[k];
      var p, q := PhaseOf(h0, i).value, PhaseOf(h, i).value;
      if exists k :: m < k < |h0| && h0[k] == CancelReturned(i, true) {
        var k :| m < k < |h0| && h0[k] == CancelReturned(i, true);
        assert h[k] == CancelReturned(i, true);
      }
      if exists k :: m < k < |h0| && h0[k] == WorkRan(i) {
        var k :| m < k < |h0| && h0[k] == WorkRan(i);
        assert h[k] == WorkRan(i);
      }
      assert h[|h| - 1] == e;
    }
  }

  // When done is called, it is the first time since a submission; the status is
  // UV_ECANCELED exactly if a cancel has returned 0 since, and then the work
  // function has not run; otherwise it has run exactly once.
  lemma DoneMeaning(h: seq<Event>, i: nat, cancelled: bool) returns (m: nat)
    requires PhaseOf(h + [DoneCalled(i, cancelled)], i).Some?
    ensures m < |h| && h[m] == Submitted(i)
    ensures forall k :: m < k < |h| && h[k].item == i ==> !h[k].Submitted? && !h[k].DoneCalled?
    ensures cancelled <==> exists k :: m < k < |h| && h[k] == CancelReturned(i, true)
    ensures cancelled <==> forall k :: m < k < |h| ==> h[k] != WorkRan(i)
    ensures forall j, k :: m < j < k < |h| && h[j] == WorkRan(i) ==> h[k] != WorkRan(i)
  {
    PhaseAppend(h, DoneCalled(i, cancelled), i);
    PhasePrefix(h, DoneCalled(i, cancelled), i);
    m := SinceSubmission(h, i);
  }

  lemma PhasePrefix(h: seq<Event>, e: Event, i: nat)
    requires PhaseOf(h + [e], i).Some?
    ensures PhaseOf(h, i).Some?
  {
    PhaseAppend(h, e, i);
  }

  // done is called at most once per submission, and all but the last submission
  // have had theirs.
  lemma {:induction false} DoneCounts(h: seq<Event>, i: nat)
    requires PhaseOf(h, i).Some?
    ensures Count(h, DoneCalled(i, true)) + Count(h, DoneCalled(i, false))
            + (if PhaseOf(h, i) == Some(Idle) then 0 else 1)
            == Count(h, Submitted(i))
  {
    if h != [] { DoneCounts(h[..|h| - 1], i); }
  }

  // A refused cancel is final: the work is going to run or has run.
  lemma {:induction false} RefusalIsFinal(h: seq<Event>, g: seq<Event>, i: nat)
    requires PhaseOf(h, i) == Some(Committed) || PhaseOf(h, i) == Some(Executed)
    requires PhaseOf(h + g, i).Some? && forall k :: 0 <= k < |g| ==> g[k] != DoneCalled(i, false)
    ensures PhaseOf(h + g, i) == Some(Committed) || PhaseOf(h + g, i) == Some(Executed)
  {
    if g == [] {
      assert h + g == h;
    } else {
      var g0, e := g[..|g| - 1], g[|g| - 1];
      assert h + g == (h + g0) + [e];
      PhasePrefix(h + g0, e, i);
      PhaseAppend(h + g0, e, i);
      RefusalIsFinal(h, g0, i);
    }
  }

  // ---------- progress ----------

  // A step of worker t itself.
  predicate OwnStep(a: Step, t: nat) {
    match a
    case Enter(u, _) => u == t
    case Execute(u) => u == t
    case Return(u) => u == t
    case _ => false
  }

  predicate WorkerStep(a: Step) { a.Enter? || a.Spurious? || a.Execute? || a.Return? }

  ghost predicate CanMove(s: State, t: nat) { exists a, s' :: OwnStep(a, t) && Next(s, a, s') }

  // A live worker is blocked only in uv_cond_wait.
  lemma OnlyWaitingBlocks(s: State, t: nat)
    requires Inv(s) && t < |s.workers| && Live(s.workers[t]) && s.workers[t] != Waiting
    ensures CanMove(s, t)
  {
    if s.workers[t].Running? {
      var i := s.workers[t].item;
      var s' := s.(workers := s.workers[t := Ran(i)], history := s.history + [WorkRan(i)]);
      assert OwnStep(Execute(t), t) && Next(s, Execute(t), s');
    } else if s.workers[t].Ran? {
      ReturnPossible(s, t);
    } else {
      EnterPossible(s, t);
    }
  }

  lemma ReturnPossible(s: State, t: nat)
    requires Inv(s) && t < |s.workers| && s.workers[t].Ran?
    ensures CanMove(s, t)
  {
    var i := s.workers[t].item;
    var l := s.items[i].loop;
    var s' := s.(workers := s.workers[t := Start],
                 items := s.items[i := s.items[i].(work := Null, selfLinked := false)],
                 loops := s.loops[l := s.loops[l].(wq := s.loops[l].wq + [i], alerted := true)]);
    assert OwnStep(Return(t), t) && Next(s, Return(t), s');
  }

  lemma SignalPossible(ws: seq<Worker>) returns (woken: Option<nat>, ws': seq<Worker>)
    ensures Signal(ws, woken, ws')
  {
    if t :| 0 <= t < |ws| && ws[t] == Waiting {
      woken, ws' := Some(t), ws[t := Woken];
    } else {
      woken, ws' := None, ws;
    }
  }

  lemma EnterPossible(s: State, t: nat)
    requires Inv(s) && t < |s.workers| && (s.workers[t] == Start || s.workers[t] == Woken)
    ensures CanMove(s, t)
  {
    if s.workers[t] == Woken { IdlePositive(s.workers, t); }
    var idle := if s.workers[t] == Woken then s.idle - 1 else s.idle;
    if s.wq == [] {
      var s' := s.(idle := idle + 1, workers := s.workers[t := Waiting]);
      assert OwnStep(Enter(t, None), t) && Next(s, Enter(t, None), s');
    } else if s.wq[0] == Exit {
      var woken, ws := SignalPossible(s.workers[t := Exited]);
      var s' := s.(idle := idle, workers := ws);
      assert OwnStep(Enter(t, woken), t) && Next(s, Enter(t, woken), s');
    } else {
      var i := s.wq[0].item;
      assert Work(i) in s.wq;
      var s' := s.(idle := idle, wq := s.wq[1..], workers := s.workers[t := Running(i)],
                   items := s.items[i := s.items[i].(selfLinked := true)]);
      assert OwnStep(Enter(t, None), t) && Next(s, Enter(t, None), s');
    }
  }

  // No lost wake-up: while the queue is not empty and a worker lives, some live
  // worker is not blocked and can take its next step.
  lemma NoLostWakeup(run: seq<State>, steps: seq<Step>, n: nat)
    requires IsRun(run, steps) && n < |run|
    requires run[n].wq != [] && exists t :: 0 <= t < |run[n].workers| && Live(run[n].workers[t])
    ensures exists t ::
              0 <= t < |run[n].workers| && Live(run[n].workers[t]) && run[n].workers[t] != Waiting && CanMove(run[n], t)
  {
    RunInv(run, steps, n);
    var t :| 0 <= t < |run[n].workers| && Live(run[n].workers[t]) && run[n].workers[t] != Waiting;
    OnlyWaitingBlocks(run[n], t);
  }

  // The exit message stays in the queue for ever.
  lemma ExitStays(s: State, a: Step, s': State)
    requires Inv(s) && Exit in s.wq && Next(s, a, s')
    ensures Exit in s'.wq
  {
    match a
    case Enter(t, woken) =>
      if s.wq[0] != Exit { TailNoDup(s.wq); }
    case Cancel(i) => WithoutSame(s.wq, Work(i));
    case _ =>
  }

  function Weight(w: Worker): nat {
    match w
    case Exited => 0
    case Waiting => 3
    case Start => 2
    case Woken => 2
    case Ran(_) => 3
    case Running(_) => 4
  }

  function TotalWeight(ws: seq<Worker>, f: Worker -> nat): nat {
    if ws == [] then 0 else TotalWeight(ws[..|ws| - 1], f) + f(ws[|ws| - 1])
  }

  lemma {:induction false} WeightUpdate(ws: seq<Worker>, t: nat, w: Worker, f: Worker -> nat)
    requires t < |ws|
    ensures TotalWeight(ws[t := w], f) == TotalWeight(ws, f) - f(ws[t]) + f(w)
  {
    var ws' := ws[t := w];
    if t < |ws| - 1 {
      WeightUpdate(ws[..|ws| - 1], t, w, f);
      assert ws'[..|ws| - 1] == ws[..|ws| - 1][t := w];
    } else {
      assert ws'[..|ws| - 1] == ws[..|ws| - 1];
    }
  }

  function Effort(s: State): nat { TotalWeight(s.workers, Weight) + 3 * |s.wq| }

  lemma WorkerStepEffort(s: State, a: Step, s': State)
    requires WorkerStep(a) && Next(s, a, s') && Exit in s.wq
    ensures Effort(s') < Effort(s)
  {
    match a
    case Enter(t, woken) =>
      if s.wq[0] == Exit {
        WeightUpdate(s.workers, t, Exited, Weight);
        if woken.Some? { WeightUpdate(s.workers[t := Exited], woken.value, Woken, Weight); }
      } else {
        WeightUpdate(s.workers, t, Running(s.wq[0].item), Weight);
      }
    case Spurious(t) => WeightUpdate(s.workers, t, Woken, Weight);
    case Execute(t) => WeightUpdate(s.workers, t, Ran(s.workers[t].item), Weight);
    case Return(t) => WeightUpdate(s.workers, t, Start, Weight);
    case _ =>
  }

  // After the exit message is posted, however the workers are scheduled and
  // woken, they stop after a bounded number of their own steps, and once none of
  // them can move all of them have left: cleanup's joins return.
  lemma {:induction false} CleanupJoins(run: seq<State>, steps: seq<Step>)
    requires |run| == |steps| + 1 && Inv(run[0]) && Exit in run[0].wq
    requires forall n :: 0 <= n < |steps| ==> WorkerStep(steps[n]) && Next(run[n], steps[n], run[n + 1])
    ensures |steps| + Effort(run[|steps|]) <= Effort(run[0])
    ensures Inv(run[|steps|]) && Exit in run[|steps|].wq
    ensures (forall t :: 0 <= t < |run[|steps|].workers| ==> !CanMove(run[|steps|], t)) ==>
              forall t :: 0 <= t < |run[|steps|].workers| ==> run[|steps|].workers[t] == Exited
    decreases |steps|
  {
    var m := |steps|;
    if m > 0 {
      var run0, steps0 := run[..m], steps[..m - 1];
      CleanupJoins(run0, steps0);
      assert run0[|steps0|] == run[m - 1];
      WorkerStepEffort(run[m - 1], steps[m - 1], run[m]);
      NextInv(run[m - 1], steps[m - 1], run[m]);
      ExitStays(run[m - 1], steps[m - 1], run[m]);
    }
    var s := run[m];
    if exists t :: 0 <= t < |s.workers| && Live(s.workers[t]) {
      var t :| 0 <= t < |s.workers| && Live(s.workers[t]) && s.workers[t] != Waiting;
      OnlyWaitingBlocks(s, t);
    }
  }
}
