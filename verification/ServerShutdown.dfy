/** Stopping the control server (Server/TcpControlServer.cpp) while its accept thread and its
    detached control workers keep running: a state machine over the atomic steps of the three
    kinds of thread, in every interleaving. A worker blocks on its own connection when it
    receives, and on another session's when it announces a Spawn or a Despawn to it. */
module ServerShutdown {

  // ----- threads -----

  /** The accept thread's position. */
  datatype AcceptAt =
    | CheckingRunning    // loop condition
    | Accepting          // blocked in accept
    | HoldingSocket      // second look at the flag
    | AddingSession
    | CountingWorker
    | StartingWorker
    | AcceptDone

  /** A control worker's position; NotStarted is a session whose thread does not run yet. The
      sessions still to be announced to are listed in order, the next one first. */
  datatype WorkerAt =
    | NotStarted
    | CheckingFlag                   // loop condition
    | Receiving                      // blocked in ReceiveAll
    | Handling                       // holding a complete message
    | Announcing(todo: seq<nat>)     // in the sends of a registration
    | Leaving                        // past the loop
    | Despawning(todo: seq<nat>)     // in the sends of a Despawn
    | Removing
    | Closing                        // out of the table, connection still open
    | Uncounting
    | Finished

  /** The position of the thread inside Stop. */
  datatype StopAt =
    | NotCalled
    | ClosingListener
    | TakingSnapshot
    | Sweeping(todo: set<nat>)
    | Joining
    | Waiting
    | Returned

  datatype Worker = Worker(at: WorkerAt, socketOpen: bool, registered: bool)

  /** Session n + 1 is served by workers[n]. */
  datatype State = State(running: bool, accept: AcceptAt, stop: StopAt, workers: seq<Worker>, count: int)

  const STARTED := State(true, CheckingRunning, NotCalled, [], 0)

  const NEWCOMER := Worker(NotStarted, true, false)

  /** A session is in the table until its own worker removes it. */
  predicate InTable(w: Worker) {
    w.at != Closing && w.at != Uncounting && w.at != Finished
  }

  predicate ListenerOpen(s: State) {
    s.stop == NotCalled || s.stop == ClosingListener
  }

  /** `order` is a snapshot of the table: every session in it, once. */
  predicate Lists(order: seq<nat>, ws: seq<Worker>) {
    && (forall i, j :: 0 <= i < j < |order| ==> order[i] != order[j])
    && (forall x: nat :: x in order ==> x < |ws| && InTable(ws[x]))
    && (forall x: nat :: x < |ws| && InTable(ws[x]) ==> x in order)
  }

  function Without(order: seq<nat>, n: nat): (r: seq<nat>)
    ensures |r| <= |order|
    ensures forall x: nat :: x in r ==> x in order && x != n
  {
    if order == [] then []
    else (if order[0] == n then [] else [order[0]]) + Without(order[1..], n)
  }

  /** A newcomer is told of the whole table, itself first; then all others are told of it. */
  function SpawnSends(order: seq<nat>, n: nat): (r: seq<nat>)
    ensures |r| <= 2 * |order| + 1
    ensures forall x: nat :: x in r ==> x in order || x == n
  {
    [n] + seq(|Without(order, n)|, _ => n) + Without(order, n)
  }

  datatype Step =
    // the thread in Stop
    | ClearFlag | CloseListener | Snapshot | CloseSession(n: nat) | EndSweep | Join | Return
    // the accept thread
    | AcceptCheck | AcceptSocket | AcceptFailure | AcceptConfirm | AddSession | CountWorker | StartWorker
    // worker n
    | Check(n: nat) | Message(n: nat) | ReceiveFailure(n: nat)
    | Register(n: nat, order: seq<nat>) | Revoke(n: nat) | Handled(n: nat) | Refused(n: nat)
    | SendNext(n: nat) | Announced(n: nat)
    | Despawn(n: nat, order: seq<nat>) | Despawned(n: nat)
    | Remove(n: nat) | CloseOwn(n: nat) | Uncount(n: nat)
  {
    predicate ByStop() {
      ClearFlag? || CloseListener? || Snapshot? || CloseSession? || EndSweep? || Join? || Return?
    }

    predicate ByAccept() {
      AcceptCheck? || AcceptSocket? || AcceptFailure? || AcceptConfirm? || AddSession? || CountWorker? || StartWorker?
    }

    predicate ByWorker() {
      !ByStop() && !ByAccept()
    }
  }

  // ----- what a worker's step does to it -----

  predicate WorkerEnabled(s: State, step: Step)
    requires step.ByWorker()
  {
    step.n < |s.workers| &&
    var w := s.workers[step.n];
    match step
    case Check(_) => w.at == CheckingFlag
    case Message(_) => w.at == Receiving && w.socketOpen
    case ReceiveFailure(_) => w.at == Receiving
    case Register(_, order) => w.at == Handling && Lists(order, s.workers)
    case Revoke(_) => w.at == Handling
    case Handled(_) => w.at == Handling
    case Refused(_) => w.at == Handling
    case SendNext(_) => (w.at.Announcing? || w.at.Despawning?) && w.at.todo != []
    case Announced(_) => w.at == Announcing([])
    case Despawn(_, order) => w.at == Leaving && Lists(order, s.workers)
    case Despawned(_) => w.at == Despawning([])
    case Remove(_) => w.at == Removing
    case CloseOwn(_) => w.at == Closing
    case Uncount(_) => w.at == Uncounting
  }

  /** Only a registered session is despawned. */
  function Moved(running: bool, w: Worker, step: Step): Worker
    requires step.ByWorker()
    requires step.SendNext? ==> (w.at.Announcing? || w.at.Despawning?) && w.at.todo != []
  {
    match step
    case Check(_) => w.(at := if running then Receiving else Leaving)
    case Message(_) => w.(at := Handling)
    case ReceiveFailure(_) => w.(at := Leaving)
    case Register(n, order) => w.(at := Announcing(SpawnSends(order, n)), registered := true)
    case Revoke(_) => w.(at := CheckingFlag, registered := false)
    case Handled(_) => w.(at := CheckingFlag)
    case Refused(_) => w.(at := Leaving)
    case SendNext(_) =>
      w.(at := if w.at.Announcing? then Announcing(w.at.todo[1..]) else Despawning(w.at.todo[1..]))
    case Announced(_) => w.(at := CheckingFlag)
    case Despawn(n, order) => w.(at := Despawning(if w.registered then Without(order, n) else []))
    case Despawned(_) => w.(at := Removing)
    case Remove(_) => w.(at := Closing)
    case CloseOwn(_) => w.(at := Uncounting, socketOpen := false)
    case Uncount(_) => w.(at := Finished)
  }

  // ----- steps -----

  predicate StopEnabled(s: State, step: Step)
    requires step.ByStop()
  {
    match step
    case ClearFlag => s.running && s.stop == NotCalled
    case CloseListener => s.stop == ClosingListener
    case Snapshot => s.stop == TakingSnapshot
    case CloseSession(n) => s.stop.Sweeping? && n in s.stop.todo && n < |s.workers|
    case EndSweep => s.stop == Sweeping({})
    case Join => s.stop == Joining && s.accept == AcceptDone
    case Return => s.stop == Waiting && s.count <= 0
  }

  predicate AcceptEnabled(s: State, step: Step)
    requires step.ByAccept()
  {
    match step
    case AcceptCheck => s.accept == CheckingRunning
    case AcceptSocket => s.accept == Accepting && ListenerOpen(s)
    case AcceptFailure => s.accept == Accepting
    case AcceptConfirm => s.accept == HoldingSocket
    case AddSession => s.accept == AddingSession
    case CountWorker => s.accept == CountingWorker
    case StartWorker => s.accept == StartingWorker && s.workers != []
  }

  predicate Enabled(s: State, step: Step) {
    if step.ByStop() then StopEnabled(s, step)
    else if step.ByAccept() then AcceptEnabled(s, step)
    else WorkerEnabled(s, step)
  }

  function WithWorker(s: State, n: nat, w: Worker): State
    requires n < |s.workers|
  {
    s.(workers := s.workers[n := w])
  }

  function StopTake(s: State, step: Step): State
    requires step.ByStop() && StopEnabled(s, step)
  {
    match step
    case ClearFlag => s.(running := false, stop := ClosingListener)
    case CloseListener => s.(stop := TakingSnapshot)
    case Snapshot => s.(stop := Sweeping(set n | 0 <= n < |s.workers| && InTable(s.workers[n])))
    case CloseSession(n) =>
      WithWorker(s, n, s.workers[n].(socketOpen := false)).(stop := Sweeping(s.stop.todo - {n}))
    case EndSweep => s.(stop := Joining)
    case Join => s.(stop := Waiting)
    case Return => s.(stop := Returned)
  }

  function AcceptTake(s: State, step: Step): State
    requires step.ByAccept() && AcceptEnabled(s, step)
  {
    match step
    case AcceptCheck => s.(accept := if s.running then Accepting else AcceptDone)
    case AcceptSocket => s.(accept := HoldingSocket)
    case AcceptFailure => s.(accept := CheckingRunning)
    case AcceptConfirm => s.(accept := if s.running then AddingSession else AcceptDone)
    case AddSession => s.(accept := CountingWorker, workers := s.workers + [NEWCOMER])
    case CountWorker => s.(accept := StartingWorker, count := s.count + 1)
    case StartWorker =>
      var n := |s.workers| - 1;
      WithWorker(s, n, s.workers[n].(at := CheckingFlag)).(accept := CheckingRunning)
  }

  function WorkerTake(s: State, step: Step): State
    requires step.ByWorker() && WorkerEnabled(s, step)
  {
    WithWorker(s, step.n, Moved(s.running, s.workers[step.n], step))
      .(count := if step.Uncount? then s.count - 1 else s.count)
  }

  function Take(s: State, step: Step): State
    requires Enabled(s, step)
  {
    if step.ByStop() then StopTake(s, step)
    else if step.ByAccept() then AcceptTake(s, step)
    else WorkerTake(s, step)
  }

  predicate IsOpen(s: State, n: nat) {
    n < |s.workers| && s.workers[n].socketOpen
  }

  /** Steps that need no client: nobody has to connect, send, read or hang up for them. A send
      is forced only when the recipient's connection is closed. */
  predicate Forced(s: State, step: Step)
    requires Enabled(s, step)
  {
    match step
    case ClearFlag => false
    case AcceptSocket => false
    case AcceptFailure => !ListenerOpen(s)
    case Message(_) => false
    case ReceiveFailure(n) => !IsOpen(s, n)
    case SendNext(n) => !IsOpen(s, s.workers[n].at.todo[0])
    case _ => true
  }

  // ----- sums over the workers -----

  ghost function Sum(ws: seq<Worker>, f: WorkerAt -> nat): nat {
    if ws == [] then 0 else Sum(ws[..|ws| - 1], f) + f(ws[|ws| - 1].at)
  }

  lemma {:induction false} SumUpdate(ws: seq<Worker>, n: nat, w: Worker, f: WorkerAt -> nat)
    requires n < |ws|
    ensures Sum(ws[n := w], f) == Sum(ws, f) - f(ws[n].at) + f(w.at)
    decreases |ws|
  {
    var last := |ws| - 1;
    if n == last {
      assert ws[n := w][..last] == ws[..last];
    } else {
      assert ws[n := w][..last] == ws[..last][n := w];
      SumUpdate(ws[..last], n, w, f);
    }
  }

  lemma SumAppend(ws: seq<Worker>, w: Worker, f: WorkerAt -> nat)
    ensures Sum(ws + [w], f) == Sum(ws, f) + f(w.at)
  {
    assert (ws + [w])[..|ws|] == ws;
  }

  lemma {:induction false} SumZero(ws: seq<Worker>, f: WorkerAt -> nat)
    requires Sum(ws, f) == 0
    ensures forall n :: 0 <= n < |ws| ==> f(ws[n].at) == 0
  {
    if ws != [] {
      SumZero(ws[..|ws| - 1], f);
      forall n | 0 <= n < |ws|
        ensures f(ws[n].at) == 0
      {
        if n < |ws| - 1 {
          assert ws[..|ws| - 1][n] == ws[n];
        }
      }
    }
  }

  /** A worker the counter includes: its thread runs and has not finished. */
  function IsActive(at: WorkerAt): nat {
    if at == NotStarted || at == Finished then 0 else 1
  }

  // ----- what every reachable state keeps -----

  /** The counter is the number of workers started, or about to start, and not finished. */
  ghost predicate CountExact(s: State) {
    s.count == Sum(s.workers, IsActive) + if s.accept == StartingWorker then 1 else 0
  }

  /** Stop has taken its snapshot and will not (or no longer) close this session. */
  predicate Spared(stop: StopAt, n: nat) {
    match stop
    case Sweeping(todo) => n !in todo
    case Joining => true
    case Waiting => true
    case Returned => true
    case _ => false
  }

  /** A worker that will close its own connection without waiting for anybody: it came too late
      to be registered and has nothing to send, or it is about to close. */
  predicate ClosesItself(w: Worker) {
    w.at == Closing ||
    (!w.registered &&
     (w.at == NotStarted || w.at == CheckingFlag || w.at == Leaving || w.at == Despawning([]) || w.at == Removing))
  }

  predicate BeingStarted(accept: AcceptAt) {
    accept == CountingWorker || accept == StartingWorker
  }

  /** What holds of worker n among `total`. */
  predicate Fits(accept: AcceptAt, stop: StopAt, total: nat, n: nat, w: Worker) {
    && (w.at == NotStarted <==> n == total - 1 && BeingStarted(accept))
    && (w.at == Uncounting || w.at == Finished ==> !w.socketOpen)
    && (w.at.Announcing? || w.at.Despawning? ==> forall x: nat :: x in w.at.todo ==> x < total)
    && (w.at.Announcing? ==> w.registered)
    && (Spared(stop, n) && w.socketOpen ==> ClosesItself(w))
  }

  ghost predicate AllFit(s: State) {
    forall n :: 0 <= n < |s.workers| ==> Fits(s.accept, s.stop, |s.workers|, n, s.workers[n])
  }

  ghost predicate Structured(s: State) {
    && (s.running <==> s.stop == NotCalled)
    && (s.stop.Sweeping? ==> forall n :: n in s.stop.todo ==> n < |s.workers|)
    && (s.stop == Waiting || s.stop == Returned ==> s.accept == AcceptDone)
    && (s.stop == Returned ==> s.count == 0)
    && (BeingStarted(s.accept) ==> s.workers != [])
  }

  ghost predicate Inv(s: State) {
    Structured(s) && AllFit(s) && CountExact(s)
  }

  lemma CountStep(s: State, step: Step)
    requires Inv(s) && Enabled(s, step)
    ensures CountExact(Take(s, step))
  {
    if step.StartWorker? {
      var n := |s.workers| - 1;
      assert Fits(s.accept, s.stop, |s.workers|, n, s.workers[n]);
    }
    hide AllFit, Fits, StopTake, AcceptTake, WorkerTake, WorkerEnabled, CountExact;
    if step.ByWorker() {
      WorkerCount(s, step);
    } else if step.ByAccept() {
      AcceptCount(s, step);
    } else {
      StopCount(s, step);
    }
  }

  lemma WorkerCount(s: State, step: Step)
    requires step.ByWorker() && WorkerEnabled(s, step) && CountExact(s)
    ensures CountExact(WorkerTake(s, step))
  {
    hide SpawnSends, Without, Lists;
    var w := Moved(s.running, s.workers[step.n], step);
    assert IsActive(w.at) == IsActive(s.workers[step.n].at) - if step.Uncount? then 1 else 0;
    SumUpdate(s.workers, step.n, w, IsActive);
  }

  lemma AcceptCount(s: State, step: Step)
    requires step.ByAccept() && AcceptEnabled(s, step) && CountExact(s)
    requires step.StartWorker? ==> s.workers[|s.workers| - 1].at == NotStarted
    ensures CountExact(AcceptTake(s, step))
  {
    if step.AddSession? {
      SumAppend(s.workers, NEWCOMER, IsActive);
    } else if step.StartWorker? {
      var n := |s.workers| - 1;
      SumUpdate(s.workers, n, s.workers[n].(at := CheckingFlag), IsActive);
    }
  }

  lemma StopCount(s: State, step: Step)
    requires step.ByStop() && StopEnabled(s, step) && CountExact(s)
    ensures CountExact(StopTake(s, step))
  {
    if step.CloseSession? {
      SumUpdate(s.workers, step.n, s.workers[step.n].(socketOpen := false), IsActive);
    }
  }

  lemma StructureStep(s: State, step: Step)
    requires Inv(s) && Enabled(s, step)
    ensures Structured(Take(s, step))
  {
    hide AllFit, CountExact, WorkerTake, StopTake, AcceptTake, Structured;
    if step.ByWorker() {
      WorkerStructure(s, step);
    } else if step.ByAccept() {
      AcceptStructure(s, step);
    } else {
      StopStructure(s, step);
    }
  }

  lemma WorkerStructure(s: State, step: Step)
    requires Structured(s) && CountExact(s) && step.ByWorker() && WorkerEnabled(s, step)
    ensures Structured(WorkerTake(s, step))
  {
    hide CountExact, Moved;
    if s.stop == Returned {
      NoneIsActive(s, step.n);
    }
  }

  lemma AcceptStructure(s: State, step: Step)
    requires Structured(s) && step.ByAccept() && AcceptEnabled(s, step)
    ensures Structured(AcceptTake(s, step))
  {
  }

  lemma StopStructure(s: State, step: Step)
    requires Structured(s) && CountExact(s) && step.ByStop() && StopEnabled(s, step)
    ensures Structured(StopTake(s, step))
  {
  }

  /** When Stop has returned no worker is active any more. */
  lemma NoneIsActive(s: State, n: nat)
    requires Structured(s) && CountExact(s) && s.stop == Returned && n < |s.workers|
    ensures IsActive(s.workers[n].at) == 0
  {
    SumZero(s.workers, IsActive);
  }

  /** A worker's own step keeps its account in order. */
  lemma WorkerFits(s: State, step: Step)
    requires Structured(s) && AllFit(s) && step.ByWorker() && Enabled(s, step)
    ensures Fits(s.accept, s.stop, |s.workers|, step.n, Moved(s.running, s.workers[step.n], step))
  {
    var w := s.workers[step.n];
    assert Fits(s.accept, s.stop, |s.workers|, step.n, w);
    if step.SendNext? {
      assert forall x: nat :: x in w.at.todo[1..] ==> x in w.at.todo;
    }
  }

  lemma FitStep(s: State, step: Step)
    requires Inv(s) && Enabled(s, step)
    ensures AllFit(Take(s, step))
  {
    hide CountExact, AcceptTake, StopTake;
    if step.ByWorker() {
      WorkerFits(s, step);
      hide Fits, Moved;
    } else if step.ByAccept() {
      AcceptFits(s, step);
    } else {
      StopFits(s, step);
    }
  }

  lemma AcceptFits(s: State, step: Step)
    requires Structured(s) && AllFit(s) && step.ByAccept() && AcceptEnabled(s, step)
    ensures AllFit(AcceptTake(s, step))
  {
    var s' := AcceptTake(s, step);
    forall n | 0 <= n < |s'.workers|
      ensures Fits(s'.accept, s'.stop, |s'.workers|, n, s'.workers[n])
    {
      if n < |s.workers| {
        assert Fits(s.accept, s.stop, |s.workers|, n, s.workers[n]);
      }
    }
  }

  lemma StopFits(s: State, step: Step)
    requires Structured(s) && AllFit(s) && step.ByStop() && StopEnabled(s, step)
    ensures AllFit(StopTake(s, step))
  {
    var s' := StopTake(s, step);
    forall n | 0 <= n < |s'.workers|
      ensures Fits(s'.accept, s'.stop, |s'.workers|, n, s'.workers[n])
    {
      assert Fits(s.accept, s.stop, |s.workers|, n, s.workers[n]);
    }
  }

  /** Every step of every thread keeps the invariant. */
  lemma StepKeepsInv(s: State, step: Step)
    requires Inv(s) && Enabled(s, step)
    ensures Inv(Take(s, step))
  {
    hide Structured, CountExact, AllFit, Take, Enabled;
    CountStep(s, step);
    StructureStep(s, step);
    FitStep(s, step);
  }

  /** The session on whose connection a worker waits, in a receive or in a send. */
  predicate WaitsOn(s: State, n: nat, m: nat) {
    n < |s.workers| &&
    var at := s.workers[n].at;
    if at == Receiving then m == n
    else (at.Announcing? || at.Despawning?) && at.todo != [] && m == at.todo[0]
  }

  /** Once the sweep is over no worker waits on a connection that stays open: it is closed, or it
      is that of a session whose own worker is on its way to close it, waiting for nobody. And no
      worker still waits for a message on an open connection at all. */
  lemma SweepUnblocksEveryone(s: State, n: nat, m: nat)
    requires Inv(s) && (s.stop == Joining || s.stop == Waiting || s.stop == Returned)
    requires WaitsOn(s, n, m)
    ensures m < |s.workers|
    ensures s.workers[m].socketOpen ==> m != n && ClosesItself(s.workers[m]) && forall k :: !WaitsOn(s, m, k)
  {
    assert Fits(s.accept, s.stop, |s.workers|, n, s.workers[n]);
    assert s.workers[n].at != Receiving ==> s.workers[n].at.todo[0] in s.workers[n].at.todo;
    assert Fits(s.accept, s.stop, |s.workers|, m, s.workers[m]);
  }

  // ----- progress -----

  function Table(ws: seq<Worker>, n: nat): (order: seq<nat>)
    requires n <= |ws|
    ensures forall x: nat :: x in order <==> x < n && InTable(ws[x])
  {
    if n == 0 then []
    else Table(ws, n - 1) + if InTable(ws[n - 1]) then [n - 1] else []
  }

  lemma {:induction false} TableIsSorted(ws: seq<Worker>, n: nat)
    requires n <= |ws|
    ensures forall i, j :: 0 <= i < j < |Table(ws, n)| ==> Table(ws, n)[i] < Table(ws, n)[j]
  {
    if n > 0 {
      TableIsSorted(ws, n - 1);
      var p := Table(ws, n - 1);
      assert forall i :: 0 <= i < |p| ==> p[i] in p;
    }
  }

  lemma TableLists(ws: seq<Worker>)
    ensures Lists(Table(ws, |ws|), ws)
  {
    TableIsSorted(ws, |ws|);
  }

  /** A step of a worker that waits for nobody. */
  function OwnStep(ws: seq<Worker>, n: nat): Step
    requires n < |ws|
  {
    match ws[n].at
    case CheckingFlag => Check(n)
    case Receiving => ReceiveFailure(n)
    case Handling => Handled(n)
    case Announcing(todo) => if todo == [] then Announced(n) else SendNext(n)
    case Leaving => Despawn(n, Table(ws, |ws|))
    case Despawning(todo) => if todo == [] then Despawned(n) else SendNext(n)
    case Removing => Remove(n)
    case Closing => CloseOwn(n)
    case _ => Uncount(n)
  }

  lemma OwnStepEnabled(s: State, n: nat)
    requires n < |s.workers| && IsActive(s.workers[n].at) == 1
    ensures Enabled(s, OwnStep(s.workers, n)) && OwnStep(s.workers, n).ByWorker()
    ensures (forall m :: WaitsOn(s, n, m) ==> !IsOpen(s, m)) ==> Forced(s, OwnStep(s.workers, n))
  {
    TableLists(s.workers);
    hide Lists, Table;
    var at := s.workers[n].at;
    if at == Receiving {
      assert WaitsOn(s, n, n);
    } else if (at.Announcing? || at.Despawning?) && at.todo != [] {
      assert WaitsOn(s, n, at.todo[0]);
    }
  }

  /** With the accept thread gone, an active worker can move, or the one it waits on can. */
  lemma SomeWorkerCanMove(s: State, n: nat) returns (step: Step)
    requires Inv(s) && s.stop == Waiting && n < |s.workers| && IsActive(s.workers[n].at) == 1
    ensures Enabled(s, step) && Forced(s, step)
  {
    hide OwnStep, Forced, Enabled, Fits, CountExact, ClosesItself, IsActive;
    OwnStepEnabled(s, n);
    step := OwnStep(s.workers, n);
    if m :| WaitsOn(s, n, m) && IsOpen(s, m) {
      SweepUnblocksEveryone(s, n, m);
      CloserIsActive(s, m);
      OwnStepEnabled(s, m);
      step := OwnStep(s.workers, m);
    }
  }

  lemma CloserIsActive(s: State, m: nat)
    requires Inv(s) && s.stop == Waiting && m < |s.workers| && ClosesItself(s.workers[m])
    ensures IsActive(s.workers[m].at) == 1
  {
    assert Fits(s.accept, s.stop, |s.workers|, m, s.workers[m]);
  }

  /** While Stop has not returned, some thread can move without any client's help. */
  lemma SomeoneCanMove(s: State) returns (step: Step)
    requires Inv(s) && !s.running && s.stop != Returned
    ensures Enabled(s, step) && Forced(s, step)
  {
    match s.stop
    case ClosingListener => step := CloseListener;
    case TakingSnapshot => step := Snapshot;
    case Sweeping(todo) =>
      if todo == {} {
        step := EndSweep;
      } else {
        var n :| n in todo;
        step := CloseSession(n);
      }
    case Joining =>
      step := match s.accept
        case CheckingRunning => AcceptCheck
        case Accepting => AcceptFailure
        case HoldingSocket => AcceptConfirm
        case AddingSession => AddSession
        case CountingWorker => CountWorker
        case StartingWorker => StartWorker
        case AcceptDone => Join;
    case Waiting =>
      if s.count <= 0 {
        step := Return;
      } else {
        var n := ActiveWorker(s.workers);
        step := SomeWorkerCanMove(s, n);
      }
  }

  lemma {:induction false} ActiveWorker(ws: seq<Worker>) returns (n: nat)
    requires Sum(ws, IsActive) > 0
    ensures n < |ws| && IsActive(ws[n].at) == 1
  {
    if IsActive(ws[|ws| - 1].at) == 1 {
      n := |ws| - 1;
    } else {
      n := ActiveWorker(ws[..|ws| - 1]);
    }
  }

  // ----- termination -----

  /** How many sessions there can be at most once the flag is cleared: one more can be added. */
  function Bound(s: State): nat {
    |s.workers| + if s.accept == AddingSession then 1 else 0
  }

  /** How many more steps a worker can take once the flag is cleared, with at most b sessions. */
  function WorkerRank(at: WorkerAt, b: nat): nat {
    match at
    case NotStarted => 7 + b
    case Receiving => 10 + 3 * b
    case Handling => 9 + 3 * b
    case Announcing(todo) => 7 + b + |todo|
    case CheckingFlag => 6 + b
    case Leaving => 5 + b
    case Despawning(todo) => 4 + |todo|
    case Removing => 3
    case Closing => 2
    case Uncounting => 1
    case Finished => 0
  }

  function Weight(b: nat): WorkerAt -> nat {
    at => WorkerRank(at, b)
  }

  function AcceptRank(at: AcceptAt, b: nat): nat {
    match at
    case AddingSession => 11 + b
    case CountingWorker => 3
    case StartingWorker => 2
    case Accepting => 3
    case HoldingSocket => 2
    case CheckingRunning => 1
    case AcceptDone => 0
  }

  function StopRank(s: State): nat {
    match s.stop
    case NotCalled => 6 + Bound(s)
    case ClosingListener => 5 + Bound(s)
    case TakingSnapshot => 4 + Bound(s)
    case Sweeping(todo) => 3 + |todo|
    case Joining => 2
    case Waiting => 1
    case Returned => 0
  }

  ghost function Rank(s: State): nat {
    AcceptRank(s.accept, Bound(s)) + StopRank(s) + Sum(s.workers, Weight(Bound(s)))
  }

  lemma {:induction false} IndexSetSize(n: nat, todo: set<nat>)
    requires forall i :: i in todo ==> i < n
    ensures |todo| <= n
  {
    if n > 0 {
      IndexSetSize(n - 1, todo - {n - 1});
    } else {
      assert todo == {};
    }
  }

  lemma {:induction false} DistinctLength(order: seq<nat>)
    requires forall i, j :: 0 <= i < j < |order| ==> order[i] != order[j]
    ensures |set x: nat | x in order| == |order|
  {
    if order != [] {
      var p, last := order[..|order| - 1], order[|order| - 1];
      DistinctLength(p);
      assert last !in p;
      assert (set x: nat | x in order) == (set x: nat | x in p) + {last} by {
        assert order == p + [last];
      }
    }
  }

  /** A snapshot of the table lists at most as many sessions as there are. */
  lemma ListingIsShort(order: seq<nat>, ws: seq<Worker>)
    requires Lists(order, ws)
    ensures |order| <= |ws|
  {
    DistinctLength(order);
    IndexSetSize(|ws|, set x: nat | x in order);
  }

  lemma WorkerRankDrops(s: State, step: Step)
    requires !s.running && step.ByWorker() && WorkerEnabled(s, step)
    ensures WorkerRank(Moved(false, s.workers[step.n], step).at, Bound(s)) < WorkerRank(s.workers[step.n].at, Bound(s))
  {
    if step.Register? || step.Despawn? {
      ListingIsShort(step.order, s.workers);
    }
    hide Lists;
  }

  lemma WorkerStepDescends(s: State, step: Step)
    requires !s.running && step.ByWorker() && WorkerEnabled(s, step)
    ensures Rank(WorkerTake(s, step)) < Rank(s)
  {
    WorkerRankDrops(s, step);
    assert step.n < |s.workers|;
    hide Moved, WorkerRank, WorkerEnabled, AcceptRank, Sum, Lists;
    var w := Moved(s.running, s.workers[step.n], step);
    SumUpdate(s.workers, step.n, w, Weight(Bound(s)));
    var s' := WorkerTake(s, step);
    assert s'.workers == s.workers[step.n := w];
    assert Bound(s') == Bound(s) && s'.accept == s.accept;
    assert StopRank(s') == StopRank(s);
  }

  lemma AcceptStepDescends(s: State, step: Step)
    requires AllFit(s) && !s.running && step.ByAccept() && AcceptEnabled(s, step)
    ensures Rank(AcceptTake(s, step)) < Rank(s)
  {
    if step.AddSession? {
      SumAppend(s.workers, NEWCOMER, Weight(Bound(s)));
    } else if step.StartWorker? {
      var n := |s.workers| - 1;
      assert Fits(s.accept, s.stop, |s.workers|, n, s.workers[n]);
      SumUpdate(s.workers, n, s.workers[n].(at := CheckingFlag), Weight(Bound(s)));
    }
    hide AllFit, Fits, Sum;
    assert Bound(AcceptTake(s, step)) == Bound(s);
  }

  lemma StopStepDescends(s: State, step: Step)
    requires !s.running && step.ByStop() && StopEnabled(s, step)
    ensures Rank(StopTake(s, step)) < Rank(s)
  {
    var s' := StopTake(s, step);
    StopRankDrops(s, step);
    if step.CloseSession? {
      SumUpdate(s.workers, step.n, s.workers[step.n].(socketOpen := false), Weight(Bound(s)));
    }
    hide StopRank, WorkerRank, AcceptRank;
    assert Bound(s') == Bound(s) && s'.accept == s.accept;
  }

  lemma StopRankDrops(s: State, step: Step)
    requires !s.running && step.ByStop() && StopEnabled(s, step)
    ensures StopRank(StopTake(s, step)) < StopRank(s)
  {
    if step.Snapshot? {
      IndexSetSize(|s.workers|, StopTake(s, step).stop.todo);
    }
  }

  /** Once Stop has cleared the flag every step of every thread, client-driven ones included,
      lowers the rank. */
  lemma EveryStepDescends(s: State, step: Step)
    requires Inv(s) && !s.running && Enabled(s, step)
    ensures Rank(Take(s, step)) < Rank(s)
  {
    hide Rank, WorkerTake, AcceptTake, StopTake, AllFit, CountExact;
    if step.ByWorker() {
      WorkerStepDescends(s, step);
    } else if step.ByAccept() {
      AcceptStepDescends(s, step);
    } else {
      StopStepDescends(s, step);
    }
  }

  // ----- whole runs -----

  ghost predicate RunsTo(s: State, steps: seq<Step>, s': State)
    decreases steps
  {
    if steps == [] then s == s'
    else Enabled(s, steps[0]) && RunsTo(Take(s, steps[0]), steps[1..], s')
  }

  lemma {:induction false} RunKeepsInv(s: State, steps: seq<Step>, s': State)
    requires Inv(s) && RunsTo(s, steps, s')
    ensures Inv(s')
    ensures !s.running ==> !s'.running
    decreases steps
  {
    hide Inv;
    if steps != [] {
      StepKeepsInv(s, steps[0]);
      RunKeepsInv(Take(s, steps[0]), steps[1..], s');
    }
  }

  /** No schedule can keep a stopping server busy for more than Rank steps. */
  lemma {:induction false} StoppingRunsAreShort(s: State, steps: seq<Step>, s': State)
    requires Inv(s) && !s.running && RunsTo(s, steps, s')
    ensures |steps| + Rank(s') <= Rank(s)
    decreases steps
  {
    hide Inv, Rank;
    if steps != [] {
      StepKeepsInv(s, steps[0]);
      EveryStepDescends(s, steps[0]);
      StoppingRunsAreShort(Take(s, steps[0]), steps[1..], s');
    }
  }

  ghost predicate Stuck(s: State) {
    forall step :: Enabled(s, step) ==> !Forced(s, step)
  }

  lemma StartIsSound()
    ensures Inv(STARTED)
  {
  }

  /** From start-up through any run in which Stop is called: however the threads interleave and
      whether clients read, write, hang up or do nothing at all, the steps after the call are
      bounded, and when no thread can move on its own Stop has returned with the counter at zero
      and every worker finished. */
  lemma {:induction false} ShutdownCompletes(before: seq<Step>, s: State, after: seq<Step>, s': State)
    requires RunsTo(STARTED, before, s) && !s.running && RunsTo(s, after, s')
    ensures |after| <= Rank(s)
    ensures Stuck(s') ==>
              s'.stop == Returned && s'.count == 0 && s'.accept == AcceptDone &&
              forall n :: 0 <= n < |s'.workers| ==> s'.workers[n].at == Finished
  {
    StartIsSound();
    RunKeepsInv(STARTED, before, s);
    RunKeepsInv(s, after, s');
    StoppingRunsAreShort(s, after, s');
    hide Rank, RunsTo;
    if Stuck(s') {
      if s'.stop != Returned {
        var step := SomeoneCanMove(s');
      }
      AllFinished(s');
    }
  }

  lemma AllFinished(s: State)
    requires Inv(s) && s.stop == Returned
    ensures forall n :: 0 <= n < |s.workers| ==> s.workers[n].at == Finished
  {
    forall n | 0 <= n < |s.workers|
      ensures s.workers[n].at == Finished
    {
      NoneIsActive(s, n);
      assert Fits(s.accept, s.stop, |s.workers|, n, s.workers[n]);
    }
  }
}
