// The command queue of AuthorDriver (authordriver.cpp).  Client threads append
// commands and wait on one semaphore; the author thread, an active object of
// the scheduler (oscl_scheduler_ao.cpp, oscl_scheduler_readyq.cpp), takes them
// out one at a time and either finishes them or hands them to the engine.
// Each step is what one thread does between two points where another can
// interfere.
module AuthorDriver {
  import opened Counting

  const OK: int := 0
  const NO_INIT: int := -19
  const UNKNOWN_ERROR: int := -0x8000_0000

  // The engine's own codes.
  const PVMF_SUCCESS: int := 1
  const PVMF_PENDING: int := 0

  // signals: the completion function is SyncCompletion, which the driver puts
  // in when the client gives none.
  datatype Command = Command(id: nat, quit: bool, signals: bool)

  datatype Done = Done(command: Command, status: int)

  // A client between calls, in its wait, or past it and about to read the status.
  datatype Client = Free | Waiting(command: Command) | Awake(command: Command)

  // The request of the active object.  Broken: the scheduler refused a call.
  datatype Request = Idle | Pending | Ready | Broken

  datatype Phase = Asleep | Picked | Handling(command: Command) | Stopping | Stopped

  datatype State = State(
    queue: seq<Command>,        // commandQueue, front first
    request: Request,
    phase: Phase,
    engine: seq<Command>,       // accepted, not answered yet
    sem: nat,                   // count of mSyncSem
    syncStatus: int,            // mSyncStatus
    clients: seq<Client>,
    // history
    arrived: seq<Command>,
    taken: seq<Command>,
    done: seq<Done>,
    quits: seq<Command>,
    replies: seq<Done>,
    wakes: nat)

  datatype Outcome = Finish | Fail | Accept

  datatype Action =
    | Enqueue(client: nat, command: Command)
    | Pick
    | Dequeue
    | Handle(outcome: Outcome)
    | EngineAnswers(i: nat, response: int)
    | Exit
    | Wake(client: nat)
    | Return(client: nat)

  function Start(clients: nat): State
  {
    State([], Pending, Asleep, [], 0, OK, seq(clients, i => Free), [], [], [], [], [], 0)
  }

  function PendComplete(r: Request): Request
  {
    if r.Pending? then Ready else Broken
  }

  function PendForExec(r: Request): Request
  {
    if r.Idle? then Pending else Broken
  }

  function RunIfNotReady(r: Request): Request
  {
    if r.Idle? then PendComplete(PendForExec(r)) else r
  }

  // The command's completion function is called and the command deleted.
  function Completed(s: State, c: Command, status: int): State
  {
    var t := s.(done := s.done + [Done(c, status)]);
    if c.signals then t.(sem := s.sem + 1, syncStatus := status) else t
  }

  // The engine's success is the client's OK; any other code goes through as it is.
  function Translated(response: int): int
  {
    if response == PVMF_SUCCESS then OK else response
  }

  // One step of one thread; None when that step cannot happen now.
  function Step(s: State, a: Action): Option<State>
  {
    match a
    case Enqueue(i, c) =>
      if !(i < |s.clients| && s.clients[i].Free? && c !in s.arrived) then None
      else if s.phase.Stopped? then Some(s.(replies := s.replies + [Done(c, NO_INIT)]))
      else
        Some(s.(queue := [c] + s.queue, arrived := s.arrived + [c], clients := s.clients[i := Waiting(c)],
                request := if s.queue == [] then PendComplete(s.request) else s.request))
    case Pick =>
      if !(s.phase.Asleep? && s.request.Ready?) then None
      else Some(s.(phase := Picked, request := Idle))
    case Dequeue =>
      if !s.phase.Picked? then None
      else if s.queue == [] then Some(s.(request := Broken, phase := Asleep))
      else
        var c, rest := s.queue[|s.queue| - 1], s.queue[..|s.queue| - 1];
        Some(s.(queue := rest, taken := s.taken + [c], phase := Handling(c),
                request := if rest == [] then PendForExec(s.request) else RunIfNotReady(s.request)))
    case Handle(outcome) =>
      if !s.phase.Handling? then None
      else
        var c, t := s.phase.command, s.(phase := Asleep);
        if c.quit then Some(s.(phase := Stopping, quits := s.quits + [c]))
        else if outcome.Accept? then Some(t.(engine := s.engine + [c]))
        else Some(Completed(t, c, if outcome.Fail? then UNKNOWN_ERROR else OK))
    case EngineAnswers(i, response) =>
      if !(s.phase.Asleep? && i < |s.engine| && response != PVMF_PENDING) then None
      else Some(Completed(s.(engine := s.engine[..i] + s.engine[i + 1..]), s.engine[i], Translated(response)))
    case Exit =>
      if !s.phase.Stopping? then None
      else Some(s.(phase := Stopped, sem := s.sem + 1, syncStatus := OK))
    case Wake(i) =>
      if !(i < |s.clients| && s.clients[i].Waiting? && s.sem > 0) then None
      else Some(s.(sem := s.sem - 1, wakes := s.wakes + 1, clients := s.clients[i := Awake(s.clients[i].command)]))
    case Return(i) =>
      if !(i < |s.clients| && s.clients[i].Awake?) then None
      else
        var c := s.clients[i].command;
        Some(s.(clients := s.clients[i := Free], replies := s.replies + [Done(c, if c.quit then OK else s.syncStatus)]))
  }

  function Run(s: State, actions: seq<Action>): Option<State>
    decreases |actions|
  {
    if actions == [] then Some(s) else
      var t := Step(s, actions[0]);
      if t.None? then None else Run(t.value, actions[1..])
  }

  // ------------------------------------------------------------ wake-ups

  // No command waits while the active object sleeps, no step of the
  // scheduler's protocol is refused, and the author thread never finds the
  // queue empty.
  predicate NoLostWakeUp(s: State)
  {
    if s.phase.Picked? then s.request.Idle? && s.queue != []
    else s.request == if s.queue == [] then Pending else Ready
  }

  lemma StepKeepsWakeUp(s: State, a: Action)
    requires NoLostWakeUp(s) && Step(s, a).Some?
    ensures NoLostWakeUp(Step(s, a).value)
  {}

  // ------------------------------------------------- first in, first out

  function Reverse(q: seq<Command>): (r: seq<Command>)
    ensures |r| == |q|
  {
    if q == [] then [] else Reverse(q[1..]) + [q[0]]
  }

  lemma {:induction false} ReverseFront(q: seq<Command>)
    requires q != []
    ensures Reverse(q) == [q[|q| - 1]] + Reverse(q[..|q| - 1])
  {
    if |q| > 1 {
      ReverseFront(q[1..]);
      assert q[1..][..|q| - 2] == q[..|q| - 1][1..];
    }
  }

  lemma ReversePush(c: Command, q: seq<Command>)
    ensures Reverse([c] + q) == Reverse(q) + [c]
  {
    assert ([c] + q)[1..] == q;
  }

  predicate Fifo(s: State)
  {
    s.arrived == s.taken + Reverse(s.queue)
  }

  lemma StepKeepsFifo(s: State, a: Action)
    requires Fifo(s) && Step(s, a).Some?
    ensures Fifo(Step(s, a).value)
  {
    if a.Enqueue? && !s.phase.Stopped? { ReversePush(a.command, s.queue); }
    if a.Dequeue? && s.queue != [] { ReverseFront(s.queue); }
    hide Reverse;
  }

  // --------------------------------------------------- each command once

  function Commands(d: seq<Done>): (r: seq<Command>)
    ensures |r| == |d|
  {
    if d == [] then [] else Commands(d[..|d| - 1]) + [d[|d| - 1].command]
  }

  lemma CommandsPush(d: seq<Done>, e: Done)
    ensures Commands(d + [e]) == Commands(d) + [e.command]
  {
    assert (d + [e])[..|d|] == d;
  }

  // Where a command that was taken out of the queue can be.
  function Places(s: State, c: Command): nat
  {
    (if s.phase == Handling(c) then 1 else 0) + Count(s.engine, c) + Count(Commands(s.done), c) + Count(s.quits, c)
  }

  // Each command taken from the queue is in one place, no command came twice.
  ghost predicate Once(s: State)
  {
    && (forall c :: Placed(s, c))
    && (forall c :: Count(s.arrived, c) <= 1)
  }

  lemma EnqueueKeepsOnce(s: State, c: Command)
    requires (forall d :: Count(s.arrived, d) <= 1) && c !in s.arrived
    ensures forall d :: Count(s.arrived + [c], d) <= 1
  {
    forall d ensures Count(s.arrived + [c], d) <= 1 {
      CountAppend(s.arrived, [c], d);
      CountOne(c, d);
      CountAbsent(s.arrived, c);
    }
  }

  lemma CompletedPlaces(s: State, c: Command, status: int, d: Command)
    ensures Places(Completed(s, c, status), d) == Places(s, d) + if c == d then 1 else 0
  {
    CommandsPush(s.done, Done(c, status));
    CountPush(Commands(s.done), c, d);
    hide Count, Commands;
  }

  ghost predicate Placed(s: State, d: Command)
  {
    Count(s.taken, d) == Places(s, d)
  }

  lemma DequeuePlaces(s: State, d: Command)
    requires s.phase.Picked? && Placed(s, d)
    ensures Placed(Step(s, Dequeue).value, d)
  {
    if s.queue != [] { CountPush(s.taken, s.queue[|s.queue| - 1], d); }
    hide Count, Commands;
  }

  lemma HandlePlaces(s: State, outcome: Outcome, d: Command)
    requires s.phase.Handling? && Placed(s, d)
    ensures Placed(Step(s, Handle(outcome)).value, d)
  {
    hide Count, Commands;
    var c, t := s.phase.command, s.(phase := Asleep);
    if c.quit { CountPush(s.quits, c, d); }
    else if outcome.Accept? { CountPush(s.engine, c, d); }
    else {
      assert Places(s, d) == Places(t, d) + if c == d then 1 else 0;
      hide Places;
      CompletedPlaces(t, c, if outcome.Fail? then UNKNOWN_ERROR else OK, d);
    }
  }

  lemma AnswerPlaces(s: State, i: nat, response: int, d: Command)
    requires Step(s, EngineAnswers(i, response)).Some? && Placed(s, d)
    ensures Placed(Step(s, EngineAnswers(i, response)).value, d)
  {
    CountMinus(s.engine, i, d);
    CompletedPlaces(s.(engine := s.engine[..i] + s.engine[i + 1..]), s.engine[i], Translated(response), d);
    hide Count, Commands;
  }

  lemma StepPlaces(s: State, a: Action, d: Command)
    requires Step(s, a).Some? && Placed(s, d)
    ensures Placed(Step(s, a).value, d)
  {
    if a.Dequeue? { DequeuePlaces(s, d); }
    else if a.Handle? { HandlePlaces(s, a.outcome, d); }
    else if a.EngineAnswers? { AnswerPlaces(s, a.i, a.response, d); }
    else { hide Count, Commands; }
  }

  lemma StepKeepsOnce(s: State, a: Action)
    requires Once(s) && Step(s, a).Some?
    ensures Once(Step(s, a).value)
  {
    forall d ensures Placed(Step(s, a).value, d) { StepPlaces(s, a, d); }
    if a.Enqueue? && !s.phase.Stopped? { EnqueueKeepsOnce(s, a.command); }
    hide Count, Placed;
  }

  // Only a quit ends in quits, and a quit ends nowhere else.
  ghost predicate QuitsApart(s: State)
  {
    && (forall c :: c in s.quits ==> c.quit)
    && (forall c :: c in s.engine ==> !c.quit)
    && (forall e :: e in s.done ==> !e.command.quit)
  }

  lemma StepKeepsQuits(s: State, a: Action)
    requires QuitsApart(s) && Step(s, a).Some?
    ensures QuitsApart(Step(s, a).value)
  {}

  // ------------------------------------------------------ the semaphore

  function Signals(d: seq<Done>): nat
  {
    if d == [] then 0 else Signals(d[..|d| - 1]) + if d[|d| - 1].command.signals then 1 else 0
  }

  // Every signal is one synchronous completion, or the end of the thread, and
  // lets one client go on.
  predicate SignalsPaired(s: State)
  {
    s.sem + s.wakes == Signals(s.done) + if s.phase.Stopped? then 1 else 0
  }

  lemma CompletedPaired(s: State, c: Command, status: int)
    requires SignalsPaired(s)
    ensures SignalsPaired(Completed(s, c, status))
  {
    assert (s.done + [Done(c, status)])[..|s.done|] == s.done;
  }

  lemma HandlePaired(s: State, outcome: Outcome)
    requires SignalsPaired(s) && s.phase.Handling?
    ensures SignalsPaired(Step(s, Handle(outcome)).value)
  {
    CompletedPaired(s.(phase := Asleep), s.phase.command, if outcome.Fail? then UNKNOWN_ERROR else OK);
    hide Signals, Completed;
  }

  lemma StepKeepsSignals(s: State, a: Action)
    requires SignalsPaired(s) && Step(s, a).Some?
    ensures SignalsPaired(Step(s, a).value)
  {
    if a.Handle? { HandlePaired(s, a.outcome); }
    if a.EngineAnswers? {
      CompletedPaired(s.(engine := s.engine[..a.i] + s.engine[a.i + 1..]), s.engine[a.i], Translated(a.response));
    }
    hide Signals, Completed;
  }

  // ------------------------------------------------------------ whole runs

  ghost predicate Inv(s: State)
  {
    NoLostWakeUp(s) && Fifo(s) && Once(s) && QuitsApart(s) && SignalsPaired(s)
  }

  lemma {:induction false} RunKeepsInv(s: State, actions: seq<Action>)
    requires Inv(s) && Run(s, actions).Some?
    ensures Inv(Run(s, actions).value)
    decreases |actions|
  {
    if actions != [] {
      var a := actions[0];
      StepKeepsWakeUp(s, a);
      StepKeepsFifo(s, a);
      StepKeepsOnce(s, a);
      StepKeepsQuits(s, a);
      StepKeepsSignals(s, a);
      hide Step, NoLostWakeUp, Fifo, Once, QuitsApart, SignalsPaired;
      RunKeepsInv(Step(s, a).value, actions[1..]);
    }
  }

  // However clients, author thread and engine interleave: commands leave the
  // queue in the order they came, none is handled or completed twice, the
  // author thread is awake whenever a command waits, and it is never woken for
  // nothing.
  lemma Serves(clients: nat, actions: seq<Action>)
    requires Run(Start(clients), actions).Some?
    ensures var s := Run(Start(clients), actions).value;
            && s.arrived == s.taken + Reverse(s.queue)
            && (forall c :: Count(s.arrived, c) <= 1)
            && (forall c :: Count(s.arrived, c) == Count(s.queue, c) + Places(s, c))
            && !s.request.Broken? && (s.phase.Asleep? && s.queue != [] ==> s.request.Ready?)
            && (s.phase.Picked? ==> s.queue != [])
  {
    RunKeepsInv(Start(clients), actions);
    var s := Run(Start(clients), actions).value;
    forall c ensures Count(s.arrived, c) == Count(s.queue, c) + Places(s, c) {
      CountAppend(s.taken, Reverse(s.queue), c);
      CountReverse(s.queue, c);
      assert Placed(s, c);
    }
    hide Run, Start, Count, Places, Reverse;
  }

  lemma {:induction false} CountReverse(q: seq<Command>, c: Command)
    ensures Count(Reverse(q), c) == Count(q, c)
  {
    if q != [] {
      CountReverse(q[1..], c);
      CountPush(Reverse(q[1..]), q[0], c);
    }
  }

  // Once the driver is at rest and the engine has answered what it accepted,
  // every command but a quit has been completed, exactly once.
  lemma AllAnswered(clients: nat, actions: seq<Action>, c: Command)
    requires Run(Start(clients), actions).Some?
    requires var s := Run(Start(clients), actions).value;
             s.queue == [] && s.engine == [] && !s.phase.Handling? && c in s.arrived && !c.quit
    ensures Count(Commands(Run(Start(clients), actions).value.done), c) == 1
  {
    Serves(clients, actions);
    RunKeepsInv(Start(clients), actions);
    var s := Run(Start(clients), actions).value;
    CountAbsent(s.arrived, c);
    CountAbsent(s.quits, c);
    hide Run, Start, Commands, NoLostWakeUp, Fifo, SignalsPaired;
  }

  // ------------------------------------------------ what was decided, and told

  // A decision on a command: the handler's, or the code the engine answered.
  datatype Ruling = Handler(command: Command, outcome: Outcome) | Engine(command: Command, response: int)

  function Rules(s: State, a: Action): seq<Ruling>
  {
    match a
    case Handle(outcome) =>
      if s.phase.Handling? && !s.phase.command.quit && !outcome.Accept? then [Handler(s.phase.command, outcome)] else []
    case EngineAnswers(i, response) =>
      if i < |s.engine| then [Engine(s.engine[i], response)] else []
    case _ => []
  }

  function Rulings(s: State, actions: seq<Action>): seq<Ruling>
    requires Run(s, actions).Some?
    decreases |actions|
  {
    if actions == [] then [] else Rules(s, actions[0]) + Rulings(Step(s, actions[0]).value, actions[1..])
  }

  // The status says OK just for success, and otherwise what went wrong.
  predicate Carries(d: Done, r: Ruling)
  {
    && d.command == r.command
    && match r
       case Handler(_, outcome) => d.status == if outcome.Fail? then UNKNOWN_ERROR else OK
       case Engine(_, response) =>
         (d.status == OK <==> response == PVMF_SUCCESS) && (response != PVMF_SUCCESS ==> d.status == response)
  }

  ghost predicate AllCarry(done: seq<Done>, rulings: seq<Ruling>)
  {
    |done| == |rulings| && forall k :: 0 <= k < |done| ==> Carries(done[k], rulings[k])
  }

  ghost predicate Backed(d: Done, rulings: seq<Ruling>)
  {
    exists k :: 0 <= k < |rulings| && Carries(d, rulings[k])
  }

  lemma StepCarries(s: State, a: Action, rulings: seq<Ruling>)
    requires AllCarry(s.done, rulings) && Step(s, a).Some?
    ensures AllCarry(Step(s, a).value.done, rulings + Rules(s, a))
  {}

  lemma {:induction false} RunCarries(s: State, actions: seq<Action>, rulings: seq<Ruling>)
    requires AllCarry(s.done, rulings) && Run(s, actions).Some?
    ensures AllCarry(Run(s, actions).value.done, rulings + Rulings(s, actions))
    decreases |actions|
  {
    hide Step, Rules, AllCarry;
    if actions == [] {
      assert rulings + [] == rulings;
    } else {
      StepCarries(s, actions[0], rulings);
      var t := Step(s, actions[0]).value;
      RunCarries(t, actions[1..], rulings + Rules(s, actions[0]));
      assert (rulings + Rules(s, actions[0])) + Rulings(t, actions[1..]) == rulings + Rulings(s, actions);
    }
  }

  // Over every run, whatever the number of clients: the completions are the
  // decisions, in order, each with the status that was decided.
  lemma DoneAsRuled(clients: nat, actions: seq<Action>)
    requires Run(Start(clients), actions).Some?
    ensures AllCarry(Run(Start(clients), actions).value.done, Rulings(Start(clients), actions))
  {
    RunCarries(Start(clients), actions, []);
    assert [] + Rulings(Start(clients), actions) == Rulings(Start(clients), actions);
    hide Run, Rulings;
  }

  // The status of the latest completion that signalled.
  function Latest(done: seq<Done>): int
  {
    if done == [] then OK
    else if done[|done| - 1].command.signals then done[|done| - 1].status
    else Latest(done[..|done| - 1])
  }

  predicate StatusIsLatest(s: State)
  {
    s.syncStatus == if s.phase.Stopped? then OK else Latest(s.done)
  }

  lemma CompletedLatest(s: State, c: Command, status: int)
    requires StatusIsLatest(s) && !s.phase.Stopped?
    ensures StatusIsLatest(Completed(s, c, status))
  {
    assert (s.done + [Done(c, status)])[..|s.done|] == s.done;
  }

  lemma StepKeepsLatest(s: State, a: Action)
    requires StatusIsLatest(s) && Step(s, a).Some?
    ensures StatusIsLatest(Step(s, a).value)
  {
    if a.Handle? {
      CompletedLatest(s.(phase := Asleep), s.phase.command, if a.outcome.Fail? then UNKNOWN_ERROR else OK);
    }
    if a.EngineAnswers? {
      CompletedLatest(s.(engine := s.engine[..a.i] + s.engine[a.i + 1..]), s.engine[a.i], Translated(a.response));
    }
    hide Latest, Completed;
  }

  lemma {:induction false} RunKeepsLatest(s: State, actions: seq<Action>)
    requires StatusIsLatest(s) && Run(s, actions).Some?
    ensures StatusIsLatest(Run(s, actions).value)
    decreases |actions|
  {
    if actions != [] {
      StepKeepsLatest(s, actions[0]);
      hide Step, StatusIsLatest;
      RunKeepsLatest(Step(s, actions[0]).value, actions[1..]);
    }
  }

  // What any client is told, however many there are: a quit OK, and any other
  // command the status of the latest completion that signalled, or OK once the
  // thread has ended.
  lemma TellsLatest(clients: nat, actions: seq<Action>, i: nat)
    requires Run(Start(clients), actions).Some? && Step(Run(Start(clients), actions).value, Return(i)).Some?
    ensures var s := Run(Start(clients), actions).value;
            var t := Step(s, Return(i)).value;
            t.replies == s.replies + [Done(s.clients[i].command,
              if s.clients[i].command.quit || s.phase.Stopped? then OK else Latest(s.done))]
  {
    RunKeepsLatest(Start(clients), actions);
    hide Run, Latest;
  }

  // How many calls were made, and how many are still to return.
  function Calls(actions: seq<Action>): nat
  {
    if actions == [] then 0 else (if actions[0].Enqueue? then 1 else 0) + Calls(actions[1..])
  }

  function Busy(clients: seq<Client>): nat
  {
    if clients == [] then 0 else (if clients[0].Free? then 0 else 1) + Busy(clients[1..])
  }

  lemma {:induction false} BusyMoves(clients: seq<Client>, i: nat, x: Client)
    requires i < |clients|
    ensures Busy(clients[i := x]) + (if clients[i].Free? then 0 else 1) == Busy(clients) + (if x.Free? then 0 else 1)
  {
    if i > 0 {
      BusyMoves(clients[1..], i - 1, x);
      assert clients[i := x][1..] == clients[1..][i - 1 := x];
    } else {
      assert clients[i := x][1..] == clients[1..];
    }
  }

  lemma StepReplies(s: State, a: Action)
    requires Step(s, a).Some?
    ensures var t := Step(s, a).value;
      && s.replies <= t.replies
      && |t.replies| + Busy(t.clients) == |s.replies| + Busy(s.clients) + (if a.Enqueue? then 1 else 0)
  {
    if a.Enqueue? && !s.phase.Stopped? { BusyMoves(s.clients, a.client, Waiting(a.command)); }
    if a.Wake? { BusyMoves(s.clients, a.client, Awake(s.clients[a.client].command)); }
    if a.Return? { BusyMoves(s.clients, a.client, Client.Free); }
    hide Busy;
  }

  lemma {:induction false} RunReplies(s: State, actions: seq<Action>)
    requires Run(s, actions).Some?
    ensures var t := Run(s, actions).value;
      && s.replies <= t.replies
      && |t.replies| + Busy(t.clients) == |s.replies| + Busy(s.clients) + Calls(actions)
    decreases |actions|
  {
    if actions != [] {
      StepReplies(s, actions[0]);
      hide Step, Busy;
      RunReplies(Step(s, actions[0]).value, actions[1..]);
    }
  }

  lemma {:induction false} NoneBusy(clients: seq<Client>)
    requires forall i :: 0 <= i < |clients| ==> clients[i].Free?
    ensures Busy(clients) == 0
  {
    if clients != [] { NoneBusy(clients[1..]); }
  }

  // Every call is replied to once, or has not returned yet: also those made
  // after the end of the thread.
  lemma EveryCallReplied(clients: nat, actions: seq<Action>)
    requires Run(Start(clients), actions).Some?
    ensures var s := Run(Start(clients), actions).value; Calls(actions) == |s.replies| + Busy(s.clients)
  {
    RunReplies(Start(clients), actions);
    NoneBusy(Start(clients).clients);
    hide Run, Busy, Calls;
  }

  // ------------------------------------------------------- a single client

  // Where a client's command is until it is answered.
  predicate InFlight(s: State, c: Command)
  {
    || (s.queue == [c] && s.engine == [] && (s.phase.Asleep? || s.phase.Picked?))
    || (s.queue == [] && s.engine == [] && s.phase == Handling(c))
    || (s.queue == [] && s.engine == [c] && s.phase.Asleep? && !c.quit)
    || (s.queue == [] && s.engine == [] && s.phase.Stopping? && c.quit)
  }

  predicate Answered(s: State, c: Command)
  {
    && s.queue == [] && s.engine == []
    && if c.quit then s.phase.Stopped?
       else s.phase.Asleep? && s.done != [] && s.done[|s.done| - 1].command == c
  }

  // The status the client will read is that of its own command.
  predicate StatusIsOwn(s: State, c: Command)
  {
    c.quit || (c.signals && s.done != [] && s.syncStatus == s.done[|s.done| - 1].status)
  }

  predicate Single(s: State)
  {
    && |s.clients| == 1
    && (!s.clients[0].Free? ==> s.clients[0].command in s.arrived)
    && match s.clients[0]
       case Free => s.queue == [] && s.engine == [] && s.sem == 0 && (s.phase.Asleep? || s.phase.Stopped?)
       case Waiting(c) =>
         || (InFlight(s, c) && s.sem == 0)
         || (Answered(s, c) && s.sem == (if c.quit || c.signals then 1 else 0) && (s.sem == 1 ==> StatusIsOwn(s, c)))
       case Awake(c) => Answered(s, c) && s.sem == 0 && StatusIsOwn(s, c)
  }

  lemma ClientKeepsSingle(s: State, a: Action)
    requires Single(s) && NoLostWakeUp(s) && Step(s, a).Some?
    requires a.Enqueue? || a.Wake? || a.Return? || a.Exit?
    ensures Single(Step(s, a).value)
  {}

  lemma AuthorKeepsSingle(s: State, a: Action)
    requires Single(s) && NoLostWakeUp(s) && Step(s, a).Some?
    requires a.Pick? || a.Dequeue? || a.Handle? || a.EngineAnswers?
    ensures Single(Step(s, a).value)
  {}

  lemma StepKeepsSingle(s: State, a: Action)
    requires Single(s) && NoLostWakeUp(s) && Step(s, a).Some?
    ensures Single(Step(s, a).value)
  {
    hide Step, Single, NoLostWakeUp;
    if a.Enqueue? || a.Wake? || a.Return? || a.Exit? { ClientKeepsSingle(s, a); } else { AuthorKeepsSingle(s, a); }
  }

  // A reply carries its command's own completion status, except that quit is
  // always told OK, and a command after the end of the thread NO_INIT.
  ghost predicate Truthful(s: State)
  {
    forall r :: r in s.replies ==>
      if r.command !in s.arrived then r.status == NO_INIT && s.phase.Stopped?
      else if r.command.quit then r.status == OK
      else r in s.done
  }

  lemma StepKeepsTruthful(s: State, a: Action)
    requires Single(s) && Truthful(s) && Step(s, a).Some?
    ensures Truthful(Step(s, a).value)
  {
    if a.Return? && !s.clients[0].command.quit { assert s.done[|s.done| - 1] in s.done; }
  }

  lemma {:induction false} RunKeepsSingle(s: State, actions: seq<Action>)
    requires Single(s) && NoLostWakeUp(s) && Truthful(s) && Run(s, actions).Some?
    ensures var t := Run(s, actions).value; Single(t) && NoLostWakeUp(t) && Truthful(t)
    decreases |actions|
  {
    if actions != [] {
      var a := actions[0];
      StepKeepsSingle(s, a);
      StepKeepsWakeUp(s, a);
      StepKeepsTruthful(s, a);
      hide Step, Single, NoLostWakeUp, Truthful;
      RunKeepsSingle(Step(s, a).value, actions[1..]);
    }
  }

  // A client that has the driver to itself is told what the handler or the
  // engine decided for its own command.
  lemma OwnStatus(actions: seq<Action>)
    requires Run(Start(1), actions).Some?
    ensures var s := Run(Start(1), actions).value;
      && Truthful(s)
      && forall r :: r in s.replies && r.command in s.arrived && !r.command.quit ==>
           Backed(r, Rulings(Start(1), actions))
  {
    RunKeepsSingle(Start(1), actions);
    DoneAsRuled(1, actions);
    hide Run, Rulings, Carries;
  }

  // EnqueueCommand waits on the semaphore whether or not a completion function
  // was given, and one that does not signal leaves a single client waiting for
  // ever.
  lemma {:induction false} StaysWaiting(s: State, actions: seq<Action>, c: Command)
    requires Single(s) && NoLostWakeUp(s) && Run(s, actions).Some?
    requires s.clients[0] == Waiting(c) && !c.signals && !c.quit
    ensures Run(s, actions).value.clients == [Waiting(c)]
    decreases |actions|
  {
    if actions == [] {
      assert s.clients == [s.clients[0]];
    } else {
      var a := actions[0];
      StepKeepsSingle(s, a);
      StepKeepsWakeUp(s, a);
      assert Step(s, a).value.clients == s.clients;
      hide Step, Single, NoLostWakeUp;
      StaysWaiting(Step(s, a).value, actions[1..], c);
    }
  }

  // How far a waiting client's command is from its reply, and the step that
  // brings it nearer.
  function Distance(s: State, c: Command): nat
  {
    if Answered(s, c) then 0
    else match s.phase
      case Stopping => 1
      case Handling(_) => 2
      case Picked => 3
      case _ => if s.queue == [] then 1 else 4
  }

  function Nearer(s: State): Action
  {
    match s.phase
    case Stopping => Exit
    case Handling(_) => Handle(Finish)
    case Picked => Dequeue
    case _ => if s.queue == [] then EngineAnswers(0, PVMF_SUCCESS) else Pick
  }

  lemma ComesNearer(s: State, c: Command)
    requires Single(s) && NoLostWakeUp(s) && s.clients[0] == Waiting(c) && !Answered(s, c)
    ensures var t := Step(s, Nearer(s));
      t.Some? && t.value.clients == s.clients && Distance(t.value, c) < Distance(s, c)
  {}

  lemma {:induction false} GetsReply(s: State, c: Command) returns (actions: seq<Action>)
    requires Single(s) && NoLostWakeUp(s) && s.clients[0] == Waiting(c) && (c.signals || c.quit)
    ensures Run(s, actions).Some? && Run(s, actions).value.clients == [Free]
    decreases Distance(s, c)
  {
    if Answered(s, c) {
      var t := Step(s, Wake(0)).value;
      var u := Step(t, Return(0)).value;
      assert u.clients == [Free];
      assert Run(u, []) == Some(u);
      assert Run(t, [Return(0)]) == Some(u) by { assert [Return(0)][1..] == []; }
      actions := [Wake(0), Return(0)];
      assert actions[1..] == [Return(0)];
    } else {
      var a := Nearer(s);
      ComesNearer(s, c);
      StepKeepsSingle(s, a);
      StepKeepsWakeUp(s, a);
      var t := Step(s, a).value;
      hide Step, Single, NoLostWakeUp, Answered, Distance;
      var rest := GetsReply(t, c);
      actions := [a] + rest;
      assert actions[1..] == rest;
    }
  }

  lemma {:induction false} RunAppend(s: State, p: seq<Action>, q: seq<Action>)
    requires Run(s, p).Some?
    ensures Run(s, p + q) == Run(Run(s, p).value, q)
    decreases |p|
  {
    if p == [] {
      assert p + q == q;
    } else {
      assert (p + q)[1..] == p[1..] + q;
      hide Step;
      RunAppend(Step(s, p[0]).value, p[1..], q);
    }
  }

  // In every run of a single client, a waiting one can still get its reply
  // exactly if its command signals or is a quit.
  lemma ComesBack(actions: seq<Action>, c: Command)
    requires Run(Start(1), actions).Some? && Run(Start(1), actions).value.clients == [Waiting(c)]
    ensures (exists more :: Run(Start(1), actions + more).Some?
                            && Run(Start(1), actions + more).value.clients == [Free])
            <==> c.signals || c.quit
  {
    RunKeepsSingle(Start(1), actions);
    var s := Run(Start(1), actions).value;
    hide Run, Single, NoLostWakeUp, Truthful;
    if c.signals || c.quit {
      var more := GetsReply(s, c);
      RunAppend(Start(1), actions, more);
      assert Run(Start(1), actions + more).value.clients == [Free];
    } else {
      forall more | Run(Start(1), actions + more).Some?
        ensures Run(Start(1), actions + more).value.clients != [Free]
      {
        RunAppend(Start(1), actions, more);
        StaysWaiting(s, more, c);
        assert [Waiting(c)][0] != [Free][0];
      }
    }
  }

  lemma RunThen(s: State, actions: seq<Action>, a: Action) returns (t: State)
    requires Run(s, actions).Some? && Step(Run(s, actions).value, a).Some?
    ensures Run(s, actions + [a]).Some? && t == Run(s, actions + [a]).value == Step(Run(s, actions).value, a).value
  {
    RunAppend(s, actions, [a]);
    t := Step(Run(s, actions).value, a).value;
    hide Step;
    assert [a][1..] == [] && Run(t, []) == Some(t);
  }

  lemma ServeOne(s: State, actions: seq<Action>, i: nat, c: Command, outcome: Outcome)
    returns (all: seq<Action>, t: State)
    requires Run(s, actions).Some?
    requires var u := Run(s, actions).value;
             && i < |u.clients| && u.clients[i].Free? && c !in u.arrived && !c.quit && c.signals && !outcome.Accept?
             && u.queue == [] && u.phase.Asleep? && u.request.Pending?
    ensures Run(s, all).Some? && t == Run(s, all).value
    ensures var u := Run(s, actions).value; var status := if outcome.Fail? then UNKNOWN_ERROR else OK;
            t == u.(arrived := u.arrived + [c], taken := u.taken + [c], clients := u.clients[i := Waiting(c)],
                    done := u.done + [Done(c, status)], sem := u.sem + 1, syncStatus := status)
  {
    hide Run;
    all := actions;
    t := RunThen(s, all, Enqueue(i, c)); all := all + [Enqueue(i, c)];
    t := RunThen(s, all, Pick); all := all + [Pick];
    t := RunThen(s, all, Dequeue); all := all + [Dequeue];
    t := RunThen(s, all, Handle(outcome)); all := all + [Handle(outcome)];
  }

  // With more clients the one status is not safe: one can be told another's.
  lemma OthersStatus(n: nat, a: Command, b: Command) returns (actions: seq<Action>)
    requires n >= 2 && a != b && !a.quit && !b.quit && a.signals && b.signals
    ensures Run(Start(n), actions).Some?
    ensures var s := Run(Start(n), actions).value;
            s.replies == [Done(a, OK)] && s.done == [Done(a, UNKNOWN_ERROR), Done(b, OK)] && s.arrived == [a, b]
  {
    assert Run(Start(n), []) == Some(Start(n));
    hide Run;
    var all, t := ServeOne(Start(n), [], 0, a, Fail);
    all, t := ServeOne(Start(n), all, 1, b, Finish);
    t := RunThen(Start(n), all, Wake(0));
    t := RunThen(Start(n), all + [Wake(0)], Return(0));
    actions := all + [Wake(0)] + [Return(0)];
  }

  lemma {:induction false} Nobody(s: State, actions: seq<Action>)
    requires s.clients == [] && s.replies == [] && Run(s, actions).Some?
    ensures Run(s, actions).value.replies == []
    decreases |actions|
  {
    if actions != [] {
      var t := Step(s, actions[0]).value;
      assert t.clients == [] && t.replies == [];
      hide Step;
      Nobody(t, actions[1..]);
    }
  }

  // Every reply is its command's own status, whatever happens, exactly if there
  // is at most one client.
  lemma TruthfulExactly(n: nat)
    ensures (forall actions :: Run(Start(n), actions).Some? ==> Truthful(Run(Start(n), actions).value)) <==> n <= 1
  {
    if n <= 1 {
      forall actions | Run(Start(n), actions).Some? ensures Truthful(Run(Start(n), actions).value) {
        if n == 0 { Nobody(Start(n), actions); } else { OwnStatus(actions); }
        hide Run;
      }
    } else {
      var a, b := Command(0, false, true), Command(1, false, true);
      var actions := OthersStatus(n, a, b);
      hide Run;
      Untruthful(Run(Start(n), actions).value, a, b);
    }
  }

  lemma Untruthful(s: State, a: Command, b: Command)
    requires s.replies == [Done(a, OK)] && !a.quit && s.done == [Done(a, UNKNOWN_ERROR), Done(b, OK)]
    requires s.arrived == [a, b] && a != b
    ensures !Truthful(s)
  {
    assert Done(a, OK) in s.replies && Done(a, OK) !in s.done && a in s.arrived;
  }

  // -------------------------------------------------------------- the class

  class AuthorDriver {
    var commandQueue: seq<Command>
    var request: Request
    var phase: Phase
    var engine: seq<Command>
    var sem: nat
    var syncStatus: int
    var clients: seq<Client>
    ghost var arrived: seq<Command>
    ghost var taken: seq<Command>
    ghost var done: seq<Done>
    ghost var quits: seq<Command>
    ghost var replies: seq<Done>
    ghost var wakes: nat

    ghost function View(): State
      reads this
    {
      State(commandQueue, request, phase, engine, sem, syncStatus, clients, arrived, taken, done, quits, replies, wakes)
    }

    constructor (n: nat)
      ensures View() == Start(n)
    {
      commandQueue, request, phase, engine, sem, syncStatus := [], Pending, Asleep, [], 0, OK;
      clients := seq(n, i => Free);
      arrived, taken, done, quits, replies, wakes := [], [], [], [], [], 0;
    }

    // Up to the wait on the semaphore.
    method EnqueueCommand(i: nat, ac: Command) returns (status: Option<int>)
      requires i < |clients| && clients[i].Free? && ac !in arrived
      modifies this
      ensures Some(View()) == Step(old(View()), Enqueue(i, ac))
      ensures status == if old(phase).Stopped? then Some(NO_INIT) else None
    {
      if phase.Stopped? {
        replies := replies + [Done(ac, NO_INIT)];
        return Some(NO_INIT);
      }
      commandQueue := [ac] + commandQueue;
      arrived := arrived + [ac];
      if |commandQueue| == 1 {
        request := PendComplete(request);
      }
      clients := clients[i := Waiting(ac)];
      status := None;
    }

    method DequeueCommand() returns (ac: Option<Command>)
      modifies this`commandQueue, this`request, this`taken
      ensures old(commandQueue) == [] ==>
                ac == None && commandQueue == [] && taken == old(taken) && request == PendForExec(old(request))
      ensures old(commandQueue) != [] ==>
                && ac.Some? && commandQueue + [ac.value] == old(commandQueue) && taken == old(taken) + [ac.value]
                && request == (if commandQueue == [] then PendForExec(old(request)) else RunIfNotReady(old(request)))
    {
      if commandQueue == [] {
        request := PendForExec(request);
        return None;
      }
      var last := |commandQueue| - 1;
      ac := Some(commandQueue[last]);
      commandQueue := commandQueue[..last];
      if |commandQueue| > 0 {
        request := RunIfNotReady(request);
      } else {
        request := PendForExec(request);
      }
      taken := taken + [ac.value];
    }

    // The head of Run, before the handler.
    method Run()
      requires phase.Picked?
      modifies this
      ensures Some(View()) == Step(old(View()), Dequeue)
    {
      var ac := DequeueCommand();
      if ac == None {
        request, phase := Broken, Asleep;
        return;
      }
      phase := Handling(ac.value);
    }

    method SyncCompletion(s: int)
      modifies this`syncStatus, this`sem
      ensures syncStatus == s && sem == old(sem) + 1
    {
      syncStatus := s;
      sem := sem + 1;
    }

    // ac->comp(status, ac->cookie); delete ac;
    method Complete(ac: Command, status: int)
      modifies this`syncStatus, this`sem, this`done
      ensures View() == Completed(old(View()), ac, status)
    {
      if ac.signals { SyncCompletion(status); }
      done := done + [Done(ac, status)];
    }

    method FinishNonAsyncCommand(ac: Command)
      modifies this`syncStatus, this`sem, this`done
      ensures View() == Completed(old(View()), ac, OK)
    {
      Complete(ac, OK);
    }

    method CommandFailed(ac: Command)
      modifies this`syncStatus, this`sem, this`done
      ensures View() == Completed(old(View()), ac, UNKNOWN_ERROR)
    {
      Complete(ac, UNKNOWN_ERROR);
    }

    // A handler: it finishes the command, fails it, or has the engine take it.
    method HandleCommand(outcome: Outcome)
      requires phase.Handling?
      modifies this
      ensures Some(View()) == Step(old(View()), Handle(outcome))
    {
      var ac := phase.command;
      if ac.quit {
        quits := quits + [ac];
        phase := Stopping;
        return;
      }
      phase := Asleep;
      match outcome
      case Finish => FinishNonAsyncCommand(ac);
      case Fail => CommandFailed(ac);
      case Accept => engine := engine + [ac];
    }

    method CommandCompleted(i: nat, response: int)
      requires phase.Asleep? && i < |engine| && response != PVMF_PENDING
      modifies this
      ensures Some(View()) == Step(old(View()), EngineAnswers(i, response))
      ensures done == old(done) + [Done(old(engine)[i], if response == PVMF_SUCCESS then OK else response)]
    {
      var ac := engine[i];
      engine := engine[..i] + engine[i + 1..];
      var s := response;
      if s == PVMF_SUCCESS { s := OK; }
      Complete(ac, s);
    }

    // The end of authorThread.
    method EndThread()
      requires phase.Stopping?
      modifies this
      ensures Some(View()) == Step(old(View()), Exit)
    {
      phase := Stopped;
      syncStatus := OK;
      sem := sem + 1;
    }
  }
}
