/**
 The Windows host: a controller that takes commands from a channel and starts, stops and joins
 server threads, each tagged with a generation. Controller, threads and the senders of commands
 interleave freely; every action below is one step of one of them.
 */
module ServerController {
  import opened Wrappers

  datatype Command = Start | Stop | Restart | Exit | Exited(generation: nat)

  datatype Kind = Starting | Running | Stopping | Stopped | Failed

  datatype Status = Status(generation: nat, kind: Kind)

  // How far a thread that is done has got: its last status sent, `Exited` sent, returned.
  datatype Leaving = Reported | Notified | Gone

  datatype Thread = Booting | Serving | Ended(served: bool, failed: bool, leaving: Leaving)

  // What the controller does after a stop.
  datatype Then = Rest | Launch | Halt

  datatype Position =
    | Ready
    | Launching
    | Spawning
    | Signalling(stopped: nat, then_: Then)
    | Joining(stopped: nat, then_: Then)
    | Halted

  datatype State = State(
    queue: seq<Command>,
    events: seq<Status>,
    threads: map<nat, Thread>,
    signalled: set<nat>,
    running: Option<nat>,
    generation: nat,
    at: Position)

  const IDLE := State([], [], map[], {}, None, 0, Ready)

  datatype Action =
    | Send(command: Command)
    | Receive | Announce | Spawn | Signal | Join
    | Boot(g: nat) | Break(g: nat)
    | Obey(g: nat, failed: bool)  // a serving thread ends as it was told to
    | Quit(g: nat, failed: bool)  // a serving thread ends by itself
    | Notify(g: nat) | Leave(g: nat)

  function After(then_: Then): Position {
    match then_
    case Rest => Ready
    case Launch => Launching
    case Halt => Halted
  }

  // ----- Controller -----

  function StopThen(s: State, then_: Then): State {
    match s.running
    case None => s.(at := After(then_))
    case Some(g) =>
      s.(running := None, events := s.events + [Status(g, Stopping)], at := Signalling(g, then_))
  }

  function Handle(s: State, command: Command): State {
    match command
    case Start => if s.running.None? then s.(at := Launching) else s
    case Stop => StopThen(s, Rest)
    case Restart => StopThen(s, Launch)
    case Exit => StopThen(s, Halt)
    case Exited(g) => if s.running == Some(g) then s.(running := None, at := Joining(g, Rest)) else s
  }

  // ----- All steps -----

  predicate Possible(s: State, a: Action) {
    match a
    case Send(command) => !command.Exited?
    case Receive => s.at.Ready? && s.queue != []
    case Announce => s.at.Launching?
    case Spawn => s.at.Spawning?
    case Signal => s.at.Signalling?
    case Join => s.at.Joining? && s.at.stopped in s.threads && IsGone(s.threads[s.at.stopped])
    case Boot(g) => g in s.threads && s.threads[g].Booting?
    case Break(g) => g in s.threads && s.threads[g].Booting?
    case Obey(g, failed) => g in s.threads && s.threads[g].Serving? && g in s.signalled
    case Quit(g, failed) => g in s.threads && s.threads[g].Serving?
    case Notify(g) => g in s.threads && s.threads[g].Ended? && s.threads[g].leaving.Reported?
    case Leave(g) => g in s.threads && s.threads[g].Ended? && s.threads[g].leaving.Notified?
  }

  predicate IsGone(thread: Thread) {
    thread.Ended? && thread.leaving.Gone?
  }

  // Nobody receives once the controller has returned.
  function Delivered(s: State, command: Command): State {
    if s.at.Halted? then s else s.(queue := s.queue + [command])
  }

  function Report(s: State, g: nat, kind: Kind, thread: Thread): State {
    s.(threads := s.threads[g := thread], events := s.events + [Status(g, kind)])
  }

  function Step(s: State, a: Action): State
    requires Possible(s, a)
  {
    match a
    case Send(command) => Delivered(s, command)
    case Receive => Handle(s.(queue := s.queue[1..]), s.queue[0])
    case Announce =>
      s.(generation := s.generation + 1, events := s.events + [Status(s.generation + 1, Starting)], at := Spawning)
    case Spawn => s.(threads := s.threads[s.generation := Booting], running := Some(s.generation), at := Ready)
    case Signal => s.(signalled := s.signalled + {s.at.stopped}, at := Joining(s.at.stopped, s.at.then_))
    case Join => s.(at := After(s.at.then_))
    case Boot(g) => Report(s, g, Running, Serving)
    case Break(g) => Report(s, g, Failed, Ended(false, true, Reported))
    case Obey(g, failed) => Report(s, g, if failed then Failed else Stopped, Ended(true, failed, Reported))
    case Quit(g, failed) => Report(s, g, if failed then Failed else Stopped, Ended(true, failed, Reported))
    case Notify(g) => Delivered(s.(threads := s.threads[g := s.threads[g].(leaving := Notified)]), Exited(g))
    case Leave(g) => s.(threads := s.threads[g := s.threads[g].(leaving := Gone)])
  }

  ghost predicate IsRun(states: seq<State>) {
    && |states| > 0 && states[0] == IDLE
    && forall i :: StepAt(states, i)
  }

  ghost predicate StepAt(states: seq<State>, i: int) {
    0 <= i < |states| - 1 ==> Follows(states[i], states[i + 1])
  }

  ghost predicate Follows(s: State, t: State) {
    exists a :: Possible(s, a) && t == Step(s, a)
  }

  // ----- One server at a time -----

  // The server the controller keeps or is waiting for.
  predicate Holds(s: State, g: nat) {
    s.running == Some(g) || ((s.at.Signalling? || s.at.Joining?) && s.at.stopped == g)
  }

  predicate Alive(s: State, g: nat) {
    g in s.threads && !IsGone(s.threads[g])
  }

  ghost predicate Servers(s: State) {
    && (s.running.Some? ==> s.at.Ready?)
    && (forall g :: Holds(s, g) ==> g == s.generation && g in s.threads)
    && (forall g :: Alive(s, g) ==> Holds(s, g))
    && (forall g :: g in s.threads <==> 1 <= g <= s.generation && !(s.at.Spawning? && g == s.generation))
    && (s.at.Spawning? ==> s.generation > 0)
  }

  // ----- Exit notices -----

  predicate HasNotified(thread: Thread) {
    thread.Ended? && !thread.leaving.Reported?
  }

  // A notice is only queued by a thread that is done; a kept server that is done has one queued;
  // a thread that is joined was told to stop or is done.
  ghost predicate Notices(s: State) {
    && (forall g :: Exited(g) in s.queue ==> g in s.threads && HasNotified(s.threads[g]))
    && (forall g :: s.running == Some(g) && g in s.threads && HasNotified(s.threads[g]) ==> Exited(g) in s.queue)
    && (s.at.Joining? && s.at.stopped in s.threads ==>
          s.at.stopped in s.signalled || HasNotified(s.threads[s.at.stopped]))
  }

  // ----- Statuses -----

  ghost predicate Sorted(events: seq<Status>) {
    forall i, j :: 0 <= i < j < |events| ==> events[i].generation <= events[j].generation
  }

  // The statuses of one generation, leaving out the controller's Stopping.
  function Own(events: seq<Status>, g: nat): seq<Kind> {
    if events == [] then []
    else
      var last := events[|events| - 1];
      Own(events[..|events| - 1], g) + (if last.generation == g && !last.kind.Stopping? then [last.kind] else [])
  }

  function Stops(events: seq<Status>, g: nat): nat {
    if events == [] then 0
    else Stops(events[..|events| - 1], g) + (if events[|events| - 1] == Status(g, Stopping) then 1 else 0)
  }

  function Script(thread: Thread): seq<Kind> {
    match thread
    case Booting => [Starting]
    case Serving => [Starting, Running]
    case Ended(served, failed, _) =>
      (if served then [Starting, Running] else [Starting]) + [if failed then Failed else Stopped]
  }

  // A server that never came up can only have failed.
  predicate EndsRight(thread: Thread) {
    thread.Ended? ==> thread.served || thread.failed
  }

  ghost predicate Statuses(s: State) {
    && Sorted(s.events)
    && Within(s.events, s.generation)
    && (forall g :: g in s.threads ==> Own(s.events, g) == Script(s.threads[g]) && EndsRight(s.threads[g]))
    && (s.at.Spawning? ==> Own(s.events, s.generation) == [Starting])
    && (forall g :: Stops(s.events, g) <= 1)
    && (forall g :: s.running == Some(g) || (s.at.Spawning? && g == s.generation) ==> Stops(s.events, g) == 0)
  }

  ghost predicate Inv(s: State) {
    Servers(s) && Notices(s) && Statuses(s)
  }

  lemma {:induction false} HandleKeepsServers(s: State, command: Command)
    requires Servers(s) && s.at.Ready?
    ensures Servers(Handle(s, command))
  {
    var t := Handle(s, command);
    forall g ensures Holds(t, g) <==> Holds(s, g) {
    }
    forall g ensures Alive(t, g) <==> Alive(s, g) {
    }
  }

  lemma {:induction false} SpawnKeepsServers(s: State)
    requires Servers(s) && s.at.Spawning?
    ensures Servers(Step(s, Spawn))
  {
    var t := Step(s, Spawn);
    forall g | Alive(t, g) ensures Holds(t, g) {
      assert Alive(s, g) || g == s.generation;
    }
  }

  // A step of a thread that is still there.
  lemma {:induction false} ThreadKeepsServers(s: State, g: nat, thread: Thread)
    requires Servers(s) && Alive(s, g)
    ensures Servers(s.(threads := s.threads[g := thread]))
  {
    var t := s.(threads := s.threads[g := thread]);
    forall h ensures Holds(t, h) <==> Holds(s, h) {
    }
    forall h ensures Alive(t, h) ==> Alive(s, h) {
    }
  }

  lemma {:induction false} ServersIgnoreStatuses(s: State, queue: seq<Command>, events: seq<Status>)
    requires Servers(s)
    ensures Servers(s.(queue := queue, events := events))
  {
    var t := s.(queue := queue, events := events);
    forall g ensures (Holds(t, g) <==> Holds(s, g)) && (Alive(t, g) <==> Alive(s, g)) {
    }
  }

  lemma {:induction false} StepKeepsServers(s: State, a: Action)
    requires Servers(s) && Possible(s, a)
    ensures Servers(Step(s, a))
  {
    var t := Step(s, a);
    match a
    case Receive =>
      ServersIgnoreStatuses(s, s.queue[1..], s.events);
      HandleKeepsServers(s.(queue := s.queue[1..]), s.queue[0]);
    case Spawn => SpawnKeepsServers(s);
    case Boot(g) =>
      ThreadKeepsServers(s, g, t.threads[g]);
      ServersIgnoreStatuses(s.(threads := t.threads), t.queue, t.events);
    case Break(g) =>
      ThreadKeepsServers(s, g, t.threads[g]);
      ServersIgnoreStatuses(s.(threads := t.threads), t.queue, t.events);
    case Obey(g, failed) =>
      ThreadKeepsServers(s, g, t.threads[g]);
      ServersIgnoreStatuses(s.(threads := t.threads), t.queue, t.events);
    case Quit(g, failed) =>
      ThreadKeepsServers(s, g, t.threads[g]);
      ServersIgnoreStatuses(s.(threads := t.threads), t.queue, t.events);
    case Notify(g) =>
      ThreadKeepsServers(s, g, t.threads[g]);
      ServersIgnoreStatuses(s.(threads := t.threads), t.queue, t.events);
    case Leave(g) => ThreadKeepsServers(s, g, t.threads[g]);
    case Send(command) => ServersIgnoreStatuses(s, t.queue, t.events);
    case _ =>
      forall g ensures (Holds(t, g) ==> Holds(s, g)) && (Alive(t, g) <==> Alive(s, g)) {
      }
  }

  lemma {:induction false} PopKeepsOthers(queue: seq<Command>, c: Command)
    requires queue != []
    ensures c in queue <==> c == queue[0] || c in queue[1..]
  {
  }

  lemma {:induction false} ReceiveKeepsNotices(s: State)
    requires Servers(s) && Notices(s) && Possible(s, Receive)
    ensures Notices(Step(s, Receive))
  {
    forall g: nat ensures Exited(g) in s.queue <==> Exited(g) == s.queue[0] || Exited(g) in s.queue[1..] {
      PopKeepsOthers(s.queue, Exited(g));
    }
  }

  lemma {:induction false} NotifyKeepsNotices(s: State, g: nat)
    requires Servers(s) && Notices(s) && Possible(s, Notify(g))
    ensures Notices(Step(s, Notify(g)))
  {
    assert Alive(s, g);
  }

  lemma {:induction false} StepKeepsNotices(s: State, a: Action)
    requires Servers(s) && Notices(s) && Possible(s, a)
    ensures Notices(Step(s, a))
  {
    match a
    case Receive => ReceiveKeepsNotices(s);
    case Notify(g) => NotifyKeepsNotices(s, g);
    case _ =>
  }

  lemma {:induction false} OwnAppend(events: seq<Status>, e: Status, g: nat)
    ensures Own(events + [e], g) == Own(events, g) + (if e.generation == g && !e.kind.Stopping? then [e.kind] else [])
    ensures Stops(events + [e], g) == Stops(events, g) + (if e == Status(g, Stopping) then 1 else 0)
  {
    assert (events + [e])[..|events|] == events;
  }

  lemma {:induction false} NoneYet(events: seq<Status>, g: nat)
    requires forall i :: 0 <= i < |events| ==> events[i].generation != g
    ensures Own(events, g) == [] && Stops(events, g) == 0
  {
    if events != [] {
      NoneYet(events[..|events| - 1], g);
    }
  }

  ghost predicate Within(events: seq<Status>, generation: nat) {
    forall i :: 0 <= i < |events| ==> 1 <= events[i].generation <= generation
  }

  // A status of the newest generation.
  lemma {:induction false} AppendKeepsOrder(events: seq<Status>, e: Status, generation: nat)
    requires Sorted(events) && Within(events, e.generation) && 1 <= e.generation
    ensures Sorted(events + [e]) && Within(events + [e], e.generation)
  {
  }

  lemma {:induction false} ReportKeepsStatuses(s: State, g: nat, kind: Kind, thread: Thread)
    requires Servers(s) && Statuses(s) && Alive(s, g) && !kind.Stopping?
    requires Script(thread) == Script(s.threads[g]) + [kind] && EndsRight(thread)
    ensures Statuses(Report(s, g, kind, thread))
  {
    assert Holds(s, g);
    var e := Status(g, kind);
    AppendKeepsOrder(s.events, e, g);
    forall h: nat ensures Own(s.events + [e], h) == Own(s.events, h) + (if h == g then [kind] else [])
      ensures Stops(s.events + [e], h) == Stops(s.events, h)
    {
      OwnAppend(s.events, e, h);
    }
  }

  lemma {:induction false} AnnounceKeepsStatuses(s: State)
    requires Servers(s) && Statuses(s) && s.at.Launching?
    ensures Statuses(Step(s, Announce))
  {
    var e := Status(s.generation + 1, Starting);
    NoneYet(s.events, s.generation + 1);
    AppendKeepsOrder(s.events, e, e.generation);
    forall h: nat ensures Own(s.events + [e], h) == Own(s.events, h) + (if h == e.generation then [Starting] else [])
      ensures Stops(s.events + [e], h) == Stops(s.events, h)
    {
      OwnAppend(s.events, e, h);
    }
    var t := Step(s, Announce);
    forall g | g in t.threads ensures Own(t.events, g) == Script(t.threads[g]) && EndsRight(t.threads[g]) {
      assert g != e.generation && g in s.threads;
    }
    assert Own(t.events, t.generation) == [] + [Starting];
  }

  lemma {:induction false} StopKeepsStatuses(s: State, then_: Then)
    requires Servers(s) && Statuses(s) && s.at.Ready?
    ensures Statuses(StopThen(s, then_))
  {
    if s.running.Some? {
      var g := s.running.value;
      assert Holds(s, g);
      var e := Status(g, Stopping);
      AppendKeepsOrder(s.events, e, g);
      forall h: nat ensures Own(s.events + [e], h) == Own(s.events, h)
        ensures Stops(s.events + [e], h) == Stops(s.events, h) + (if h == g then 1 else 0)
      {
        OwnAppend(s.events, e, h);
      }
    }
  }

  lemma {:induction false} HandleKeepsStatuses(s: State, command: Command)
    requires Servers(s) && Statuses(s) && s.at.Ready?
    ensures Statuses(Handle(s, command))
  {
    match command
    case Stop => StopKeepsStatuses(s, Rest);
    case Restart => StopKeepsStatuses(s, Launch);
    case Exit => StopKeepsStatuses(s, Halt);
    case _ => assert Handle(s, command).events == s.events && Handle(s, command).threads == s.threads;
  }

  lemma {:induction false} StatusesIgnoreQueue(s: State, queue: seq<Command>)
    requires Statuses(s)
    ensures Statuses(s.(queue := queue))
  {
  }

  lemma {:induction false} ReceiveKeepsStatuses(s: State)
    requires Servers(s) && Statuses(s) && Possible(s, Receive)
    ensures Statuses(Step(s, Receive))
  {
    ServersIgnoreStatuses(s, s.queue[1..], s.events);
    StatusesIgnoreQueue(s, s.queue[1..]);
    HandleKeepsStatuses(s.(queue := s.queue[1..]), s.queue[0]);
  }

  lemma {:induction false} SpawnKeepsStatuses(s: State)
    requires Servers(s) && Statuses(s) && s.at.Spawning?
    ensures Statuses(Step(s, Spawn))
  {
  }

  // A thread only gets further in leaving.
  lemma {:induction false} LeavingKeepsStatuses(s: State, g: nat, thread: Thread, queue: seq<Command>)
    requires Statuses(s) && g in s.threads && EndsRight(thread) && Script(thread) == Script(s.threads[g])
    ensures Statuses(s.(threads := s.threads[g := thread], queue := queue))
  {
  }

  lemma {:induction false} StepKeepsStatuses(s: State, a: Action)
    requires Servers(s) && Statuses(s) && Possible(s, a)
    ensures Statuses(Step(s, a))
  {
    match a
    case Boot(g) => ReportKeepsStatuses(s, g, Running, Serving);
    case Break(g) => ReportKeepsStatuses(s, g, Failed, Ended(false, true, Reported));
    case Obey(g, failed) =>
      ReportKeepsStatuses(s, g, if failed then Failed else Stopped, Ended(true, failed, Reported));
    case Quit(g, failed) =>
      ReportKeepsStatuses(s, g, if failed then Failed else Stopped, Ended(true, failed, Reported));
    case Announce => AnnounceKeepsStatuses(s);
    case Receive => ReceiveKeepsStatuses(s);
    case Spawn => SpawnKeepsStatuses(s);
    case Notify(g) => LeavingKeepsStatuses(s, g, Step(s, a).threads[g], Step(s, a).queue);
    case Leave(g) => LeavingKeepsStatuses(s, g, Step(s, a).threads[g], s.queue);
    case _ => assert Step(s, a).events == s.events && Step(s, a).threads == s.threads;
  }

  lemma {:induction false} IdleHasInv()
    ensures Inv(IDLE)
  {
  }

  lemma {:induction false} FollowingKeepsInv(s: State, t: State)
    requires Inv(s) && Follows(s, t)
    ensures Inv(t)
  {
    var a :| Possible(s, a) && t == Step(s, a);
    StepKeepsServers(s, a);
    StepKeepsNotices(s, a);
    StepKeepsStatuses(s, a);
  }

  lemma {:induction false} RunKeepsInv(states: seq<State>, i: nat)
    requires IsRun(states) && i < |states|
    ensures Inv(states[i])
  {
    if i > 0 {
      RunKeepsInv(states, i - 1);
      assert StepAt(states, i - 1);
      FollowingKeepsInv(states[i - 1], states[i]);
    } else {
      IdleHasInv();
    }
  }

  // ----- What every run keeps -----

  // At most one server thread is there at any time, it is the one the controller keeps or waits
  // for, and none is left once the controller has returned.
  lemma {:induction false} OneServerAtATime(states: seq<State>, i: nat, g: nat)
    requires IsRun(states) && i < |states| && Alive(states[i], g)
    ensures Holds(states[i], g) && !states[i].at.Halted?
    ensures forall h :: Alive(states[i], h) ==> h == g
  {
    RunKeepsInv(states, i);
    forall h | Alive(states[i], h) ensures h == g {
      assert Holds(states[i], h) && Holds(states[i], g);
    }
  }

  // An exit notice clears a server only if that very server is done serving; a notice of an older
  // generation changes nothing but the queue.
  lemma {:induction false} ExitNoticeClearsOnlyItsServer(states: seq<State>, i: nat, g: nat)
    requires IsRun(states) && i < |states| && Possible(states[i], Receive) && states[i].queue[0] == Exited(g)
    ensures var s, t := states[i], Step(states[i], Receive);
            if s.running == Some(g) then g in s.threads && HasNotified(s.threads[g]) && t.at == Joining(g, Rest)
            else t == s.(queue := s.queue[1..])
  {
    RunKeepsInv(states, i);
    assert states[i].queue[0] in states[i].queue;
  }

  // A kept server is still there, or its exit notice is on the way and will clear it.
  lemma {:induction false} DeadServerIsNoticed(states: seq<State>, i: nat)
    requires IsRun(states) && i < |states| && states[i].running.Some?
    ensures Alive(states[i], states[i].running.value) || Exited(states[i].running.value) in states[i].queue
  {
    RunKeepsInv(states, i);
    assert Holds(states[i], states[i].running.value);
  }

  ghost predicate Lifetime(kinds: seq<Kind>) {
    || kinds == [Starting] || kinds == [Starting, Running] || kinds == [Starting, Failed]
    || kinds == [Starting, Running, Stopped] || kinds == [Starting, Running, Failed]
  }

  // Statuses come generation by generation. Each one started announces itself once, serves at most
  // once and ends at most once, with nothing of its own after that, and what it sent tells how far its
  // thread is; it is told to stop at most once.
  lemma {:induction false} StatusesFollowGenerations(states: seq<State>, i: nat, g: nat)
    requires IsRun(states) && i < |states|
    ensures Sorted(states[i].events) && Stops(states[i].events, g) <= 1
    ensures if 1 <= g <= states[i].generation then Lifetime(Own(states[i].events, g))
            else Own(states[i].events, g) == []
    ensures g in states[i].threads ==>
              var own, thread := Own(states[i].events, g), states[i].threads[g];
              && (thread.Booting? ==> own == [Starting]) && (thread.Serving? ==> own == [Starting, Running])
              && (thread.Ended? ==>
                    own == (if thread.served then [Starting, Running] else [Starting])
                           + [if thread.failed then Failed else Stopped])
  {
    RunKeepsInv(states, i);
    var s := states[i];
    if !(1 <= g <= s.generation) {
      NoneYet(s.events, g);
    } else if g in s.threads {
      assert Own(s.events, g) == Script(s.threads[g]);
    }
  }

  // How each step moves the threads and the queue on; nobody receives once the controller has returned.
  lemma {:induction false} ThreadsMoveOn(s: State, a: Action)
    requires Possible(s, a)
    ensures var t := Step(s, a);
            && t.threads == (match a
                             case Spawn => s.threads[s.generation := Booting]
                             case Boot(g) => s.threads[g := Serving]
                             case Break(g) => s.threads[g := Ended(false, true, Reported)]
                             case Obey(g, failed) => s.threads[g := Ended(true, failed, Reported)]
                             case Quit(g, failed) => s.threads[g := Ended(true, failed, Reported)]
                             case Notify(g) => s.threads[g := s.threads[g].(leaving := Notified)]
                             case Leave(g) => s.threads[g := s.threads[g].(leaving := Gone)]
                             case _ => s.threads)
            && t.queue == (if a.Receive? then s.queue[1..]
                           else if s.at.Halted? || !(a.Send? || a.Notify?) then s.queue
                           else s.queue + [if a.Send? then a.command else Exited(a.g)])
            && (a.Spawn? ==> t.running == Some(s.generation))
            && (!a.Spawn? && !a.Receive? ==> t.running == s.running)
            && t.generation == (if a.Announce? then s.generation + 1 else s.generation)
  {
  }

  lemma {:induction false} HaltedStays(s: State, t: State)
    requires Servers(s) && s.at.Halted? && Follows(s, t)
    ensures t == s
  {
    var a :| Possible(s, a) && t == Step(s, a);
    assert forall g :: !Alive(s, g);
    assert a.Boot? || a.Break? || a.Obey? || a.Quit? || a.Notify? || a.Leave? ==> Alive(s, a.g);
  }

  // Once the controller has returned nothing is reported or started any more.
  lemma {:induction false} NothingAfterExit(states: seq<State>, i: nat, j: nat)
    requires IsRun(states) && i <= j < |states| && states[i].at.Halted?
    ensures states[j] == states[i]
  {
    if i < j {
      NothingAfterExit(states, i, j - 1);
      RunKeepsInv(states, i);
      assert StepAt(states, j - 1);
      HaltedStays(states[i], states[j]);
    }
  }

  // ----- A stop always gets done -----

  function StepsLeft(thread: Thread): nat {
    match thread
    case Booting => 4
    case Serving => 3
    case Ended(_, _, Reported) => 2
    case Ended(_, _, Notified) => 1
    case Ended(_, _, Gone) => 0
  }

  function NextStep(g: nat, thread: Thread): Action
    requires !IsGone(thread)
  {
    match thread
    case Booting => Boot(g)
    case Serving => Obey(g, false)
    case Ended(_, _, Reported) => Notify(g)
    case Ended(_, _, _) => Leave(g)
  }

  // While the controller waits for a thread, that thread can always move on, a serving one because
  // it was told to stop; no other step of anyone sets it back, and at last the wait ends.
  lemma {:induction false} JoinIsNeverStuck(states: seq<State>, i: nat, a: Action)
    requires IsRun(states) && i < |states| && states[i].at.Joining? && Possible(states[i], a)
    ensures var s := states[i];
            var g := s.at.stopped;
            && g in s.threads && (s.threads[g].Serving? ==> g in s.signalled)
            && (IsGone(s.threads[g]) <==> Possible(s, Join))
            && (!IsGone(s.threads[g]) ==>
                  var next := NextStep(g, s.threads[g]);
                  Possible(s, next) && StepsLeft(Step(s, next).threads[g]) < StepsLeft(s.threads[g]))
            && (a != Join ==>
                  Step(s, a).at == s.at && g in Step(s, a).threads
                  && StepsLeft(Step(s, a).threads[g]) <= StepsLeft(s.threads[g]))
  {
    RunKeepsInv(states, i);
    var s := states[i];
    var g := s.at.stopped;
    assert Holds(s, g);
    if !IsGone(s.threads[g]) {
      assert Possible(s, NextStep(g, s.threads[g]));
    }
  }

  // Turns the controller has to take until it is ready again or has returned.
  function TurnsLeft(at: Position): nat {
    match at
    case Ready => 0
    case Halted => 0
    case Spawning => 1
    case Launching => 2
    case Joining(_, then_) => if then_.Launch? then 3 else 1
    case Signalling(_, then_) => if then_.Launch? then 4 else 2
  }

  // Each turn of the controller other than taking a command brings it one closer, and nobody else's
  // step sets it back.
  lemma {:induction false} TurnsComeCloser(s: State, a: Action)
    requires Possible(s, a) && !a.Receive?
    ensures TurnsLeft(Step(s, a).at)
         == if a.Announce? || a.Spawn? || a.Signal? || a.Join? then TurnsLeft(s.at) - 1 else TurnsLeft(s.at)
    ensures a.Signal? ==> Step(s, a).at == Joining(s.at.stopped, s.at.then_) && s.at.stopped in Step(s, a).signalled
    ensures a.Signal? ==> forall g :: g in Step(s, a).signalled ==> g in s.signalled || g == s.at.stopped
  {
  }

  // ----- Every stop is reported -----

  // The server was told to stop, or is about to be.
  predicate ToldToStop(s: State, g: nat) {
    g in s.signalled || (s.at.Signalling? && s.at.stopped == g)
  }

  ghost predicate Reports(events: seq<Status>, status: Status) {
    exists i :: 0 <= i < |events| && events[i] == status
  }

  // Its Stopping was sent then, once, and after its Starting.
  ghost predicate StopReported(s: State, g: nat) {
    && Stops(s.events, g) == (if ToldToStop(s, g) then 1 else 0)
    && forall i :: 0 <= i < |s.events| && s.events[i] == Status(g, Stopping) ==>
         Reports(s.events[..i], Status(g, Starting))
  }

  ghost predicate StopsReported(s: State) {
    && (forall g :: StopReported(s, g))
    && (forall g :: ToldToStop(s, g) ==> g in s.threads)
    && (forall g :: s.running == Some(g) ==> !ToldToStop(s, g))
    && (forall g :: g in s.threads || (s.at.Spawning? && g == s.generation) ==> Reports(s.events, Status(g, Starting)))
  }

  lemma {:induction false} ReportsStay(events: seq<Status>, e: Status, status: Status)
    ensures Reports(events, status) || e == status <==> Reports(events + [e], status)
  {
    if e == status {
      assert (events + [e])[|events|] == status;
    }
    if i :| 0 <= i < |events| && events[i] == status {
      assert (events + [e])[i] == status;
    }
  }

  // A status that is no Stopping changes nothing about stops.
  lemma {:induction false} OtherReportsStop(s: State, t: State, e: Status, g: nat)
    requires StopReported(s, g) && t.events == s.events + [e] && !e.kind.Stopping?
    requires ToldToStop(t, g) <==> ToldToStop(s, g)
    ensures StopReported(t, g)
  {
    OwnAppend(s.events, e, g);
    forall i | 0 <= i < |t.events| && t.events[i] == Status(g, Stopping)
      ensures Reports(t.events[..i], Status(g, Starting))
    {
      assert i < |s.events| && t.events[..i] == s.events[..i];
    }
  }

  lemma {:induction false} StopIsAdded(s: State, t: State, stopped: nat, g: nat)
    requires StopReported(s, g) && !ToldToStop(s, stopped) && Reports(s.events, Status(stopped, Starting))
    requires t.events == s.events + [Status(stopped, Stopping)]
    requires ToldToStop(t, g) <==> ToldToStop(s, g) || g == stopped
    ensures StopReported(t, g)
  {
    OwnAppend(s.events, Status(stopped, Stopping), g);
    forall i | 0 <= i < |t.events| && t.events[i] == Status(g, Stopping)
      ensures Reports(t.events[..i], Status(g, Starting))
    {
      assert t.events[..i] == s.events[..i];
      assert s.events[..|s.events|] == s.events;
    }
  }

  lemma {:induction false} HandleReportsStops(s: State, command: Command)
    requires StopsReported(s) && Servers(s) && s.at.Ready?
    ensures StopsReported(Handle(s, command))
  {
    var t := Handle(s, command);
    if t.events == s.events {
      forall g ensures StopReported(t, g) {
        assert StopReported(s, g);
      }
    } else {
      var stopped := s.running.value;
      assert Holds(s, stopped);
      forall g ensures StopReported(t, g) {
        StopIsAdded(s, t, stopped, g);
      }
      forall g ensures Reports(s.events, Status(g, Starting)) ==> Reports(t.events, Status(g, Starting)) {
        ReportsStay(s.events, Status(stopped, Stopping), Status(g, Starting));
      }
    }
  }

  lemma {:induction false} ReportKeepsStops(s: State, t: State, e: Status)
    requires StopsReported(s) && t.events == s.events + [e] && !e.kind.Stopping?
    requires t.signalled == s.signalled && t.at.Signalling? == s.at.Signalling? && t.running == s.running
    requires s.at.Signalling? ==> t.at.stopped == s.at.stopped
    requires t.threads.Keys == s.threads.Keys && (t.at.Spawning? ==> t.generation == e.generation && e.kind.Starting?)
    ensures StopsReported(t)
  {
    forall g ensures StopReported(t, g) {
      OtherReportsStop(s, t, e, g);
    }
    forall g ensures Reports(s.events, Status(g, Starting)) ==> Reports(t.events, Status(g, Starting)) {
      ReportsStay(s.events, e, Status(g, Starting));
    }
    ReportsStay(s.events, e, e);
  }

  lemma {:induction false} QuietKeepsStops(s: State, t: State)
    requires StopsReported(s) && t.events == s.events
    requires forall g :: ToldToStop(t, g) <==> ToldToStop(s, g)
    requires forall g :: g in s.threads ==> g in t.threads
    requires forall g :: g in t.threads ==> g in s.threads || (s.at.Spawning? && g == s.generation)
    requires forall g :: t.running == Some(g) ==> !ToldToStop(t, g)
    requires t.at.Spawning? ==> s.at.Spawning? && t.generation == s.generation
    ensures StopsReported(t)
  {
    forall g ensures StopReported(t, g) {
      assert StopReported(s, g);
    }
  }

  lemma {:induction false} StepReportsStops(s: State, a: Action)
    requires StopsReported(s) && Servers(s) && Possible(s, a)
    ensures StopsReported(Step(s, a))
  {
    var t := Step(s, a);
    match a
    case Receive =>
      QuietKeepsStops(s, s.(queue := s.queue[1..]));
      ServersIgnoreStatuses(s, s.queue[1..], s.events);
      HandleReportsStops(s.(queue := s.queue[1..]), s.queue[0]);
    case Announce => ReportKeepsStops(s, t, Status(t.generation, Starting));
    case Boot(g) => ReportKeepsStops(s, t, Status(g, Running));
    case Break(g) => ReportKeepsStops(s, t, Status(g, Failed));
    case Obey(g, failed) => ReportKeepsStops(s, t, Status(g, if failed then Failed else Stopped));
    case Quit(g, failed) => ReportKeepsStops(s, t, Status(g, if failed then Failed else Stopped));
    case _ => QuietKeepsStops(s, t);
  }

  // In every reachable state: a server's Stopping was sent, once and after its Starting, exactly when
  // the server was told to stop or is about to be.
  lemma {:induction false} StopsAreReportedExactly(states: seq<State>, i: nat, g: nat)
    requires IsRun(states) && i < |states|
    ensures Stops(states[i].events, g) == 1
            <==> g in states[i].signalled || (states[i].at.Signalling? && states[i].at.stopped == g)
    ensures forall k :: 0 <= k < |states[i].events| && states[i].events[k] == Status(g, Stopping) ==>
              exists j :: 0 <= j < k && states[i].events[j] == Status(g, Starting)
  {
    RunReportsStops(states, i);
    assert StopReported(states[i], g);
    forall k | 0 <= k < |states[i].events| && states[i].events[k] == Status(g, Stopping)
      ensures exists j :: 0 <= j < k && states[i].events[j] == Status(g, Starting)
    {
      var j :| 0 <= j < |states[i].events[..k]| && states[i].events[..k][j] == Status(g, Starting);
      assert states[i].events[j] == Status(g, Starting);
    }
  }

  lemma {:induction false} FollowingReportsStops(s: State, t: State)
    requires StopsReported(s) && Servers(s) && Follows(s, t)
    ensures StopsReported(t)
  {
    var a :| Possible(s, a) && t == Step(s, a);
    StepReportsStops(s, a);
  }

  lemma {:induction false} RunReportsStops(states: seq<State>, i: nat)
    requires IsRun(states) && i < |states|
    ensures StopsReported(states[i])
  {
    if i > 0 {
      RunReportsStops(states, i - 1);
      RunKeepsInv(states, i - 1);
      assert StepAt(states, i - 1);
      FollowingReportsStops(states[i - 1], states[i]);
    }
  }

  // Taking Stop, Restart or Exit with a server kept sends its Stopping and nothing else, and the server
  // is told next; taking any other command, or one of these with no server kept, sends nothing.
  lemma {:induction false} TakingReportsExactly(s: State)
    requires Possible(s, Receive)
    ensures var command, t := s.queue[0], Step(s, Receive);
            if s.running.Some? && (command.Stop? || command.Restart? || command.Exit?) then
              && t.events == s.events + [Status(s.running.value, Stopping)] && t.running == None
              && t.at.Signalling? && t.at.stopped == s.running.value
            else t.events == s.events
  {
  }

  // ----- Commands take effect -----

  // What a command asks for; None for one that is ignored.
  function Asks(s: State, command: Command): Option<Then> {
    match command
    case Start => if s.running.None? then Some(Launch) else None
    case Stop => Some(Rest)
    case Restart => Some(Launch)
    case Exit => Some(Halt)
    case Exited(g) => if s.running == Some(g) then Some(Rest) else None
  }

  // Taken when the newest generation was g and not done yet.
  predicate Pending(s: State, then_: Then, g: nat) {
    || ((s.at.Signalling? || s.at.Joining?) && s.at.then_ == then_ && s.generation == g)
    || (then_.Launch? && s.at.Launching? && s.generation == g)
    || (then_.Launch? && s.at.Spawning? && s.generation == g + 1)
  }

  // Done: nothing runs, the next generation runs, or the controller has returned.
  predicate Done(s: State, then_: Then, g: nat) {
    match then_
    case Rest => s.at.Ready? && s.running.None? && s.generation == g
    case Launch => s.at.Ready? && s.generation == g + 1 && s.running == Some(g + 1) && Alive(s, g + 1)
    case Halt => s.at.Halted? && s.running.None? && s.generation == g
  }

  predicate InHand(s: State, then_: Then, g: nat) {
    Pending(s, then_, g) || Done(s, then_, g)
  }

  lemma {:induction false} PendingStays(s: State, a: Action, then_: Then, g: nat)
    requires Servers(s) && Possible(s, a) && Pending(s, then_, g)
    ensures InHand(Step(s, a), then_, g)
  {
  }

  lemma {:induction false} FollowsPending(s: State, t: State, then_: Then, g: nat)
    requires Servers(s) && Follows(s, t) && InHand(s, then_, g) && !Done(s, then_, g)
    ensures InHand(t, then_, g)
  {
    var a :| Possible(s, a) && t == Step(s, a);
    PendingStays(s, a, then_, g);
  }

  lemma {:induction false} TakenIsInHand(s: State, then_: Then)
    requires Servers(s) && Possible(s, Receive) && Asks(s, s.queue[0]) == Some(then_)
    ensures InHand(Step(s, Receive), then_, s.generation)
  {
  }

  lemma {:induction false} RunKeepsServers(states: seq<State>, i: nat)
    requires IsRun(states) && i < |states|
    ensures Servers(states[i]) && (i + 1 < |states| ==> Follows(states[i], states[i + 1]))
  {
    RunKeepsInv(states, i);
    assert StepAt(states, i);
  }

  ghost predicate Undone(states: seq<State>, i: nat, j: nat, then_: Then, g: nat)
    requires j <= |states|
  {
    forall k :: i < k < j ==> !Done(states[k], then_, g)
  }

  // The step taken at i is a command that asks for this.
  ghost predicate TakesCommand(states: seq<State>, i: nat, then_: Then) {
    && i + 1 < |states| && Possible(states[i], Receive) && states[i + 1] == Step(states[i], Receive)
    && Asks(states[i], states[i].queue[0]) == Some(then_)
  }

  // From the moment a command is taken the controller does what it asks for and nothing else, until
  // it is done, whatever the threads and the senders do meanwhile.
  lemma {:induction false} CommandsTakeEffect(states: seq<State>, i: nat, j: nat, then_: Then)
    requires IsRun(states) && i < j < |states| && TakesCommand(states, i, then_)
    requires Undone(states, i, j, then_, states[i].generation)
    ensures InHand(states[j], then_, states[i].generation)
  {
    RunKeepsServers(states, j - 1);
    if i == j - 1 {
      TakenIsInHand(states[i], then_);
    } else {
      CommandsTakeEffect(states, i, j - 1, then_);
      FollowsPending(states[j - 1], states[j], then_, states[i].generation);
    }
  }

  // ----- When a start is acted on -----

  // The run with the action of each step.
  ghost predicate Takes(states: seq<State>, actions: seq<Action>) {
    && |states| == |actions| + 1 && states[0] == IDLE
    && forall i :: ActionAt(states, actions, i)
  }

  ghost predicate ActionAt(states: seq<State>, actions: seq<Action>, i: int)
    requires |states| == |actions| + 1
  {
    0 <= i < |actions| ==> Possible(states[i], actions[i]) && states[i + 1] == Step(states[i], actions[i])
  }

  lemma {:induction false} TakesIsRun(states: seq<State>, actions: seq<Action>)
    requires Takes(states, actions)
    ensures IsRun(states)
  {
    forall i ensures StepAt(states, i) {
      assert ActionAt(states, actions, i);
    }
  }

  lemma {:induction false} TakesStep(states: seq<State>, actions: seq<Action>, k: nat)
    requires Takes(states, actions) && k < |actions|
    ensures Servers(states[k]) && Possible(states[k], actions[k]) && states[k + 1] == Step(states[k], actions[k])
  {
    TakesIsRun(states, actions);
    RunKeepsInv(states, k);
    assert ActionAt(states, actions, k);
  }

  // Which server is kept, and the newest generation.
  datatype Outlook = Outlook(running: Option<nat>, generation: nat)

  function Newer(o: Outlook): Outlook {
    Outlook(Some(o.generation + 1), o.generation + 1)
  }

  // After a stop.
  function Onward(generation: nat, then_: Then): Outlook {
    if then_.Launch? then Newer(Outlook(None, generation)) else Outlook(None, generation)
  }

  // The outlook when the controller is next ready.
  function Upcoming(s: State): Outlook {
    match s.at
    case Ready => Outlook(s.running, s.generation)
    case Launching => Newer(Outlook(None, s.generation))
    case Spawning => Outlook(Some(s.generation), s.generation)
    case Signalling(_, then_) => Onward(s.generation, then_)
    case Joining(_, then_) => Onward(s.generation, then_)
    case Halted => Outlook(None, s.generation)
  }

  function Taken(o: Outlook, command: Command): Outlook {
    match command
    case Start => if o.running.None? then Newer(o) else o
    case Stop => o.(running := None)
    case Restart => Newer(o)
    case Exit => o.(running := None)
    case Exited(g) => if o.running == Some(g) then o.(running := None) else o
  }

  function Foreseen(o: Outlook, queue: seq<Command>): Outlook
    decreases queue
  {
    if queue == [] then o else Foreseen(Taken(o, queue[0]), queue[1..])
  }

  // Taking a command changes the outlook as foreseen; no other step of anyone changes it.
  lemma {:induction false} StepKeepsOutlook(s: State, a: Action)
    requires Servers(s) && Possible(s, a)
    ensures Upcoming(Step(s, a)) == if a.Receive? then Taken(Upcoming(s), s.queue[0]) else Upcoming(s)
    ensures if a.Receive? then Step(s, a).queue == s.queue[1..] else s.queue <= Step(s, a).queue
  {
  }

  function Received(actions: seq<Action>, i: nat, k: nat): nat
    requires i <= k <= |actions|
  {
    if i == k then 0 else Received(actions, i, k - 1) + if actions[k - 1].Receive? then 1 else 0
  }

  // The queue starts with these commands and then a start, and foresees this outlook before it.
  ghost predicate Waits(s: State, ahead: seq<Command>, outlook: Outlook) {
    ahead + [Start] <= s.queue && Foreseen(Upcoming(s), ahead) == outlook
  }

  lemma {:induction false} StepKeepsWaiting(s: State, a: Action, ahead: seq<Command>, outlook: Outlook)
    requires Servers(s) && Possible(s, a) && Waits(s, ahead, outlook) && (a.Receive? ==> ahead != [])
    ensures Waits(Step(s, a), if a.Receive? then ahead[1..] else ahead, outlook)
  {
    StepKeepsOutlook(s, a);
    if a.Receive? {
      assert s.queue[0] == (ahead + [Start])[0] == ahead[0];
      assert (ahead + [Start])[1..] == ahead[1..] + [Start];
      assert s.queue[1..][..|ahead|] == s.queue[..|ahead| + 1][1..];
    }
  }

  lemma {:induction false} StartWaits(states: seq<State>, actions: seq<Action>, i: nat, k: nat)
    requires Takes(states, actions) && i < k <= |actions| && actions[i] == Send(Start) && !states[i].at.Halted?
    requires Received(actions, i + 1, k) <= |states[i].queue|
    ensures Waits(states[k], states[i].queue[Received(actions, i + 1, k)..],
                  Foreseen(Upcoming(states[i]), states[i].queue))
  {
    var ahead := states[i].queue;
    if k == i + 1 {
      TakesStep(states, actions, i);
      StepKeepsOutlook(states[i], actions[i]);
      assert ahead[0..] == ahead;
    } else {
      StartWaits(states, actions, i, k - 1);
      TakesStep(states, actions, k - 1);
      var n := Received(actions, i + 1, k - 1);
      StepKeepsWaiting(states[k - 1], actions[k - 1], ahead[n..], Foreseen(Upcoming(states[i]), ahead));
      assert n < |ahead| ==> ahead[n..][1..] == ahead[n + 1..];
    }
  }

  // A start sent at step i is taken at step j, when all that was queued before it is taken. It
  // launches a server exactly when, at the time it was sent, the queue left none; otherwise taking
  // it changes nothing but the queue.
  lemma {:induction false} StartIsActedOnExactly(states: seq<State>, actions: seq<Action>, i: nat, j: nat)
    requires Takes(states, actions) && i < j < |actions| && actions[i] == Send(Start) && !states[i].at.Halted?
    requires actions[j] == Receive && Received(actions, i + 1, j) == |states[i].queue|
    ensures states[j].queue != [] && states[j].queue[0] == Start
    ensures states[j + 1] == states[j].(
              queue := states[j].queue[1..],
              at := if Foreseen(Upcoming(states[i]), states[i].queue).running.None? then Launching else Ready)
  {
    StartWaits(states, actions, i, j);
    TakesStep(states, actions, j);
    assert states[i].queue[|states[i].queue|..] == [];
    assert [Start] <= states[j].queue;
    assert states[j].queue[0] == [Start][0];
  }

  ghost predicate OnlyNotices(queue: seq<Command>) {
    forall k :: 0 <= k < |queue| ==> queue[k].Exited?
  }

  lemma {:induction false} NoticesClear(o: Outlook, queue: seq<Command>)
    requires OnlyNotices(queue)
    ensures Foreseen(o, queue).running.None? <==> o.running.None? || Exited(o.running.value) in queue
    decreases queue
  {
    if queue != [] {
      NoticesClear(Taken(o, queue[0]), queue[1..]);
      assert queue == [queue[0]] + queue[1..];
    }
  }

  // Sent to a ready controller with nothing but exit notices queued, a start is acted on exactly
  // when no server is kept or the one kept has sent its own notice.
  lemma {:induction false} StartAfterNoticesIsActedOnExactly(states: seq<State>, actions: seq<Action>, i: nat, j: nat)
    requires Takes(states, actions) && i < j < |actions| && actions[i] == Send(Start)
    requires states[i].at.Ready? && OnlyNotices(states[i].queue)
    requires actions[j] == Receive && Received(actions, i + 1, j) == |states[i].queue|
    ensures states[i].running.Some? ==> states[i].running.value in states[i].threads
    ensures states[j].queue != [] && states[j].queue[0] == Start
    ensures states[j + 1] == states[j].(
              queue := states[j].queue[1..],
              at := if states[i].running.None? || HasNotified(states[i].threads[states[i].running.value])
                    then Launching else Ready)
  {
    StartIsActedOnExactly(states, actions, i, j);
    TakesIsRun(states, actions);
    RunKeepsInv(states, i);
    NoticesClear(Upcoming(states[i]), states[i].queue);
    if states[i].running.Some? {
      assert Holds(states[i], states[i].running.value);
    }
  }

  // ----- A start can be lost -----

  lemma {:induction false} Extend(states: seq<State>, a: Action) returns (longer: seq<State>)
    requires IsRun(states) && Possible(states[|states| - 1], a)
    ensures IsRun(longer) && |longer| == |states| + 1 && longer[..|states|] == states
    ensures longer[|states|] == Step(states[|states| - 1], a)
  {
    longer := states + [Step(states[|states| - 1], a)];
    forall i ensures StepAt(longer, i) {
      assert StepAt(states, i);
      if i == |states| - 1 {
        assert Possible(longer[i], a);
      }
    }
  }

  // The server has reported that it stopped, its exit notice is not sent yet, and a start is sent.
  const STOPPED_BY_ITSELF :=
    State([Start], [Status(1, Starting), Status(1, Running), Status(1, Stopped)],
        map[1 := Ended(true, false, Reported)],
          {}, Some(1), 1, Ready)

  lemma {:induction false} StartAfterStopped() returns (states: seq<State>)
    ensures IsRun(states) && states[|states| - 1] == STOPPED_BY_ITSELF
  {
    states := [IDLE];
    states := Extend(states, Send(Start));
    states := Extend(states, Receive);
    states := Extend(states, Announce);
    states := Extend(states, Spawn);
    assert states[|states| - 1] == State([], [Status(1, Starting)], map[1 := Booting], {}, Some(1), 1, Ready);
    states := Extend(states, Boot(1));
    states := Extend(states, Quit(1, false));
    states := Extend(states, Send(Start));
  }

  ghost predicate LosesStart(states: seq<State>, i: nat) {
    && IsRun(states) && i < |states| && states[i] == STOPPED_BY_ITSELF
    && var last := states[|states| - 1];
       last.queue == [] && last.at.Ready? && last.running.None? && last.events == STOPPED_BY_ITSELF.events
  }

  // Started after the last server has reported that it stopped, but before its exit notice was
  // handled: the command is taken and no server results.
  lemma {:induction false} StartAfterStoppedCanBeLost()
    ensures exists states, i :: LosesStart(states, i)
  {
    var states := StartAfterStopped();
    var i := |states| - 1;
    states := Extend(states, Notify(1));
    states := Extend(states, Receive);
    states := Extend(states, Receive);
    states := Extend(states, Leave(1));
    states := Extend(states, Join);
    assert states[i] == STOPPED_BY_ITSELF;
    assert LosesStart(states, i);
  }

  // ----- The controller's own code -----

  class Controller {
    var queue: seq<Command>
    var events: seq<Status>
    var threads: map<nat, Thread>
    var signalled: set<nat>
    var running: Option<nat>
    var generation: nat
    var at: Position

    ghost function Now(): State
      reads this
    {
      State(queue, events, threads, signalled, running, generation, at)
    }

    constructor ()
      ensures Now() == IDLE
    {
      queue, events, threads, signalled, running, generation, at := [], [], map[], {}, None, 0, Ready;
    }

    method SendStatus(g: nat, kind: Kind)
      modifies `events
      ensures events == old(events) + [Status(g, kind)]
    {
      events := events + [Status(g, kind)];
    }

    // Up to the point where the server is told to shut down.
    method StopServer(then_: Then)
      modifies this
      ensures Now() == StopThen(old(Now()), then_)
    {
      if running.None? {
        at := After(then_);
        return;
      }
      var server := running.value;
      running := None;
      SendStatus(server, Stopping);
      at := Signalling(server, then_);
    }

    method Receive()
      requires Possible(Now(), Action.Receive)
      modifies this
      ensures Now() == Step(old(Now()), Action.Receive)
    {
      var command := queue[0];
      queue := queue[1..];
      match command {
        case Start =>
          if running.None? {
            at := Launching;
          }
        case Stop => StopServer(Rest);
        case Restart => StopServer(Launch);
        case Exit => StopServer(Halt);
        case Exited(g) =>
          if running == Some(g) {
            running := None;
            at := Joining(g, Rest);
          }
      }
    }

    method Announce()
      requires Possible(Now(), Action.Announce)
      modifies this
      ensures Now() == Step(old(Now()), Action.Announce)
    {
      generation := generation + 1;
      SendStatus(generation, Starting);
      at := Spawning;
    }

    method StartServer()
      requires Possible(Now(), Spawn)
      modifies this
      ensures Now() == Step(old(Now()), Spawn)
    {
      threads := threads[generation := Booting];
      running := Some(generation);
      at := Ready;
    }

    method Signal()
      requires Possible(Now(), Action.Signal)
      modifies this
      ensures Now() == Step(old(Now()), Action.Signal)
    {
      signalled := signalled + {at.stopped};
      at := Joining(at.stopped, at.then_);
    }

    method Join()
      requires Possible(Now(), Action.Join)
      modifies this
      ensures Now() == Step(old(Now()), Action.Join)
    {
      at := After(at.then_);
    }

    method Turn(a: Action)
      requires a in {Action.Receive, Action.Announce, Spawn, Action.Signal, Action.Join} && Possible(Now(), a)
      modifies this
      ensures Now() == Step(old(Now()), a)
    {
      match a {
        case Receive => Receive();
        case Announce => Announce();
        case Spawn => StartServer();
        case Signal => Signal();
        case Join => Join();
        case _ =>
      }
    }

    // A step of a server thread or of a sender of commands.
    method Others(a: Action)
      requires a !in {Action.Receive, Action.Announce, Spawn, Action.Signal, Action.Join} && Possible(Now(), a)
      modifies `queue, `events, `threads
      ensures Now() == Step(old(Now()), a)
    {
      match a {
        case Send(command) => Deliver(command);
        case Boot(g) => SendOwn(g, Kind.Running, Serving);
        case Break(g) => SendOwn(g, Failed, Ended(false, true, Reported));
        case Obey(g, failed) => SendOwn(g, if failed then Failed else Stopped, Ended(true, failed, Reported));
        case Quit(g, failed) => SendOwn(g, if failed then Failed else Stopped, Ended(true, failed, Reported));
        case Notify(g) =>
          threads := threads[g := threads[g].(leaving := Notified)];
          Deliver(Exited(g));
        case Leave(g) => threads := threads[g := threads[g].(leaving := Gone)];
        case _ =>
      }
    }

    method Deliver(command: Command)
      modifies `queue
      ensures Now() == Delivered(old(Now()), command)
    {
      if !at.Halted? {
        queue := queue + [command];
      }
    }

    method SendOwn(g: nat, kind: Kind, thread: Thread)
      modifies `events, `threads
      ensures Now() == Report(old(Now()), g, kind, thread)
    {
      threads := threads[g := thread];
      SendStatus(g, kind);
    }

    // The controller's turns among the steps of everyone else, in the order of any run.
    method Run(schedule: seq<Action>, ghost states: seq<State>)
      requires Now() == IDLE && Takes(states, schedule)
      modifies this
      ensures Now() == states[|schedule|] && Inv(Now())
    {
      for i := 0 to |schedule|
        invariant Now() == states[i]
      {
        TakesStep(states, schedule, i);
        if schedule[i] in {Action.Receive, Action.Announce, Spawn, Action.Signal, Action.Join} {
          Turn(schedule[i]);
        } else {
          Others(schedule[i]);
        }
      }
      TakesIsRun(states, schedule);
      RunKeepsInv(states, |schedule|);
    }
  }
}
