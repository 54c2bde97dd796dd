/** Which thread talks to which: every pointer to a pipe leads to the right one, and what is posted at one end of
    a channel is what is received at the other. */
module WorkerRouting {
  import opened Options
  import opened RefCounts
  import opened WorkerPipe
  import opened WorkerSafety

  // ----- where the pointers lead -----

  datatype Way = Down | Up

  /** Each thread that was started has two channels: down to it and up from it. */
  datatype Channel = Channel(child: Tid, way: Way)

  /** The channel that a pointer is an end of. A port listens to what its Worker object receives from. */
  function Role(h: Holder): Channel {
    match h
    case ThreadRecv(t) => Channel(t, Down)
    case ThreadSend(t) => Channel(t, Up)
    case WorkerRecv(w) => Hears(w)
    case PortRecv(w) => Hears(w)
    case WorkerSend(w) => Speaks(w)
  }

  function Hears(w: Worker): Channel {
    if w.peer.Some? then Channel(w.peer.value, Up) else Channel(w.owner, Down)
  }

  function Speaks(w: Worker): Channel {
    if w.peer.Some? then Channel(w.peer.value, Down) else Channel(w.owner, Up)
  }

  /** Two pointers lead to the same pipe exactly if they are ends of the same channel. */
  ghost predicate Routed(holds: map<Holder, PipeId>, threads: map<Tid, Ctl>) {
    && (forall h | h in holds :: Role(h).child in threads)
    && forall h, k | h in holds && k in holds :: holds[h] == holds[k] <==> Role(h) == Role(k)
  }

  lemma RoutedLess(holds: map<Holder, PipeId>, threads: map<Tid, Ctl>, h: Holder)
    requires Routed(holds, threads)
    ensures Routed(holds - {h}, threads)
  {
  }

  /** One more pointer, to the pipe of another end of its channel. */
  lemma RoutedDup(holds: map<Holder, PipeId>, threads: map<Tid, Ctl>, h: Holder, k: Holder)
    requires Routed(holds, threads) && k in holds && h !in holds && Role(h) == Role(k)
    ensures Routed(holds[h := holds[k]], threads)
  {
    hide Role;
  }

  /** The first pointer to a new pipe, an end of a channel that had none. */
  lemma RoutedNew(holds: map<Holder, PipeId>, threads: map<Tid, Ctl>, h: Holder, p: PipeId)
    requires Routed(holds, threads) && h !in holds && Role(h).child in threads
    requires forall k | k in holds :: holds[k] != p && Role(k) != Role(h)
    ensures Routed(holds[h := p], threads)
  {
    hide Role;
  }

  lemma RoutedThreads(holds: map<Holder, PipeId>, threads: map<Tid, Ctl>, more: map<Tid, Ctl>)
    requires Routed(holds, threads) && threads.Keys <= more.Keys
    ensures Routed(holds, more)
  {
    hide Role;
  }

  /** What a step that starts no thread does to the pointers: nothing, it drops one, or it copies one within
      its channel. */
  ghost predicate SameRoutes(s: State, s': State) {
    && s.threads.Keys <= s'.threads.Keys
    && (|| s'.holds == s.holds
        || (exists h :: s'.holds == s.holds - {h})
        || exists h, k :: Copied(s.holds, s'.holds, h, k))
  }

  ghost predicate Copied(holds: map<Holder, PipeId>, more: map<Holder, PipeId>, h: Holder, k: Holder) {
    k in holds && h !in holds && Role(h) == Role(k) && more == holds[h := holds[k]]
  }

  lemma SameRoutesKeep(s: State, s': State)
    requires Routed(s.holds, s.threads) && SameRoutes(s, s')
    ensures Routed(s'.holds, s'.threads)
  {
    hide Role;
    if s'.holds == s.holds {
    } else if h :| s'.holds == s.holds - {h} {
      RoutedLess(s.holds, s.threads, h);
    } else {
      var h, k :| Copied(s.holds, s'.holds, h, k);
      RoutedDup(s.holds, s.threads, h, k);
    }
    RoutedThreads(s'.holds, s.threads, s'.threads);
  }

  /** Only `Worker.parent` is built in two steps. */
  ghost predicate Builders(threads: map<Tid, Ctl>) {
    forall t | t in threads && threads[t].Building? :: threads[t].w.owner == t && threads[t].w.peer == None
  }

  /** A step is the business of the thread that takes it. It alters no message and no history of a pipe, and
      brings nobody nearer to appending a message. */
  ghost predicate Quiet(s: State, s': State, t: Tid) {
    Still(s, s', t) && (s'.threads[t].Building? ==> s'.threads[t] == s.threads[t])
  }

  ghost predicate Still(s: State, s': State, t: Tid) {
    && (forall u | u in s.threads && u != t :: u in s'.threads && s'.threads[u] == s.threads[u])
    && t in s.threads && t in s'.threads && (forall u | u in s'.threads :: u in s.threads || s'.threads[u] == Idle)
    && (Undelivered(s'.threads[t]) ==>
          Undelivered(s.threads[t]) && s'.threads[t].w == s.threads[t].w && s'.threads[t].m == s.threads[t].m)
    && (forall m | m in s.msgs && m in s'.msgs :: s'.msgs[m].body == s.msgs[m].body)
    && (forall m | m in s'.msgs :: m in s.msgs)
    && forall p | p in s'.pipes ::
         if p in s.pipes then s'.pipes[p].sent == s.pipes[p].sent && s'.pipes[p].received == s.pipes[p].received
         else s'.pipes[p].sent == [] && s'.pipes[p].received == []
  }

  /** The thread has a message in hand that it is about to append. */
  predicate Undelivered(c: Ctl) {
    c.Posting? && c.post != PostUnlocking
  }

  /** Who takes the step. */
  function Actor(a: Action): Tid {
    match a
    case Post(w, _, _) => w.owner
    case Handle(w) => w.owner
    case SetOnMessage(w, _) => w.owner
    case Finalize(w) => w.owner
    case _ => a.t
  }

  lemma QuietSabs(s: State, a: Action)
    requires (a.NewSab? || a.DropObject? || a.PostDup? || a.Adopt? || a.FreeEntry?) && Do(s, a).Next?
    ensures Quiet(s, Do(s, a).state, Actor(a)) && Do(s, a).state.holds == s.holds
  {
  }

  lemma QuietPosts(s: State, a: Action)
    requires (a.PostLock? || a.PostSignal? || a.PostUnlock?) && Do(s, a).Next?
    ensures Quiet(s, Do(s, a).state, Actor(a)) && Do(s, a).state.holds == s.holds
  {
  }

  lemma QuietHandles(s: State, a: Action)
    requires (a.Handle? || a.HandleLock? || a.HandleDrain? || a.HandleUnlock? || a.ReadDone?) && Do(s, a).Next?
    ensures Quiet(s, Do(s, a).state, Actor(a)) && Do(s, a).state.holds == s.holds
  {
  }

  lemma QuietReleases(s: State, a: Action)
    requires (a.FreeMessage? || a.ReleaseDone?) && Do(s, a).Next?
    ensures Quiet(s, Do(s, a).state, Actor(a)) && Do(s, a).state.holds == s.holds
  {
  }

  lemma QuietEnds(s: State, a: Action)
    requires (a.Finalize? || a.Exit?) && Do(s, a).Next?
    ensures Quiet(s, Do(s, a).state, Actor(a)) && Do(s, a).state.holds == s.holds
  {
  }

  lemma QuietRelease(s: State, t: Tid)
    requires DoReleasePipe(s, t).Next?
    ensures Quiet(s, DoReleasePipe(s, t).state, t)
  {
  }

  lemma QuietParent(s: State, t: Tid)
    requires DoParentSend(s, t).Next?
    ensures Quiet(s, DoParentSend(s, t).state, t)
  {
  }

  lemma QuietPort(s: State, t: Tid, w: Worker, func: Option<nat>)
    requires DoSetOnMessage(s, t, w, func).Next?
    ensures Quiet(s, DoSetOnMessage(s, t, w, func).state, t)
  {
    hide DupPipe;
    if func.Some? && w !in s.ports {
      DupIs(s, PortRecv(w), WorkerRecv(w));
    }
  }

  lemma DupIs(s: State, h: Holder, from: Holder)
    requires DupPipe(s, h, from).Next?
    ensures var s' := DupPipe(s, h, from).state;
            && s'.threads == s.threads && s'.msgs == s.msgs && s'.workers == s.workers && s'.ports == s.ports
            && s'.pipes.Keys == s.pipes.Keys
            && forall p | p in s.pipes :: s'.pipes[p].sent == s.pipes[p].sent && s'.pipes[p].received == s.pipes[p].received
  {
  }

  lemma QuietStart(s: State, t: Tid, w: Worker, p: PipeId, q: PipeId, child: Tid)
    requires DoStartWorker(s, t, w, p, q, child).Next? && w.owner == t
    ensures Quiet(s, DoStartWorker(s, t, w, p, q, child).state, t)
  {
    hide DoStartWorker, WorkerHolds;
    Started(s, t, w, p, q, child);
  }

  lemma QuietSteps(s: State, a: Action)
    requires Do(s, a).Next? && !a.Post? && !a.PostAppend? && !a.HandleTake? && !a.ParentRecv?
    ensures Quiet(s, Do(s, a).state, Actor(a))
  {
    hide Quiet, DoStartWorker, DoReleasePipe, DoParentSend, DoSetOnMessage;
    match a
    case StartWorker(t, id, p, q, child) => QuietStart(s, t, Worker(t, id, Some(child)), p, q, child);
    case ReleasePipe(t) => QuietRelease(s, t);
    case ParentSend(t) => QuietParent(s, t);
    case SetOnMessage(w, func) => QuietPort(s, w.owner, w, func);
    case _ => QuietOthers(s, a);
  }

  lemma QuietOthers(s: State, a: Action)
    requires Do(s, a).Next? && !a.Post? && !a.PostAppend? && !a.HandleTake? && !a.ParentRecv?
    requires !a.StartWorker? && !a.ReleasePipe? && !a.ParentSend? && !a.SetOnMessage?
    ensures Quiet(s, Do(s, a).state, Actor(a)) && Do(s, a).state.holds == s.holds
  {
    hide Quiet, Do;
    match a
    case NewSab(_, _, _) => QuietSabs(s, a);
    case DropObject(_, _) => QuietSabs(s, a);
    case PostDup(_) => QuietSabs(s, a);
    case Adopt(_, _, _) => QuietSabs(s, a);
    case FreeEntry(_) => QuietSabs(s, a);
    case PostLock(_) => QuietPosts(s, a);
    case PostSignal(_) => QuietPosts(s, a);
    case PostUnlock(_) => QuietPosts(s, a);
    case Handle(_) => QuietHandles(s, a);
    case HandleLock(_) => QuietHandles(s, a);
    case HandleDrain(_) => QuietHandles(s, a);
    case HandleUnlock(_) => QuietHandles(s, a);
    case ReadDone(_) => QuietHandles(s, a);
    case FreeMessage(_) => QuietReleases(s, a);
    case ReleaseDone(_) => QuietReleases(s, a);
    case Finalize(_) => QuietEnds(s, a);
    case Exit(_) => QuietEnds(s, a);
  }

  lemma StepBuilders(s: State, a: Action)
    requires Builders(s.threads) && Do(s, a).Next?
    ensures Builders(Do(s, a).state.threads)
  {
    if !a.Post? && !a.PostAppend? && !a.HandleTake? && !a.ParentRecv? {
      QuietSteps(s, a);
      hide Do;
    }
  }

  lemma StepRoutes(s: State, a: Action)
    requires Builders(s.threads) && Do(s, a).Next? && !a.StartWorker?
    ensures SameRoutes(s, Do(s, a).state)
  {
    hide SameRoutes, DoReleasePipe, DoParentRecv, DoParentSend, DoSetOnMessage;
    match a
    case ReleasePipe(t) => ReleaseRoutes(s, t);
    case ParentRecv(t, id) => ParentRecvRoutes(s, t, Worker(t, id, None));
    case ParentSend(t) => ParentBuilder(s, t); ParentSendRoutes(s, t);
    case SetOnMessage(w, func) => SetOnMessageRoutes(s, w.owner, w, func);
    case _ => OtherRoutes(s, a);
  }

  lemma ParentBuilder(s: State, t: Tid)
    requires Builders(s.threads) && DoParentSend(s, t).Next?
    ensures t in s.threads && s.threads[t].Building? && s.threads[t].w.owner == t && s.threads[t].w.peer == None
  {
    hide DupPipe;
  }

  lemma OtherRoutes(s: State, a: Action)
    requires Do(s, a).Next? && !a.StartWorker? && !a.ReleasePipe? && !a.ParentRecv? && !a.ParentSend? && !a.SetOnMessage?
    ensures SameRoutes(s, Do(s, a).state)
  {
    if a.Post? || a.PostAppend? || a.HandleTake? {
      EndSteps(s, a);
    } else {
      QuietOthers(s, a);
    }
    hide Do;
  }

  lemma EndSteps(s: State, a: Action)
    requires Do(s, a).Next? && (a.Post? || a.PostAppend? || a.HandleTake?)
    ensures var s' := Do(s, a).state; s'.holds == s.holds && s.threads.Keys <= s'.threads.Keys
  {
  }

  lemma ReleaseRoutes(s: State, t: Tid)
    requires DoReleasePipe(s, t).Next?
    ensures SameRoutes(s, DoReleasePipe(s, t).state)
  {
    var h := s.threads[t].holders[0];
    assert DoReleasePipe(s, t).state.holds == s.holds - {h};
  }

  lemma ParentRecvRoutes(s: State, t: Tid, w: Worker)
    requires DoParentRecv(s, t, w).Next? && w.owner == t && w.peer == None
    ensures SameRoutes(s, DoParentRecv(s, t, w).state)
  {
    assert Copied(s.holds, DoParentRecv(s, t, w).state.holds, WorkerRecv(w), ThreadRecv(t));
  }

  lemma ParentSendRoutes(s: State, t: Tid)
    requires DoParentSend(s, t).Next? && t in s.threads && s.threads[t].Building?
    requires s.threads[t].w.peer == None && s.threads[t].w.owner == t
    ensures SameRoutes(s, DoParentSend(s, t).state)
  {
    assert Copied(s.holds, DoParentSend(s, t).state.holds, WorkerSend(s.threads[t].w), ThreadSend(t));
  }

  lemma SetOnMessageRoutes(s: State, t: Tid, w: Worker, func: Option<nat>)
    requires DoSetOnMessage(s, t, w, func).Next?
    ensures SameRoutes(s, DoSetOnMessage(s, t, w, func).state)
  {
    var s' := DoSetOnMessage(s, t, w, func).state;
    if s'.holds != s.holds {
      assert Copied(s.holds, s'.holds, PortRecv(w), WorkerRecv(w));
    }
  }

  /** Starting a thread makes both its channels, with two ends each. */
  lemma StartRoutes(s: State, t: Tid, w: Worker, p: PipeId, q: PipeId, child: Tid)
    requires Inv(s) && Routed(s.holds, s.threads) && DoStartWorker(s, t, w, p, q, child).Next?
    requires w.owner == t && w.peer == Some(child)
    ensures var s' := DoStartWorker(s, t, w, p, q, child).state; Routed(s'.holds, s'.threads)
  {
    PipesCounted(s);
    hide Routed, Counted, DoStartWorker, Inv;
    PointersLive(s);
    Started(s, t, w, p, q, child);
    ChannelsAdded(s, t, w, p, q, child);
  }

  lemma PipesCounted(s: State)
    requires Inv(s)
    ensures Counted(PipeCounts(s.pipes), s.holds)
  {
    hide HoldersOk, ThreadsOk, LocksOk, SignalsOk, QueuesOk, PlacesOk, MessagesOk, EntriesOk, Counted;
  }

  lemma ChannelsAdded(s: State, t: Tid, w: Worker, p: PipeId, q: PipeId, child: Tid)
    requires Routed(s.holds, s.threads) && CanStart(s, t, w, p, q, child) && w.peer == Some(child)
    requires forall h | h in s.holds :: s.holds[h] in s.pipes
    ensures Routed(WorkerHolds(s.holds, w, p, q, child), s.threads[child := Idle])
  {
    hide Routed;
    var threads := s.threads[child := Idle];
    FreshChannels(s, child);
    RoutedThreads(s.holds, s.threads, threads);
    RoutedNew(s.holds, threads, ThreadRecv(child), p);
    var h1 := s.holds[ThreadRecv(child) := p];
    RoutedNew(h1, threads, ThreadSend(child), q);
    var h2 := h1[ThreadSend(child) := q];
    RoutedDup(h2, threads, WorkerRecv(w), ThreadSend(child));
    RoutedDup(h2[WorkerRecv(w) := q], threads, WorkerSend(w), ThreadRecv(child));
  }

  /** What js_worker_ctor leaves behind. */
  lemma Started(s: State, t: Tid, w: Worker, p: PipeId, q: PipeId, child: Tid)
    requires DoStartWorker(s, t, w, p, q, child).Next? && w.owner == t
    ensures CanStart(s, t, w, p, q, child)
    ensures DoStartWorker(s, t, w, p, q, child) == Next(StartedAs(s, w, p, q, child))
  {
    MayStart(s, t, w, p, q, child);
    hide DoStartWorker, WorkerHolds;
    StartedState(s, t, w, p, q, child);
  }

  function StartedAs(s: State, w: Worker, p: PipeId, q: PipeId, child: Tid): State {
    s.(pipes := s.pipes[p := EmptyPipe(2)][q := EmptyPipe(2)], holds := WorkerHolds(s.holds, w, p, q, child),
       workers := s.workers + {w}, threads := s.threads[child := Idle])
  }

  lemma MayStart(s: State, t: Tid, w: Worker, p: PipeId, q: PipeId, child: Tid)
    requires DoStartWorker(s, t, w, p, q, child) != Disabled && w.owner == t
    ensures CanStart(s, t, w, p, q, child) && ThreadRecv(t) !in s.holds
  {
    hide NewPipe, DupPipe;
  }

  lemma PointersLive(s: State)
    requires Counted(PipeCounts(s.pipes), s.holds)
    ensures forall h | h in s.holds :: s.holds[h] in s.pipes
  {
    forall h | h in s.holds
      ensures s.holds[h] in s.pipes
    {
      HolderCounts(s, h);
    }
  }

  /** A thread that does not exist yet has no channels. */
  lemma FreshChannels(s: State, child: Tid)
    requires Routed(s.holds, s.threads) && child !in s.threads
    ensures forall k | k in s.holds :: Role(k).child != child
  {
    hide Role;
  }

  // ----- every run -----

  ghost predicate RoutesOk(s: State) {
    Inv(s) && Routed(s.holds, s.threads) && Builders(s.threads)
  }

  lemma StepKeepsRoutes(s: State, a: Action)
    requires RoutesOk(s) && Do(s, a).Next?
    ensures RoutesOk(Do(s, a).state)
  {
    hide Inv, Routed, Builders, SameRoutes;
    StepSafe(s, a);
    StepBuilders(s, a);
    match a
    case StartWorker(t, id, p, q, child) => StartRoutes(s, t, Worker(t, id, Some(child)), p, q, child);
    case _ =>
      StepRoutes(s, a);
      SameRoutesKeep(s, Do(s, a).state);
  }

  lemma InitRoutes(main: Tid)
    ensures RoutesOk(Init(main))
  {
  }

  lemma {:induction false} RunKeepsRoutes(s: State, schedule: seq<Action>)
    requires RoutesOk(s)
    ensures Run(s, schedule).Next? && RoutesOk(Run(s, schedule).state)
    decreases |schedule|
  {
    hide RoutesOk, Do, Inv;
    if schedule != [] {
      assert Inv(s) by { RoutesInv(s); }
      StepSafe(s, schedule[0]);
      match Do(s, schedule[0])
      case Next(s') =>
        StepKeepsRoutes(s, schedule[0]);
        RunKeepsRoutes(s', schedule[1..]);
      case Disabled => RunKeepsRoutes(s, schedule[1..]);
      case Fault =>
    }
  }

  lemma RoutesInv(s: State)
    requires RoutesOk(s)
    ensures Inv(s)
  {
    hide Inv;
  }

  /** In every reachable state the pointers lead where they should. A port listens to what its Worker object
      receives. The Worker object of a started thread and that thread's own pointers meet crosswise, and so do
      `Worker.parent` and the pointers of its thread; so the two objects send to what the other receives. Pointers
      of different threads do not meet otherwise. */
  lemma PointersMeet(s: State, w: Worker, v: Worker)
    requires Reachable(s)
    ensures PortRecv(w) in s.holds && WorkerRecv(w) in s.holds ==> s.holds[PortRecv(w)] == s.holds[WorkerRecv(w)]
    ensures w.peer.Some? && WorkerSend(w) in s.holds && ThreadRecv(w.peer.value) in s.holds ==>
              s.holds[WorkerSend(w)] == s.holds[ThreadRecv(w.peer.value)]
    ensures w.peer.Some? && WorkerRecv(w) in s.holds && ThreadSend(w.peer.value) in s.holds ==>
              s.holds[WorkerRecv(w)] == s.holds[ThreadSend(w.peer.value)]
    ensures w.peer.None? && WorkerRecv(w) in s.holds && ThreadRecv(w.owner) in s.holds ==>
              s.holds[WorkerRecv(w)] == s.holds[ThreadRecv(w.owner)]
    ensures w.peer.None? && WorkerSend(w) in s.holds && ThreadSend(w.owner) in s.holds ==>
              s.holds[WorkerSend(w)] == s.holds[ThreadSend(w.owner)]
    ensures WorkerSend(w) in s.holds && PortRecv(v) in s.holds ==>
              (s.holds[WorkerSend(w)] == s.holds[PortRecv(v)] <==>
               if w.peer.Some? then v.peer == None && v.owner == w.peer.value else v.peer == Some(w.owner))
  {
    hide RoutesOk, Inv, Reachable, Routed;
    ReachableRoutes(s);
    RoutedNow(s);
    EndsMeet(s, PortRecv(w), WorkerRecv(w));
    EndsMeet(s, WorkerSend(w), PortRecv(v));
    if w.peer.Some? {
      EndsMeet(s, WorkerSend(w), ThreadRecv(w.peer.value));
      EndsMeet(s, WorkerRecv(w), ThreadSend(w.peer.value));
    } else {
      EndsMeet(s, WorkerRecv(w), ThreadRecv(w.owner));
      EndsMeet(s, WorkerSend(w), ThreadSend(w.owner));
    }
  }

  lemma RoutedNow(s: State)
    requires RoutesOk(s)
    ensures Routed(s.holds, s.threads)
  {
    hide Inv, Routed;
  }

  lemma EndsMeet(s: State, h: Holder, k: Holder)
    requires Routed(s.holds, s.threads)
    ensures h in s.holds && k in s.holds ==> (s.holds[h] == s.holds[k] <==> Role(h) == Role(k))
  {
    hide Role;
  }

  lemma ReachableRoutes(s: State)
    requires Reachable(s)
    ensures RoutesOk(s)
  {
    hide RoutesOk, Run;
    var main, schedule :| Run(Init(main), schedule) == Next(s);
    InitRoutes(main);
    RunKeepsRoutes(Init(main), schedule);
  }

  // ----- from postMessage to the handler -----

  /** What happens at the two ends: the last call of postMessage of each thread, the messages in the order in
      which they are appended to queues, with the object posted to, and in the order in which they are taken, with
      the object whose port takes them. */
  datatype Log = Log(calls: map<Tid, (Worker, Body)>, posted: seq<(Worker, Body)>, taken: seq<(Worker, Body)>)

  /** The log after a step that is possible in `s`. */
  ghost function Record(s: State, a: Action, log: Log): Log {
    match a
    case Post(w, _, body) => log.(calls := log.calls[w.owner := (w, body)])
    case PostAppend(t) => if t in log.calls then log.(posted := log.posted + [log.calls[t]]) else log
    case HandleTake(t) =>
      if t in s.threads && s.threads[t].Handling? && s.threads[t].p in s.pipes && s.pipes[s.threads[t].p].queue != []
         && s.pipes[s.threads[t].p].queue[0] in s.msgs
      then log.(taken := log.taken + [(s.threads[t].w, s.msgs[s.pipes[s.threads[t].p].queue[0]].body)])
      else log
    case _ => log
  }

  ghost function RunLog(s: State, schedule: seq<Action>, log: Log): (State, Log)
    decreases |schedule|
  {
    if schedule == [] then (s, log)
    else
      match Do(s, schedule[0])
      case Next(s') => RunLog(s', schedule[1..], Record(s, schedule[0], log))
      case _ => RunLog(s, schedule[1..], log)
  }

  /** The messages posted on a channel, in order. */
  function PostedOn(c: Channel, log: seq<(Worker, Body)>): seq<Body> {
    if log == [] then []
    else
      var n := |log| - 1;
      PostedOn(c, log[..n]) + if Speaks(log[n].0) == c then [log[n].1] else []
  }

  /** The messages taken from a channel, in order. */
  function TakenFrom(c: Channel, log: seq<(Worker, Body)>): seq<Body> {
    if log == [] then []
    else
      var n := |log| - 1;
      TakenFrom(c, log[..n]) + if Hears(log[n].0) == c then [log[n].1] else []
  }

  lemma PostedSnoc(c: Channel, log: seq<(Worker, Body)>, e: (Worker, Body))
    ensures PostedOn(c, log + [e]) == PostedOn(c, log) + if Speaks(e.0) == c then [e.1] else []
  {
    assert (log + [e])[..|log|] == log;
  }

  lemma TakenSnoc(c: Channel, log: seq<(Worker, Body)>, e: (Worker, Body))
    ensures TakenFrom(c, log + [e]) == TakenFrom(c, log) + if Hears(e.0) == c then [e.1] else []
  {
    assert (log + [e])[..|log|] == log;
  }

  /** A message about to be appended is the one its thread was last called with. */
  ghost predicate CallsOk(s: State, calls: map<Tid, (Worker, Body)>) {
    forall t | t in s.threads && Undelivered(s.threads[t]) && s.threads[t].m in s.msgs ::
      t in calls && calls[t] == (s.threads[t].w, s.msgs[s.threads[t].m].body)
  }

  /** The histories of a pipe are what was posted on and taken from its channel. */
  ghost predicate HistoriesOk(s: State, log: Log) {
    forall h | h in s.holds && s.holds[h] in s.pipes ::
      && s.pipes[s.holds[h]].sent == PostedOn(Role(h), log.posted)
      && s.pipes[s.holds[h]].received == TakenFrom(Role(h), log.taken)
  }

  /** Nothing has been posted or taken where no thread has been started. */
  ghost predicate KnownChannels(s: State, log: Log) {
    forall c: Channel | c.child !in s.threads :: PostedOn(c, log.posted) == [] && TakenFrom(c, log.taken) == []
  }

  /** On every channel, what was taken is a first part of what was posted. */
  ghost predicate Delivered(log: Log) {
    forall c: Channel :: TakenFrom(c, log.taken) <= PostedOn(c, log.posted)
  }

  ghost predicate LogOk(s: State, log: Log) {
    RoutesOk(s) && CallsOk(s, log.calls) && HistoriesOk(s, log) && KnownChannels(s, log) && Delivered(log)
  }

  /** Every pointer after a step is an end of a channel that had one to the same pipe, or of a new channel. */
  ghost predicate HoldersFrom(s: State, s': State) {
    forall h | h in s'.holds ::
      || (Role(h).child !in s.threads && s'.holds[h] !in s.pipes)
      || exists k :: k in s.holds && s.holds[k] == s'.holds[h] && Role(k) == Role(h)
  }

  lemma RoutesFrom(s: State, s': State)
    requires SameRoutes(s, s')
    ensures HoldersFrom(s, s')
  {
    hide Role;
  }

  lemma StartFrom(s: State, w: Worker, p: PipeId, q: PipeId, child: Tid)
    requires p !in s.pipes && q !in s.pipes && child !in s.threads && w.peer == Some(child)
    ensures HoldersFrom(s, StartedAs(s, w, p, q, child))
  {
  }

  lemma StepFrom(s: State, a: Action)
    requires Builders(s.threads) && Do(s, a).Next?
    ensures HoldersFrom(s, Do(s, a).state)
  {
    hide HoldersFrom, SameRoutes, Builders;
    match a
    case StartWorker(t, id, p, q, child) =>
      var w := Worker(t, id, Some(child));
      Started(s, t, w, p, q, child);
      StartFrom(s, w, p, q, child);
    case _ =>
      StepRoutes(s, a);
      RoutesFrom(s, Do(s, a).state);
  }

  /** The message of a thread that is about to append it exists. */
  lemma InHandExists(s: State)
    requires Inv(s)
    ensures forall t | t in s.threads && Undelivered(s.threads[t]) :: s.threads[t].m in s.msgs
  {
    hide HoldersOk, ThreadsOk, LocksOk, SignalsOk, QueuesOk, MessagesOk, EntriesOk, Counted;
    forall t | t in s.threads && Undelivered(s.threads[t])
      ensures s.threads[t].m in s.msgs
    {
      assert Lists(s.threads[t].Carried(), InHand(t), s.msgs);
      assert s.threads[t].m in s.threads[t].Carried();
    }
  }

  lemma StillHistories(s: State, s': State, t: Tid, log: Log)
    requires HistoriesOk(s, log) && KnownChannels(s, log) && Still(s, s', t) && HoldersFrom(s, s')
    requires forall h | h in s.holds :: s.holds[h] in s.pipes
    ensures HistoriesOk(s', log)
  {
    hide Role, PostedOn, TakenFrom;
    forall h | h in s'.holds && s'.holds[h] in s'.pipes
      ensures s'.pipes[s'.holds[h]].sent == PostedOn(Role(h), log.posted)
      ensures s'.pipes[s'.holds[h]].received == TakenFrom(Role(h), log.taken)
    {
      if Role(h).child !in s.threads && s'.holds[h] !in s.pipes {
        assert PostedOn(Role(h), log.posted) == [];
      } else {
        var k :| k in s.holds && s.holds[k] == s'.holds[h] && Role(k) == Role(h);
        assert s.holds[k] in s.pipes;
      }
    }
  }

  lemma StillCalls(s: State, s': State, t: Tid, calls: map<Tid, (Worker, Body)>)
    requires CallsOk(s, calls) && Still(s, s', t)
    requires forall u | u in s.threads && Undelivered(s.threads[u]) :: s.threads[u].m in s.msgs
    ensures CallsOk(s', calls)
  {
    forall u | u in s'.threads && Undelivered(s'.threads[u]) && s'.threads[u].m in s'.msgs
      ensures u in calls && calls[u] == (s'.threads[u].w, s'.msgs[s'.threads[u].m].body)
    {
      assert u in s.threads;
    }
  }

  lemma StillKnown(s: State, s': State, log: Log)
    requires KnownChannels(s, log) && s.threads.Keys <= s'.threads.Keys
    ensures KnownChannels(s', log)
  {
  }

  /** Most steps leave the log as it is. */
  lemma StillLog(s: State, s': State, t: Tid, log: Log)
    requires LogOk(s, log) && RoutesOk(s') && Still(s, s', t) && HoldersFrom(s, s')
    ensures LogOk(s', log)
  {
    LivePointers(s);
    InHandExists(s) by { RoutesInv(s); }
    assert s.threads.Keys <= s'.threads.Keys;
    hide RoutesOk, CallsOk, HistoriesOk, KnownChannels, Delivered, HoldersFrom, Still;
    StillHistories(s, s', t, log);
    StillCalls(s, s', t, log.calls);
    StillKnown(s, s', log);
  }

  lemma LivePointers(s: State)
    requires RoutesOk(s)
    ensures forall h | h in s.holds :: s.holds[h] in s.pipes
  {
    RoutesInv(s);
    PipesCounted(s);
    hide Inv, Counted;
    PointersLive(s);
  }

  lemma ParentStill(s: State, t: Tid, w: Worker)
    requires DoParentRecv(s, t, w).Next?
    ensures Still(s, DoParentRecv(s, t, w).state, t)
  {
  }

  // ----- the steps that write the log -----

  lemma LogParts(s: State, log: Log)
    requires LogOk(s, log)
    ensures RoutesOk(s) && CallsOk(s, log.calls) && HistoriesOk(s, log) && KnownChannels(s, log) && Delivered(log)
    ensures Inv(s) && Routed(s.holds, s.threads)
  {
    hide CallsOk, HistoriesOk, KnownChannels, Delivered, Inv, Routed;
  }

  lemma LogWhole(s: State, log: Log)
    requires RoutesOk(s) && CallsOk(s, log.calls) && HistoriesOk(s, log) && KnownChannels(s, log) && Delivered(log)
    ensures LogOk(s, log)
  {
    hide CallsOk, HistoriesOk, KnownChannels, Delivered, RoutesOk;
  }

  /** Nothing in the log concerns a call that has only begun. */
  lemma SameEnds(s: State, s': State, log: Log, calls: map<Tid, (Worker, Body)>)
    requires HistoriesOk(s, log) && KnownChannels(s, log)
    requires s'.pipes == s.pipes && s'.holds == s.holds && s'.threads.Keys == s.threads.Keys
    ensures HistoriesOk(s', log.(calls := calls)) && KnownChannels(s', log.(calls := calls))
  {
    hide PostedOn, TakenFrom, Role;
  }

  lemma SameDelivered(log: Log, calls: map<Tid, (Worker, Body)>)
    requires Delivered(log)
    ensures Delivered(log.(calls := calls))
  {
    hide PostedOn, TakenFrom;
  }

  lemma PostCalls(s: State, w: Worker, m: MsgId, body: Body, calls: map<Tid, (Worker, Body)>)
    requires DoPost(s, w.owner, w, m, body).Next? && CallsOk(s, calls)
    requires forall u | u in s.threads && Undelivered(s.threads[u]) :: s.threads[u].m in s.msgs
    ensures var s' := DoPost(s, w.owner, w, m, body).state;
            && CallsOk(s', calls[w.owner := (w, body)])
            && s'.pipes == s.pipes && s'.holds == s.holds && s'.threads.Keys == s.threads.Keys
  {
  }

  lemma PostLog(s: State, w: Worker, m: MsgId, body: Body, log: Log)
    requires LogOk(s, log) && DoPost(s, w.owner, w, m, body).Next? && RoutesOk(DoPost(s, w.owner, w, m, body).state)
    ensures LogOk(DoPost(s, w.owner, w, m, body).state, log.(calls := log.calls[w.owner := (w, body)]))
  {
    hide *;
    LogParts(s, log);
    InHandExists(s);
    PostCalls(s, w, m, body, log.calls);
    var (s', calls) := (DoPost(s, w.owner, w, m, body).state, log.calls[w.owner := (w, body)]);
    SameEnds(s, s', log, calls);
    SameDelivered(log, calls);
    LogWhole(s', log.(calls := calls));
  }

  /** Who posts is at the sending end of the pipe. */
  lemma PostsAtEnd(s: State, t: Tid)
    requires Inv(s) && t in s.threads && s.threads[t].Posting?
    ensures var c := s.threads[t]; WorkerSend(c.w) in s.holds && s.holds[WorkerSend(c.w)] == c.p
  {
    hide HoldersOk, LocksOk, SignalsOk, QueuesOk, PlacesOk, MessagesOk, EntriesOk, Counted;
    assert ThreadOk(t, s.threads[t], s.holds, s.workers, s.ports);
  }

  /** Who takes a message is at the end of the pipe where its port listens. */
  lemma TakesAtEnd(s: State, t: Tid)
    requires Inv(s) && t in s.threads && s.threads[t].Handling?
    ensures var c := s.threads[t]; PortRecv(c.w) in s.holds && s.holds[PortRecv(c.w)] == c.p
  {
    hide HoldersOk, LocksOk, SignalsOk, QueuesOk, PlacesOk, MessagesOk, EntriesOk, Counted;
    assert ThreadOk(t, s.threads[t], s.holds, s.workers, s.ports);
  }

  /** What appending does: one message more at the end of one pipe, and the thread is done with it. */
  lemma AppendIs(s: State, t: Tid)
    requires DoPostAppend(s, t).Next?
    ensures t in s.threads && s.threads[t].Posting? && s.threads[t].post == Appending
    ensures var c := s.threads[t];
            && c.p in s.pipes && c.m in s.msgs
            && DoPostAppend(s, t) == Next(WithAppended(s, t, c.m, c.(post := PostUnlocking)))
  {
  }

  lemma AppendCalls(s: State, t: Tid, m: MsgId, c: Ctl, calls: map<Tid, (Worker, Body)>)
    requires CallsOk(s, calls) && c.Posting? && c.post == PostUnlocking && c.p in s.pipes && m in s.msgs && t in s.threads
    ensures CallsOk(WithAppended(s, t, m, c), calls)
  {
  }

  lemma CallIs(s: State, t: Tid, calls: map<Tid, (Worker, Body)>)
    requires CallsOk(s, calls) && t in s.threads && Undelivered(s.threads[t]) && s.threads[t].m in s.msgs
    ensures t in calls && calls[t] == (s.threads[t].w, s.msgs[s.threads[t].m].body)
  {
  }

  lemma AppendHistories(s: State, s': State, w: Worker, body: Body, log: Log)
    requires HistoriesOk(s, log) && Routed(s.holds, s.threads) && WorkerSend(w) in s.holds
    requires s'.holds == s.holds && s'.pipes.Keys == s.pipes.Keys
    requires var p := s.holds[WorkerSend(w)];
             && p in s.pipes && s'.pipes[p].sent == s.pipes[p].sent + [body] && s'.pipes[p].received == s.pipes[p].received
             && forall q | q in s.pipes && q != p :: s'.pipes[q] == s.pipes[q]
    ensures HistoriesOk(s', log.(posted := log.posted + [(w, body)]))
  {
    var p := s.holds[WorkerSend(w)];
    assert Role(WorkerSend(w)) == Speaks(w);
    hide Role, PostedOn, TakenFrom, Speaks, Hears;
    forall h | h in s'.holds && s'.holds[h] in s'.pipes
      ensures s'.pipes[s'.holds[h]].sent == PostedOn(Role(h), log.posted + [(w, body)])
    {
      PostedSnoc(Role(h), log.posted, (w, body));
      assert s.holds[h] == p <==> Role(h) == Speaks(w);
      assert s.pipes[s.holds[h]].sent == PostedOn(Role(h), log.posted);
    }
  }

  lemma PostedMore(s: State, s': State, w: Worker, body: Body, log: Log)
    requires KnownChannels(s, log) && Delivered(log) && s'.threads.Keys == s.threads.Keys
    requires Speaks(w).child in s.threads
    ensures var more := log.(posted := log.posted + [(w, body)]); KnownChannels(s', more) && Delivered(more)
  {
    hide PostedOn, TakenFrom, Speaks, Hears;
    forall c: Channel
      ensures PostedOn(c, log.posted) <= PostedOn(c, log.posted + [(w, body)])
      ensures c.child !in s.threads ==> PostedOn(c, log.posted + [(w, body)]) == []
    {
      PostedSnoc(c, log.posted, (w, body));
    }
  }

  lemma AppendLog(s: State, t: Tid, log: Log)
    requires LogOk(s, log) && DoPostAppend(s, t).Next? && RoutesOk(DoPostAppend(s, t).state)
    ensures t in log.calls && LogOk(DoPostAppend(s, t).state, log.(posted := log.posted + [log.calls[t]]))
  {
    AppendIs(s, t);
    var c := s.threads[t];
    var c' := c.(post := PostUnlocking);
    var s' := WithAppended(s, t, c.m, c');
    assert Undelivered(c);
    hide *;
    LogParts(s, log);
    PostsAtEnd(s, t);
    CallIs(s, t, log.calls);
    var body := s.msgs[c.m].body;
    AppendCalls(s, t, c.m, c', log.calls);
    AppendedPipes(s, t, c.m, c');
    EndKnown(s, WorkerSend(c.w), Speaks(c.w)) by { SpeaksIs(c.w); }
    AppendHistories(s, s', c.w, body, log);
    PostedMore(s, s', c.w, body, log);
    LogWhole(s', log.(posted := log.posted + [log.calls[t]]));
  }

  lemma AppendedPipes(s: State, t: Tid, m: MsgId, c: Ctl)
    requires c.Posting? && c.p in s.pipes && m in s.msgs && t in s.threads
    ensures var s' := WithAppended(s, t, m, c);
            && s'.holds == s.holds && s'.pipes.Keys == s.pipes.Keys && s'.threads.Keys == s.threads.Keys
            && s'.pipes[c.p].sent == s.pipes[c.p].sent + [s.msgs[m].body]
            && s'.pipes[c.p].received == s.pipes[c.p].received
            && forall q | q in s.pipes && q != c.p :: s'.pipes[q] == s.pipes[q]
  {
  }

  lemma SpeaksIs(w: Worker)
    ensures Role(WorkerSend(w)) == Speaks(w)
  {
  }

  lemma HearsIs(w: Worker)
    ensures Role(PortRecv(w)) == Hears(w)
  {
  }

  lemma EndKnown(s: State, h: Holder, c: Channel)
    requires Routed(s.holds, s.threads) && h in s.holds && Role(h) == c
    ensures c.child in s.threads
  {
    hide Role;
  }

  /** What taking does: the first message of one pipe is taken, if there is one. */
  lemma TakeIs(s: State, t: Tid)
    requires DoHandleTake(s, t).Next?
    ensures t in s.threads && s.threads[t].Handling? && s.threads[t].p in s.pipes
    ensures var (s', c, ps) := (DoHandleTake(s, t).state, s.threads[t], s.pipes[s.threads[t].p]);
            && s'.holds == s.holds && s'.pipes.Keys == s.pipes.Keys && s'.threads.Keys == s.threads.Keys
            && (ps.queue == [] ==> s'.pipes == s.pipes)
            && (ps.queue != [] ==>
                  && ps.queue[0] in s.msgs && s'.pipes[c.p].sent == ps.sent
                  && s'.pipes[c.p].received == ps.received + [s.msgs[ps.queue[0]].body]
                  && forall q | q in s.pipes && q != c.p :: s'.pipes[q] == s.pipes[q])
  {
  }

  lemma TakeCalls(s: State, t: Tid, calls: map<Tid, (Worker, Body)>)
    requires DoHandleTake(s, t).Next? && CallsOk(s, calls)
    ensures CallsOk(DoHandleTake(s, t).state, calls)
  {
  }

  lemma TakeHistories(s: State, s': State, w: Worker, body: Body, log: Log)
    requires HistoriesOk(s, log) && Routed(s.holds, s.threads) && PortRecv(w) in s.holds
    requires s'.holds == s.holds && s'.pipes.Keys == s.pipes.Keys
    requires var p := s.holds[PortRecv(w)];
             && p in s.pipes && s'.pipes[p].sent == s.pipes[p].sent
             && s'.pipes[p].received == s.pipes[p].received + [body]
             && forall q | q in s.pipes && q != p :: s'.pipes[q] == s.pipes[q]
    ensures HistoriesOk(s', log.(taken := log.taken + [(w, body)]))
  {
    var p := s.holds[PortRecv(w)];
    assert Role(PortRecv(w)) == Hears(w);
    hide Role, PostedOn, TakenFrom, Speaks, Hears;
    forall h | h in s'.holds && s'.holds[h] in s'.pipes
      ensures s'.pipes[s'.holds[h]].received == TakenFrom(Role(h), log.taken + [(w, body)])
    {
      TakenSnoc(Role(h), log.taken, (w, body));
      assert s.holds[h] == p <==> Role(h) == Hears(w);
      assert s.pipes[s.holds[h]].received == TakenFrom(Role(h), log.taken);
    }
  }

  lemma TakenMore(s: State, s': State, w: Worker, body: Body, log: Log)
    requires KnownChannels(s, log) && Delivered(log) && s'.threads.Keys == s.threads.Keys
    requires Hears(w).child in s.threads && PortRecv(w) in s'.holds && s'.holds[PortRecv(w)] in s'.pipes
    requires HistoriesOk(s', log.(taken := log.taken + [(w, body)])) && QueuesOk(s'.pipes, s'.msgs)
    ensures var more := log.(taken := log.taken + [(w, body)]); KnownChannels(s', more) && Delivered(more)
  {
    var ps := s'.pipes[s'.holds[PortRecv(w)]];
    assert QueueOk(ps, s'.msgs) && ps.received <= ps.sent;
    assert Role(PortRecv(w)) == Hears(w);
    assert ps.received == TakenFrom(Hears(w), log.taken + [(w, body)]) && ps.sent == PostedOn(Hears(w), log.posted);
    hide PostedOn, TakenFrom, Speaks, Hears, HistoriesOk, QueuesOk;
    forall c: Channel
      ensures TakenFrom(c, log.taken + [(w, body)]) <= PostedOn(c, log.posted)
      ensures c.child !in s.threads ==> TakenFrom(c, log.taken + [(w, body)]) == []
    {
      TakenSnoc(c, log.taken, (w, body));
    }
  }

  lemma TakeLog(s: State, t: Tid, log: Log)
    requires LogOk(s, log) && DoHandleTake(s, t).Next? && RoutesOk(DoHandleTake(s, t).state)
    ensures LogOk(DoHandleTake(s, t).state, Record(s, HandleTake(t), log))
  {
    hide *;
    LogParts(s, log);
    TakeIs(s, t);
    TakeCalls(s, t, log.calls);
    TakesAtEnd(s, t);
    var (s', c) := (DoHandleTake(s, t).state, s.threads[t]);
    var ps := s.pipes[c.p];
    RecordTake(s, t, log);
    if ps.queue != [] {
      var body := s.msgs[ps.queue[0]].body;
      QueuesNow(s');
      EndKnown(s, PortRecv(c.w), Hears(c.w)) by { HearsIs(c.w); }
      TakeHistories(s, s', c.w, body, log);
      TakenMore(s, s', c.w, body, log);
      LogWhole(s', log.(taken := log.taken + [(c.w, body)]));
    } else {
      SameEnds(s, s', log, log.calls);
      LogWhole(s', log);
    }
  }

  lemma RecordTake(s: State, t: Tid, log: Log)
    requires t in s.threads && s.threads[t].Handling? && s.threads[t].p in s.pipes
    requires var q := s.pipes[s.threads[t].p].queue; q != [] ==> q[0] in s.msgs
    ensures var q := s.pipes[s.threads[t].p].queue;
            Record(s, HandleTake(t), log) ==
            if q == [] then log else log.(taken := log.taken + [(s.threads[t].w, s.msgs[q[0]].body)])
  {
  }

  lemma QueuesNow(s: State)
    requires RoutesOk(s)
    ensures QueuesOk(s.pipes, s.msgs)
  {
    RoutesInv(s);
    hide HoldersOk, ThreadsOk, LocksOk, SignalsOk, QueuesOk, PlacesOk, MessagesOk, EntriesOk, Counted, RoutesOk;
  }

  /** The steps that the log does not see. */
  lemma SilentStep(s: State, a: Action, log: Log)
    requires LogOk(s, log) && Do(s, a).Next? && RoutesOk(Do(s, a).state) && HoldersFrom(s, Do(s, a).state)
    requires !a.Post? && !a.PostAppend? && !a.HandleTake?
    ensures LogOk(Do(s, a).state, log)
  {
    hide LogOk, RoutesOk, HoldersFrom, Still, DoParentRecv;
    if a.ParentRecv? {
      ParentStill(s, a.t, Worker(a.t, a.id, None));
      StillLog(s, Do(s, a).state, a.t, log);
    } else {
      QuietSteps(s, a);
      hide Do;
      StillLog(s, Do(s, a).state, Actor(a), log);
    }
  }

  lemma StepLog(s: State, a: Action, log: Log)
    requires LogOk(s, log) && Do(s, a).Next?
    ensures LogOk(Do(s, a).state, Record(s, a, log))
  {
    LogParts(s, log);
    BuildersNow(s);
    hide LogOk, RoutesOk, HoldersFrom, CallsOk, HistoriesOk, KnownChannels, Delivered, Inv, Routed, Builders;
    hide DoPost, DoPostAppend, DoHandleTake;
    if a.Post? {
      StepKeepsRoutes(s, a);
      PostLog(s, a.w, a.m, a.body, log);
    } else if a.PostAppend? {
      StepKeepsRoutes(s, a);
      AppendLog(s, a.t, log);
    } else if a.HandleTake? {
      StepKeepsRoutes(s, a);
      hide Record;
      TakeLog(s, a.t, log);
    } else {
      assert Record(s, a, log) == log;
      hide Do, Record;
      StepKeepsRoutes(s, a);
      StepFrom(s, a);
      SilentStep(s, a, log);
    }
  }

  lemma BuildersNow(s: State)
    requires RoutesOk(s)
    ensures Builders(s.threads)
  {
    hide Inv, Routed, Builders;
  }

  lemma {:induction false} RunKeepsLog(s: State, schedule: seq<Action>, log: Log)
    requires LogOk(s, log)
    ensures var (s', log') := RunLog(s, schedule, log); LogOk(s', log')
    decreases |schedule|
  {
    hide LogOk, Do, Record;
    if schedule != [] && Do(s, schedule[0]).Next? {
      StepLog(s, schedule[0], log);
      RunKeepsLog(Do(s, schedule[0]).state, schedule[1..], Record(s, schedule[0], log));
    } else if schedule != [] {
      RunKeepsLog(s, schedule[1..], log);
    }
  }

  /** End to end, under every schedule: on each channel the messages taken by ports at one end are the first of
      those given to postMessage at the other end, with the same contents and in the same order; and while the
      channel has an end, the others are those in its queue. */
  lemma MessagesDelivered(main: Tid, schedule: seq<Action>)
    ensures Run(Init(main), schedule) == Next(RunLog(Init(main), schedule, Log(map[], [], [])).0)
    ensures var (s, log) := RunLog(Init(main), schedule, Log(map[], [], []));
            && (forall c: Channel :: TakenFrom(c, log.taken) <= PostedOn(c, log.posted))
            && forall h | h in s.holds ::
                 && s.holds[h] in s.pipes
                 && (forall i | 0 <= i < |s.pipes[s.holds[h]].queue| :: s.pipes[s.holds[h]].queue[i] in s.msgs)
                 && PostedOn(Role(h), log.posted) ==
                    TakenFrom(Role(h), log.taken) + Bodies(s.pipes[s.holds[h]].queue, s.msgs)
  {
    hide *;
    var log := Log(map[], [], []);
    InitLog(main);
    RunKeepsLog(Init(main), schedule, log);
    EveryRunSafe(main, schedule);
    RunsAlike(Init(main), schedule, log);
    var (s', log') := RunLog(Init(main), schedule, log);
    LogParts(s', log');
    DeliveredAt(log');
    LivePointers(s');
    QueuesNow(s');
    forall h | h in s'.holds
      ensures var ps := s'.pipes[s'.holds[h]];
              && (forall i | 0 <= i < |ps.queue| :: ps.queue[i] in s'.msgs)
              && PostedOn(Role(h), log'.posted) == TakenFrom(Role(h), log'.taken) + Bodies(ps.queue, s'.msgs)
    {
      ChannelNow(s', log', h);
    }
  }

  lemma {:induction false} RunsAlike(s: State, schedule: seq<Action>, log: Log)
    requires Run(s, schedule).Next?
    ensures Run(s, schedule) == Next(RunLog(s, schedule, log).0)
    decreases |schedule|
  {
    hide Do, Record;
    if schedule != [] {
      match Do(s, schedule[0])
      case Next(s') => RunsAlike(s', schedule[1..], Record(s, schedule[0], log));
      case Disabled => RunsAlike(s, schedule[1..], log);
      case Fault =>
    }
  }

  lemma InitLog(main: Tid)
    ensures LogOk(Init(main), Log(map[], [], []))
  {
    InitRoutes(main);
    hide RoutesOk;
  }

  lemma DeliveredAt(log: Log)
    requires Delivered(log)
    ensures forall c: Channel :: TakenFrom(c, log.taken) <= PostedOn(c, log.posted)
  {
    hide PostedOn, TakenFrom;
  }

  lemma ChannelNow(s: State, log: Log, h: Holder)
    requires HistoriesOk(s, log) && QueuesOk(s.pipes, s.msgs) && h in s.holds && s.holds[h] in s.pipes
    ensures var ps := s.pipes[s.holds[h]];
            && (forall i | 0 <= i < |ps.queue| :: ps.queue[i] in s.msgs)
            && PostedOn(Role(h), log.posted) == TakenFrom(Role(h), log.taken) + Bodies(ps.queue, s.msgs)
  {
    hide PostedOn, TakenFrom, Role;
    var ps := s.pipes[s.holds[h]];
    assert QueueOk(ps, s.msgs);
    assert ps.sent == ps.received + Bodies(ps.queue, s.msgs);
  }

  /** What a handler reads: the message it has taken goes through the unlocking of the mutex to JS_ReadObject, and
      each buffer object that this makes refers to the buffer at its place in the message. */
  lemma HandlerReads(s: State, t: Tid, m: MsgId, i: nat, o: nat)
    requires t in s.threads
    ensures s.threads[t].Handling? && DoHandleTake(s, t).Next? && s.pipes[s.threads[t].p].queue != [] ==>
              var c := DoHandleTake(s, t).state.threads[t];
              c.Handling? && c.taken == Some(s.pipes[s.threads[t].p].queue[0])
    ensures s.threads[t].Handling? && s.threads[t].taken == Some(m) && DoHandleUnlock(s, t).Next? ==>
              DoHandleUnlock(s, t).state.threads[t] == Reading(m)
    ensures s.threads[t] == Reading(m) && DoAdopt(s, t, i, o).Next? ==>
              && m in s.msgs && i < |s.msgs[m].body.sabs|
              && DoAdopt(s, t, i, o).state.refs == s.refs[Object(t, o) := s.msgs[m].body.sabs[i]]
  {
  }
}
