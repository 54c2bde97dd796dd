/** What the operations of a thread come to when it is left to go on: a message is posted, a message is taken, and
    what is to be released is released. */
module WorkerProgress {
  import opened Options
  import opened WorkerPipe
  import opened WorkerSafety
  import opened WorkerRouting

  // ----- schedules of one thread -----

  /** Some steps of the thread `t` lead from `s` to `s'`. */
  ghost predicate Alone(s: State, t: Tid, s': State) {
    exists schedule :: Own(schedule, t) && Run(s, schedule) == Next(s')
  }

  ghost predicate Own(schedule: seq<Action>, t: Tid) {
    forall i | 0 <= i < |schedule| :: Actor(schedule[i]) == t
  }

  lemma AloneHere(s: State, t: Tid)
    ensures Alone(s, t, s)
  {
    assert Own([], t) && Run(s, []) == Next(s);
  }

  lemma AloneThen(s: State, t: Tid, a: Action, s': State)
    requires Actor(a) == t && Do(s, a).Next? && Alone(Do(s, a).state, t, s')
    ensures Alone(s, t, s')
  {
    hide Do, Actor;
    var more :| Own(more, t) && Run(Do(s, a).state, more) == Next(s');
    var schedule := [a] + more;
    assert schedule[1..] == more;
    assert Own(schedule, t) && Run(s, schedule) == Next(s');
  }

  // ----- releasing -----

  /** What is left of the tables when the pointers `hs` and the messages `ms` are gone. */
  ghost predicate Without(s: State, s': State, hs: seq<Holder>, ms: seq<MsgId>) {
    && s'.holds.Keys == s.holds.Keys - (set h | h in hs)
    && (forall h | h in s'.holds :: s'.holds[h] == s.holds[h])
    && (forall m | m in s'.msgs :: m in s.msgs && m !in ms)
    && s'.workers == s.workers && s'.ports == s.ports
  }

  /** A thread that has pointers and messages to release comes to the end of it by itself: no lock is in its way.
      The pointers and the messages are gone then, and the other pointers lead where they led. */
  lemma ReleaseEnds(s: State, t: Tid)
    requires Reachable(s) && t in s.threads && s.threads[t].Releasing?
    ensures exists s' :: Alone(s, t, s') && At(s', t, Idle) && Without(s, s', s.threads[t].holders, s.threads[t].msgs)
  {
    hide *;
    ReachableInv(s);
    var s' := ReleaseRun(s, t);
  }

  /** The references that the first message still has to give up. */
  ghost function EntriesLeft(s: State, ms: seq<MsgId>): nat {
    if ms != [] && ms[0] in s.msgs && s.msgs[ms[0]].lo <= |s.msgs[ms[0]].body.sabs|
    then |s.msgs[ms[0]].body.sabs| - s.msgs[ms[0]].lo
    else 0
  }

  lemma {:induction false} ReleaseRun(s: State, t: Tid) returns (s': State)
    requires Inv(s) && t in s.threads && s.threads[t].Releasing?
    ensures Alone(s, t, s') && At(s', t, Idle) && Without(s, s', s.threads[t].holders, s.threads[t].msgs)
    decreases |s.threads[t].holders|, |s.threads[t].msgs|, EntriesLeft(s, s.threads[t].msgs)
  {
    hide Inv, Do, Without, Alone, Actor, Run;
    var c := s.threads[t];
    var a := NextRelease(s, t);
    StepSafe(s, a);
    if c.msgs == [] && c.holders == [] {
      DoneReleased(s, t);
      s' := Do(s, a).state;
      AloneHere(s', t);
    } else if c.msgs == [] {
      PointerReleased(s, t);
      s' := ReleaseRun(Do(s, a).state, t);
      PointerThenRest(s, Do(s, a).state, s', c, Do(s, a).state.threads[t].msgs);
    } else if EntriesLeft(s, c.msgs) > 0 {
      EntryReleased(s, t);
      s' := ReleaseRun(Do(s, a).state, t);
      SameTables(s, Do(s, a).state, s', c);
    } else {
      MessageReleased(s, t);
      s' := ReleaseRun(Do(s, a).state, t);
      MessageThenRest(s, Do(s, a).state, s', c);
    }
    AloneThen(s, t, a, s');
  }

  /** The next step of a thread that releases. */
  ghost function NextRelease(s: State, t: Tid): (a: Action)
    requires t in s.threads && s.threads[t].Releasing?
    ensures Actor(a) == t
  {
    var c := s.threads[t];
    if c.msgs == [] then (if c.holders == [] then ReleaseDone(t) else ReleasePipe(t))
    else if EntriesLeft(s, c.msgs) > 0 then FreeEntry(t) else FreeMessage(t)
  }

  lemma DoneReleased(s: State, t: Tid)
    requires t in s.threads && s.threads[t] == Releasing([], [])
    ensures var o := Do(s, ReleaseDone(t));
            o.Next? && At(o.state, t, Idle) && Without(s, o.state, [], [])
  {
  }

  lemma PointerReleased(s: State, t: Tid)
    requires t in s.threads && s.threads[t].Releasing? && s.threads[t].msgs == [] && s.threads[t].holders != []
    requires Safe(Do(s, ReleasePipe(t)))
    ensures var (c, o) := (s.threads[t], Do(s, ReleasePipe(t)));
            && o.Next? && t in o.state.threads && o.state.threads[t].Releasing?
            && o.state.threads[t].holders == c.holders[1..]
            && o.state.holds == s.holds - {c.holders[0]} && o.state.msgs.Keys == s.msgs.Keys
            && o.state.workers == s.workers && o.state.ports == s.ports
  {
    hide Inv;
  }

  lemma PointerThenRest(s: State, s1: State, s': State, c: Ctl, ms: seq<MsgId>)
    requires c.Releasing? && c.msgs == [] && c.holders != []
    requires s1.holds == s.holds - {c.holders[0]} && s1.msgs.Keys == s.msgs.Keys
    requires s1.workers == s.workers && s1.ports == s.ports && Without(s1, s', c.holders[1..], ms)
    ensures Without(s, s', c.holders, c.msgs)
  {
    assert c.holders == [c.holders[0]] + c.holders[1..];
    assert forall m | m in s'.msgs :: m in s1.msgs.Keys;
  }

  lemma EntryReleased(s: State, t: Tid)
    requires t in s.threads && s.threads[t].Releasing? && EntriesLeft(s, s.threads[t].msgs) > 0
    requires Safe(Do(s, FreeEntry(t)))
    ensures var (c, o) := (s.threads[t], Do(s, FreeEntry(t)));
            && o.Next? && t in o.state.threads && o.state.threads[t] == c
            && EntriesLeft(o.state, c.msgs) < EntriesLeft(s, c.msgs)
            && o.state.holds == s.holds && o.state.msgs.Keys == s.msgs.Keys
            && o.state.workers == s.workers && o.state.ports == s.ports
  {
    hide Inv;
  }

  lemma SameTables(s: State, s1: State, s': State, c: Ctl)
    requires c.Releasing? && s1.holds == s.holds && s1.msgs.Keys == s.msgs.Keys
    requires s1.workers == s.workers && s1.ports == s.ports && Without(s1, s', c.holders, c.msgs)
    ensures Without(s, s', c.holders, c.msgs)
  {
    assert forall m | m in s'.msgs :: m in s1.msgs.Keys;
  }

  lemma MessageReleased(s: State, t: Tid)
    requires t in s.threads && s.threads[t].Releasing? && s.threads[t].msgs != []
    requires EntriesLeft(s, s.threads[t].msgs) == 0 && Inv(s)
    ensures var (c, o) := (s.threads[t], Do(s, FreeMessage(t)));
            && o.Next? && t in o.state.threads && o.state.threads[t] == c.(msgs := c.msgs[1..])
            && o.state.holds == s.holds && o.state.msgs == s.msgs - {c.msgs[0]}
            && o.state.workers == s.workers && o.state.ports == s.ports
  {
    FirstMessage(s, t);
    FreeMessageIs(s, t);
    hide Inv, Do;
  }

  lemma FreeMessageIs(s: State, t: Tid)
    requires t in s.threads && s.threads[t].Releasing? && s.threads[t].msgs != []
    requires var m := s.threads[t].msgs[0];
             m in s.msgs && s.msgs[m].lo >= |s.msgs[m].body.sabs|
    ensures var c := s.threads[t];
            Do(s, FreeMessage(t)) == Next(Go(s.(msgs := s.msgs - {c.msgs[0]}), t, c.(msgs := c.msgs[1..])))
  {
  }

  lemma FirstMessage(s: State, t: Tid)
    requires Inv(s) && t in s.threads && s.threads[t].Releasing? && s.threads[t].msgs != []
    ensures var m := s.threads[t].msgs[0];
            m in s.msgs && s.msgs[m].lo <= |s.msgs[m].body.sabs|
  {
    hide HoldersOk, ThreadsOk, LocksOk, SignalsOk, QueuesOk, EntriesOk;
    var m := s.threads[t].msgs[0];
    assert s.threads[t].Carried()[0] == m;
    assert MessageOk(s.msgs[m], s.threads, s.refs);
  }

  lemma MessageThenRest(s: State, s1: State, s': State, c: Ctl)
    requires c.Releasing? && c.msgs != []
    requires s1.holds == s.holds && s1.msgs == s.msgs - {c.msgs[0]}
    requires s1.workers == s.workers && s1.ports == s.ports && Without(s1, s', c.holders, c.msgs[1..])
    ensures Without(s, s', c.holders, c.msgs)
  {
    assert c.msgs == [c.msgs[0]] + c.msgs[1..];
  }

  /** js_worker_finalizer comes to its end: the object, its handler and its pointers are gone. */
  lemma FinalizeEnds(s: State, w: Worker)
    requires Reachable(s) && At(s, w.owner, Idle) && w in s.workers
    ensures exists s' ::
              && Alone(s, w.owner, s') && At(s', w.owner, Idle)
              && s'.workers == s.workers - {w} && s'.ports == s.ports - {w}
              && s'.holds == s.holds - {WorkerRecv(w), WorkerSend(w), PortRecv(w)}
  {
    hide Inv, Alone, Run;
    ReachableInv(s);
    StepSafe(s, Finalize(w));
    var s1 := Do(s, Finalize(w)).state;
    var s' := ReleaseRun(s1, w.owner);
    AloneThen(s, w.owner, Finalize(w), s');
    PortHolder(s, w);
    assert s'.holds == s.holds - {WorkerRecv(w), WorkerSend(w), PortRecv(w)};
  }

  /** Without a handler there is no pointer of a port, unless the thread is about to release it. */
  lemma PortHolder(s: State, w: Worker)
    requires Inv(s) && At(s, w.owner, Idle)
    ensures PortRecv(w) in s.holds ==> w in s.ports
  {
    hide ThreadsOk, LocksOk, SignalsOk, QueuesOk, PlacesOk, MessagesOk, EntriesOk;
  }

  /** js_std_free_handlers comes to its end: the two pointers of the thread are gone. */
  lemma ExitEnds(s: State, t: Tid)
    requires Reachable(s) && At(s, t, Idle) && ThreadRecv(t) in s.holds && ThreadSend(t) in s.holds
    ensures exists s' ::
              && Alone(s, t, s') && At(s', t, Idle) && s'.holds == s.holds - {ThreadRecv(t), ThreadSend(t)}
              && s'.workers == s.workers && s'.ports == s.ports
  {
    hide Inv, Alone, Run;
    ReachableInv(s);
    StepSafe(s, Exit(t));
    var s' := ReleaseRun(Do(s, Exit(t)).state, t);
    AloneThen(s, t, Exit(t), s');
    assert s'.holds == s.holds - {ThreadRecv(t), ThreadSend(t)};
  }

  // ----- posting -----

  /** js_worker_postMessage comes to its end when the mutex is free: the message is the last one in the queue to
      which the Worker object sends, with its contents and with a reference to each of its buffers, and the OS
      pipe has a byte if the queue was empty. */
  lemma PostEnds(s: State, w: Worker, m: MsgId, body: Body)
    requires Reachable(s) && At(s, w.owner, Idle) && w in s.workers && m !in s.msgs
    requires forall i | 0 <= i < |body.sabs| :: HeldBy(s.refs, w.owner, body.sabs[i])
    requires WorkerSend(w) in s.holds && s.holds[WorkerSend(w)] in s.pipes && s.pipes[s.holds[WorkerSend(w)]].lock.None?
    ensures exists s' :: Alone(s, w.owner, s') && At(s', w.owner, Idle) && PostedAs(s, s', s.holds[WorkerSend(w)], m, body)
  {
    hide Inv, Do, Alone, Actor, Run, WithMessage, Prepares, HeldBy, Reachable;
    ReachableInv(s);
    PostBegins(s, w, m, body);
    StepSafe(s, Post(w, m, body));
    var s' := PostRun(Do(s, Post(w, m, body)).state, w.owner);
    AloneThen(s, w.owner, Post(w, m, body), s');
  }

  ghost predicate PostedAs(s: State, s': State, p: PipeId, m: MsgId, body: Body) {
    && p in s.pipes && s'.holds == s.holds && s'.workers == s.workers && s'.ports == s.ports
    && s'.msgs == s.msgs[m := Message(body, 0, |body.sabs|, InPipe(p))]
    && s'.pipes == s.pipes[p := WithMessage(s.pipes[p], m, body)]
  }

  function WithMessage(ps: Pipe, m: MsgId, body: Body): Pipe {
    ps.(queue := ps.queue + [m], sent := ps.sent + [body], bytes := ps.bytes + if ps.queue == [] then 1 else 0)
  }

  /** A message in preparation. */
  ghost predicate Prepares(s: State, t: Tid) {
    && t in s.threads && s.threads[t].Posting? && s.threads[t].post == Preparing
    && s.threads[t].m in s.msgs && s.threads[t].p in s.pipes && s.pipes[s.threads[t].p].lock.None?
    && s.msgs[s.threads[t].m].lo == 0 && s.msgs[s.threads[t].m].at == InHand(t)
    && s.msgs[s.threads[t].m].hi <= |s.msgs[s.threads[t].m].body.sabs|
  }

  lemma PostBegins(s: State, w: Worker, m: MsgId, body: Body)
    requires At(s, w.owner, Idle) && w in s.workers && m !in s.msgs
    requires forall i | 0 <= i < |body.sabs| :: HeldBy(s.refs, w.owner, body.sabs[i])
    requires WorkerSend(w) in s.holds && s.holds[WorkerSend(w)] in s.pipes && s.pipes[s.holds[WorkerSend(w)]].lock.None?
    ensures var o := Do(s, Post(w, m, body));
            && o.Next? && Actor(Post(w, m, body)) == w.owner && Prepares(o.state, w.owner)
            && o.state.threads[w.owner].m == m && o.state.threads[w.owner].p == s.holds[WorkerSend(w)]
            && o.state.msgs == s.msgs[m := Message(body, 0, 0, InHand(w.owner))]
            && o.state.pipes == s.pipes && o.state.holds == s.holds
            && o.state.workers == s.workers && o.state.ports == s.ports
  {
    hide HeldBy;
  }

  lemma {:induction false} PostRun(s: State, t: Tid) returns (s': State)
    requires Inv(s) && Prepares(s, t)
    ensures var (p, m) := (s.threads[t].p, s.threads[t].m);
            Alone(s, t, s') && At(s', t, Idle) && PostedAs(s, s', p, m, s.msgs[m].body)
    decreases |s.msgs[s.threads[t].m].body.sabs| - s.msgs[s.threads[t].m].hi
  {
    hide Inv, Do, Alone, Actor, Run, WithMessage;
    var (p, m) := (s.threads[t].p, s.threads[t].m);
    if s.msgs[m].hi < |s.msgs[m].body.sabs| {
      StepSafe(s, PostDup(t));
      DupGoesOn(s, t);
      s' := PostRun(Do(s, PostDup(t)).state, t);
      ActorIs(PostDup(t));
      AloneThen(s, t, PostDup(t), s');
    } else {
      s' := SectionRun(s, t);
    }
  }

  lemma ActorIs(a: Action)
    ensures !a.Post? && !a.Handle? && !a.SetOnMessage? && !a.Finalize? ==> Actor(a) == a.t
  {
  }

  lemma DupGoesOn(s: State, t: Tid)
    requires Prepares(s, t) && s.msgs[s.threads[t].m].hi < |s.msgs[s.threads[t].m].body.sabs|
    requires Safe(Do(s, PostDup(t)))
    ensures var (m, o) := (s.threads[t].m, Do(s, PostDup(t)));
            && o.Next? && Prepares(o.state, t) && o.state.threads == s.threads
            && o.state.msgs == s.msgs[m := s.msgs[m].(hi := s.msgs[m].hi + 1)]
            && o.state.pipes == s.pipes && o.state.holds == s.holds
            && o.state.workers == s.workers && o.state.ports == s.ports
  {
    hide Inv;
  }

  /** The rest under the mutex. */
  lemma SectionRun(s: State, t: Tid) returns (s': State)
    requires Prepares(s, t) && s.msgs[s.threads[t].m].hi == |s.msgs[s.threads[t].m].body.sabs|
    ensures var (p, m) := (s.threads[t].p, s.threads[t].m);
            Alone(s, t, s') && At(s', t, Idle) && PostedAs(s, s', p, m, s.msgs[m].body)
  {
    hide Alone, Run, Do, Actor;
    LockStep(s, t);
    var s1 := Do(s, PostLock(t)).state;
    SignalStep(s1, t);
    var s2 := Do(s1, PostSignal(t)).state;
    AppendStep(s2, t);
    var s3 := Do(s2, PostAppend(t)).state;
    UnlockStep(s3, t);
    s' := Do(s3, PostUnlock(t)).state;
    AloneHere(s', t);
    ActorIs(PostUnlock(t));
    AloneThen(s3, t, PostUnlock(t), s');
    ActorIs(PostAppend(t));
    AloneThen(s2, t, PostAppend(t), s');
    ActorIs(PostSignal(t));
    AloneThen(s1, t, PostSignal(t), s');
    ActorIs(PostLock(t));
    AloneThen(s, t, PostLock(t), s');
  }

  lemma LockStep(s: State, t: Tid)
    requires Prepares(s, t) && s.msgs[s.threads[t].m].hi == |s.msgs[s.threads[t].m].body.sabs|
    ensures var c := s.threads[t];
            Do(s, PostLock(t)) ==
            Next(Go(s.(pipes := s.pipes[c.p := s.pipes[c.p].(lock := Some(t))]), t, c.(post := Signalling)))
  {
  }

  lemma SignalStep(s: State, t: Tid)
    requires t in s.threads && s.threads[t].Posting? && s.threads[t].post == Signalling && s.threads[t].p in s.pipes
    ensures var (c, ps) := (s.threads[t], s.pipes[s.threads[t].p]);
            Do(s, PostSignal(t)) ==
            Next(Go(s.(pipes := s.pipes[c.p := ps.(bytes := ps.bytes + if ps.queue == [] then 1 else 0)]),
                    t, c.(post := Appending)))
  {
  }

  lemma AppendStep(s: State, t: Tid)
    requires t in s.threads && s.threads[t].Posting? && s.threads[t].post == Appending
    requires s.threads[t].p in s.pipes && s.threads[t].m in s.msgs
    ensures var (c, ps, msg) := (s.threads[t], s.pipes[s.threads[t].p], s.msgs[s.threads[t].m]);
            Do(s, PostAppend(t)) ==
            Next(Go(s.(pipes := s.pipes[c.p := ps.(queue := ps.queue + [c.m], sent := ps.sent + [msg.body])],
                       msgs := s.msgs[c.m := msg.(at := InPipe(c.p))]), t, c.(post := PostUnlocking)))
  {
  }

  lemma UnlockStep(s: State, t: Tid)
    requires t in s.threads && s.threads[t].Posting? && s.threads[t].post == PostUnlocking
    requires s.threads[t].p in s.pipes && s.pipes[s.threads[t].p].lock == Some(t)
    ensures var p := s.threads[t].p;
            Do(s, PostUnlock(t)) == Next(Go(s.(pipes := s.pipes[p := s.pipes[p].(lock := None)]), t, Idle))
  {
  }

  // ----- handling -----

  /** handle_posted_message comes to its end when the mutex is free: the first message leaves the queue on which
      the port listens, and the thread goes on to read it; the OS pipe loses its byte with the last message. An
      empty queue is left alone. */
  lemma HandleEnds(s: State, w: Worker)
    requires Reachable(s) && At(s, w.owner, Idle) && w in s.ports
    requires PortRecv(w) in s.holds && s.holds[PortRecv(w)] in s.pipes && s.pipes[s.holds[PortRecv(w)]].lock.None?
    ensures exists s' :: Alone(s, w.owner, s') && HandledAs(s, s', w.owner, s.holds[PortRecv(w)])
  {
    hide Inv, Alone, Run, Do, Actor, WithoutFirst, Reachable;
    ReachableInv(s);
    NoLostWakeUp(s, s.holds[PortRecv(w)]);
    FirstQueued(s, s.holds[PortRecv(w)]);
    HandleBegins(s, w);
    var s1 := Do(s, Handle(w)).state;
    var s' := HandleRun(s1, w.owner);
    AloneThen(s, w.owner, Handle(w), s');
    assert HandledAs(s, s', w.owner, s.holds[PortRecv(w)]);
  }

  lemma HandleBegins(s: State, w: Worker)
    requires At(s, w.owner, Idle) && w in s.ports && PortRecv(w) in s.holds
    ensures Actor(Handle(w)) == w.owner
    ensures Do(s, Handle(w)) == Next(Go(s, w.owner, Handling(w, s.holds[PortRecv(w)], Waiting, None)))
    ensures var s1 := Go(s, w.owner, Handling(w, s.holds[PortRecv(w)], Waiting, None));
            && At(s1, w.owner, Handling(w, s.holds[PortRecv(w)], Waiting, None))
            && s1.pipes == s.pipes && s1.msgs == s.msgs
  {
  }

  lemma HandleRun(s: State, t: Tid) returns (s': State)
    requires t in s.threads && s.threads[t].Handling? && s.threads[t].handle == Waiting && s.threads[t].taken == None
    requires s.threads[t].p in s.pipes && s.pipes[s.threads[t].p].lock.None?
    requires var ps := s.pipes[s.threads[t].p];
             ps.queue != [] ==> ps.queue[0] in s.msgs && ps.bytes == 1
    ensures Alone(s, t, s') && HandledAs(s, s', t, s.threads[t].p)
  {
    hide Alone, Run, Do, Actor;
    var p := s.threads[t].p;
    HandleLockStep(s, t);
    var s1 := Do(s, HandleLock(t)).state;
    TakeStep(s1, t);
    var s2 := Do(s1, HandleTake(t)).state;
    var s3 := s2;
    if |s.pipes[p].queue| == 1 {
      DrainStep(s2, t);
      s3 := Do(s2, HandleDrain(t)).state;
    }
    HandleUnlockStep(s3, t);
    s' := Do(s3, HandleUnlock(t)).state;
    AloneHere(s', t);
    ActorIs(HandleUnlock(t));
    AloneThen(s3, t, HandleUnlock(t), s');
    if |s.pipes[p].queue| == 1 {
      ActorIs(HandleDrain(t));
      AloneThen(s2, t, HandleDrain(t), s');
    }
    ActorIs(HandleTake(t));
    AloneThen(s1, t, HandleTake(t), s');
    ActorIs(HandleLock(t));
    AloneThen(s, t, HandleLock(t), s');
  }

  lemma HandleLockStep(s: State, t: Tid)
    requires t in s.threads && s.threads[t].Handling? && s.threads[t].handle == Waiting
    requires s.threads[t].p in s.pipes && s.pipes[s.threads[t].p].lock.None?
    ensures var c := s.threads[t];
            Do(s, HandleLock(t)) ==
            Next(Go(s.(pipes := s.pipes[c.p := s.pipes[c.p].(lock := Some(t))]), t, c.(handle := Taking)))
  {
  }

  lemma TakeStep(s: State, t: Tid)
    requires t in s.threads && s.threads[t].Handling? && s.threads[t].handle == Taking && s.threads[t].p in s.pipes
    requires var ps := s.pipes[s.threads[t].p];
             ps.queue != [] ==> ps.queue[0] in s.msgs
    ensures var (c, ps) := (s.threads[t], s.pipes[s.threads[t].p]);
            Do(s, HandleTake(t)) ==
            if ps.queue == [] then Next(Go(s, t, c.(handle := HandleUnlocking)))
            else
              var m := ps.queue[0];
              Next(Go(s.(pipes := s.pipes[c.p := ps.(queue := ps.queue[1..], received := ps.received + [s.msgs[m].body])],
                         msgs := s.msgs[m := s.msgs[m].(at := InHand(t))]), t,
                      c.(handle := if |ps.queue| == 1 then Draining else HandleUnlocking, taken := Some(m))))
  {
  }

  lemma DrainStep(s: State, t: Tid)
    requires t in s.threads && s.threads[t].Handling? && s.threads[t].handle == Draining
    requires s.threads[t].p in s.pipes && s.pipes[s.threads[t].p].bytes == 1
    ensures var c := s.threads[t];
            Do(s, HandleDrain(t)) ==
            Next(Go(s.(pipes := s.pipes[c.p := s.pipes[c.p].(bytes := 0)]), t, c.(handle := HandleUnlocking)))
  {
  }

  lemma HandleUnlockStep(s: State, t: Tid)
    requires t in s.threads && s.threads[t].Handling? && s.threads[t].handle == HandleUnlocking
    requires s.threads[t].p in s.pipes && s.pipes[s.threads[t].p].lock == Some(t)
    ensures var c := s.threads[t];
            Do(s, HandleUnlock(t)) ==
            Next(Go(s.(pipes := s.pipes[c.p := s.pipes[c.p].(lock := None)]), t,
                    if c.taken.Some? then Reading(c.taken.value) else Idle))
  {
  }

  ghost predicate HandledAs(s: State, s': State, t: Tid, p: PipeId)
    requires p in s.pipes
  {
    var queue := s.pipes[p].queue;
    if queue == [] then At(s', t, Idle) && s'.pipes == s.pipes && s'.msgs == s.msgs
    else
      && At(s', t, Reading(queue[0])) && queue[0] in s.msgs
      && s'.pipes == s.pipes[p := WithoutFirst(s.pipes[p], s.msgs[queue[0]].body)]
      && s'.msgs == s.msgs[queue[0] := s.msgs[queue[0]].(at := InHand(t))]
  }

  function WithoutFirst(ps: Pipe, body: Body): Pipe
    requires ps.queue != []
  {
    ps.(queue := ps.queue[1..], received := ps.received + [body], bytes := if |ps.queue| == 1 then 0 else ps.bytes)
  }

  lemma FirstQueued(s: State, p: PipeId)
    requires Inv(s) && p in s.pipes
    ensures s.pipes[p].queue != [] ==> s.pipes[p].queue[0] in s.msgs
  {
    assert QueueOk(s.pipes[p], s.msgs);
  }

  // ----- handlers -----

  /** The handler that the steps of a schedule leave with `w`, given the one it has: the last one that was set. */
  ghost function LastSet(s: State, schedule: seq<Action>, w: Worker, handler: Option<nat>): Option<nat>
    decreases |schedule|
  {
    if schedule == [] then handler
    else
      match Do(s, schedule[0])
      case Next(s') =>
        LastSet(s', schedule[1..], w,
                if schedule[0].SetOnMessage? && schedule[0].w == w then schedule[0].func
                else if schedule[0] == Finalize(w) then None else handler)
      case _ => LastSet(s, schedule[1..], w, handler)
  }

  function HandlerOf(s: State, w: Worker): Option<nat> {
    if w in s.ports then Some(s.ports[w]) else None
  }

  /** Handlers are set and taken away by nothing else. */
  lemma StepHandler(s: State, a: Action, w: Worker)
    requires Do(s, a).Next?
    ensures HandlerOf(Do(s, a).state, w) ==
            if a.SetOnMessage? && a.w == w then a.func else if a == Finalize(w) then None else HandlerOf(s, w)
  {
    hide Do;
    if a.SetOnMessage? {
      SetHandler(s, a.w, a.func);
    } else if a.Finalize? {
      EndHandler(s, a.w);
    } else {
      SamePorts(s, a);
    }
  }

  lemma SetHandler(s: State, w: Worker, func: Option<nat>)
    requires Do(s, SetOnMessage(w, func)).Next?
    ensures Do(s, SetOnMessage(w, func)).state.ports == if func.Some? then s.ports[w := func.value] else s.ports - {w}
  {
  }

  lemma EndHandler(s: State, w: Worker)
    requires Do(s, Finalize(w)).Next?
    ensures Do(s, Finalize(w)).state.ports == s.ports - {w}
  {
  }

  lemma SamePorts(s: State, a: Action)
    requires Do(s, a).Next? && !a.SetOnMessage? && !a.Finalize?
    ensures Do(s, a).state.ports == s.ports
  {
    hide Do;
    match a
    case NewSab(_, _, _) => PortsOfSabs(s, a);
    case DropObject(_, _) => PortsOfSabs(s, a);
    case PostDup(_) => PortsOfSabs(s, a);
    case Adopt(_, _, _) => PortsOfSabs(s, a);
    case FreeEntry(_) => PortsOfSabs(s, a);
    case ReleasePipe(_) => PortsOfPipes(s, a);
    case StartWorker(t, id, p, q, child) =>
      StartIs(s, t, id, p, q, child);
      Started(s, t, Worker(t, id, Some(child)), p, q, child);
    case ParentRecv(_, _) => PortsOfPipes(s, a);
    case ParentSend(_) => PortsOfPipes(s, a);
    case _ => PortsOfOthers(s, a);
  }

  lemma PortsOfSabs(s: State, a: Action)
    requires (a.NewSab? || a.DropObject? || a.PostDup? || a.Adopt? || a.FreeEntry?) && Do(s, a).Next?
    ensures Do(s, a).state.ports == s.ports
  {
  }

  lemma PortsOfPipes(s: State, a: Action)
    requires (a.ReleasePipe? || a.ParentRecv? || a.ParentSend?) && Do(s, a).Next?
    ensures Do(s, a).state.ports == s.ports
  {
    hide DupPipe;
    match a
    case ParentRecv(t, id) =>
      DupIs(s, WorkerRecv(Worker(t, id, None)), ThreadRecv(t));
    case ParentSend(t) =>
      DupIs(s, WorkerSend(s.threads[t].w), ThreadSend(t));
    case _ =>
  }

  lemma StartIs(s: State, t: Tid, id: nat, p: PipeId, q: PipeId, child: Tid)
    ensures Do(s, StartWorker(t, id, p, q, child)) == DoStartWorker(s, t, Worker(t, id, Some(child)), p, q, child)
  {
    hide DoStartWorker;
  }

  lemma PortsOfOthers(s: State, a: Action)
    requires !a.SetOnMessage? && !a.Finalize? && Do(s, a).Next?
    requires !(a.NewSab? || a.DropObject? || a.PostDup? || a.Adopt? || a.FreeEntry?)
    requires !(a.ReleasePipe? || a.StartWorker? || a.ParentRecv? || a.ParentSend?)
    ensures Do(s, a).state.ports == s.ports
  {
    hide HeldBy;
  }

  lemma {:induction false} RunHandlers(s: State, schedule: seq<Action>, w: Worker)
    requires Run(s, schedule).Next?
    ensures HandlerOf(Run(s, schedule).state, w) == LastSet(s, schedule, w, HandlerOf(s, w))
    decreases |schedule|
  {
    hide Do, HandlerOf;
    if schedule != [] {
      match Do(s, schedule[0])
      case Next(s') =>
        StepHandler(s, schedule[0], w);
        RunHandlers(s', schedule[1..], w);
      case Disabled => RunHandlers(s, schedule[1..], w);
      case Fault =>
    }
  }

  /** Under every schedule the handler of a Worker object is the last one that was set and not taken away. */
  lemma HandlerIsLastSet(main: Tid, schedule: seq<Action>, w: Worker)
    ensures Run(Init(main), schedule).Next?
    ensures HandlerOf(Run(Init(main), schedule).state, w) == LastSet(Init(main), schedule, w, None)
  {
    EveryRunSafe(main, schedule);
    RunHandlers(Init(main), schedule, w);
    hide Do, Inv;
  }

  /** What an idle thread may always do: set a handler, ask for `Worker.parent` and, being the main one, start a
      thread. */
  lemma IdleProceeds(s: State, t: Tid, w: Worker, func: Option<nat>, p: PipeId, q: PipeId, child: Tid, id: nat)
    requires Reachable(s) && At(s, t, Idle)
    ensures w in s.workers && w.owner == t ==> Do(s, SetOnMessage(w, func)).Next?
    ensures ThreadRecv(t) in s.holds && ThreadSend(t) in s.holds && Unused(s, Worker(t, id, None)) ==>
              Do(s, ParentRecv(t, id)).Next?
    ensures ThreadRecv(t) !in s.holds && child !in s.threads && p != q && p !in s.pipes && q !in s.pipes
            && ThreadRecv(child) !in s.holds && ThreadSend(child) !in s.holds && Unused(s, Worker(t, id, Some(child))) ==>
              Do(s, StartWorker(t, id, p, q, child)).Next?
  {
    hide Inv, Unused, Do, Reachable;
    ReachableInv(s);
    StepSafe(s, SetOnMessage(w, func));
    StepSafe(s, ParentRecv(t, id));
    if w in s.workers && w.owner == t {
      SetReady(s, t, w, func);
    }
    if ThreadRecv(t) in s.holds && ThreadSend(t) in s.holds && Unused(s, Worker(t, id, None)) {
      ParentReady(s, t, id);
    }
    if ThreadRecv(t) !in s.holds && child !in s.threads && p != q && p !in s.pipes && q !in s.pipes
       && ThreadRecv(child) !in s.holds && ThreadSend(child) !in s.holds && Unused(s, Worker(t, id, Some(child))) {
      StartReady(s, t, id, p, q, child);
    }
  }

  lemma SetReady(s: State, t: Tid, w: Worker, func: Option<nat>)
    requires At(s, t, Idle) && w in s.workers && w.owner == t
    ensures Do(s, SetOnMessage(w, func)) != Disabled
  {
  }

  lemma ParentReady(s: State, t: Tid, id: nat)
    requires At(s, t, Idle) && ThreadRecv(t) in s.holds && ThreadSend(t) in s.holds && Unused(s, Worker(t, id, None))
    ensures Do(s, ParentRecv(t, id)) != Disabled
  {
    hide Unused;
  }

  lemma StartReady(s: State, t: Tid, id: nat, p: PipeId, q: PipeId, child: Tid)
    requires At(s, t, Idle) && ThreadRecv(t) !in s.holds && child !in s.threads && p != q && p !in s.pipes && q !in s.pipes
    requires ThreadRecv(child) !in s.holds && ThreadSend(child) !in s.holds && Unused(s, Worker(t, id, Some(child)))
    ensures Do(s, StartWorker(t, id, p, q, child)).Next?
  {
    hide Do, DoStartWorker, Unused, WorkerHolds, EmptyPipe;
    StartedState(s, t, Worker(t, id, Some(child)), p, q, child);
    StartIs(s, t, id, p, q, child);
  }
}
