/** What every step of every thread keeps, and what follows for whole runs: no fault, no lost wake-up,
    messages in order and exactly once, and counts equal to the live references. */
module WorkerSafety {
  import opened Options
  import opened RefCounts
  import opened WorkerPipe

  // ----- the invariant, one part at a time -----

  function PipeCounts(pipes: map<PipeId, Pipe>): map<PipeId, int> {
    map p | p in pipes :: pipes[p].refCount
  }

  /** The handle is waiting to be released by its thread. */
  ghost predicate Pending(threads: map<Tid, Ctl>, h: Holder) {
    && h.Owner() in threads
    && threads[h.Owner()].Releasing?
    && h in threads[h.Owner()].holders
  }

  /** The object that contains the pointer exists. */
  ghost predicate Registered(workers: set<Worker>, ports: map<Worker, nat>, h: Holder) {
    match h
    case WorkerRecv(w) => w in workers
    case WorkerSend(w) => w in workers
    case PortRecv(w) => w in ports
    case _ => false
  }

  ghost predicate IsBuilding(threads: map<Tid, Ctl>, h: Holder) {
    h.WorkerRecv? && h.w.owner in threads && threads[h.w.owner] == Building(h.w)
  }

  /** The references to pipes are exactly the pointers of existing objects and of those being released. */
  ghost predicate HoldersOk(holds: map<Holder, PipeId>, workers: set<Worker>, ports: map<Worker, nat>,
                            threads: map<Tid, Ctl>) {
    && (forall w | w in workers :: WorkerRecv(w) in holds && WorkerSend(w) in holds)
    && (forall w | w in ports :: w in workers && PortRecv(w) in holds)
    && (forall h | h in holds ::
          h.ThreadRecv? || h.ThreadSend? || Registered(workers, ports, h) || Pending(threads, h) || IsBuilding(threads, h))
  }

  ghost predicate NoDup<T(!new)>(s: seq<T>) {
    forall i, j | 0 <= i < j < |s| :: s[i] != s[j]
  }

  /** What a thread relies on about the pipes and objects it works with. */
  ghost predicate ThreadOk(t: Tid, c: Ctl, holds: map<Holder, PipeId>, workers: set<Worker>, ports: map<Worker, nat>) {
    match c
    case Idle => true
    case Building(w) =>
      w.owner == t && w !in workers && w !in ports && ThreadSend(t) in holds
      && WorkerRecv(w) in holds && WorkerSend(w) !in holds && PortRecv(w) !in holds
    case Posting(w, p, _, _) => w.owner == t && w in workers && WorkerSend(w) in holds && holds[WorkerSend(w)] == p
    case Handling(w, p, stage, taken) =>
      && w.owner == t && w in ports && PortRecv(w) in holds && holds[PortRecv(w)] == p
      && (stage == Waiting || stage == Taking ==> taken == None) && (stage == Draining ==> taken.Some?)
    case Reading(_) => true
    case Releasing(hs, _) =>
      && NoDup(hs)
      && forall h | h in hs :: h in holds && h.Owner() == t && !Registered(workers, ports, h)
  }

  ghost predicate ThreadsOk(holds: map<Holder, PipeId>, workers: set<Worker>, ports: map<Worker, nat>,
                            threads: map<Tid, Ctl>) {
    forall t | t in threads :: ThreadOk(t, threads[t], holds, workers, ports)
  }

  /** The holder of a mutex is in its critical section, and nobody else is in one. */
  ghost predicate LocksOk(pipes: map<PipeId, Pipe>, threads: map<Tid, Ctl>) {
    && (forall p | p in pipes && pipes[p].lock.Some? ::
          && pipes[p].lock.value in threads
          && threads[pipes[p].lock.value].InSection() && threads[pipes[p].lock.value].p == p)
    && (forall t | t in threads && threads[t].InSection() ::
          threads[t].p in pipes && pipes[threads[t].p].lock == Some(t))
  }

  /** Between signalling and appending, and between taking and draining, the byte stands for no message. */
  ghost predicate Between(ps: Pipe, threads: map<Tid, Ctl>) {
    && ps.lock.Some? && ps.lock.value in threads
    && var c := threads[ps.lock.value];
       (c.Posting? && c.post == Appending) || (c.Handling? && c.handle == Draining)
  }

  /** The OS pipe holds one byte when the queue is not empty, or is about to be, or has just been; else none. */
  ghost predicate SignalsOk(pipes: map<PipeId, Pipe>, threads: map<Tid, Ctl>) {
    && (forall p | p in pipes ::
          pipes[p].bytes == if pipes[p].queue != [] || Between(pipes[p], threads) then 1 else 0)
    && (forall t | t in threads && threads[t].Handling? && threads[t].handle == Draining ::
          threads[t].p in pipes && pipes[threads[t].p].queue == [])
  }

  /** The queue is what was sent and not yet received, in order. */
  ghost predicate QueueOk(ps: Pipe, msgs: map<MsgId, Message>) {
    && |ps.sent| == |ps.received| + |ps.queue|
    && ps.received == ps.sent[..|ps.received|]
    && forall i | 0 <= i < |ps.queue| :: ps.queue[i] in msgs && msgs[ps.queue[i]].body == ps.sent[|ps.received| + i]
  }

  ghost predicate QueuesOk(pipes: map<PipeId, Pipe>, msgs: map<MsgId, Message>) {
    forall p | p in pipes :: QueueOk(pipes[p], msgs)
  }

  ghost predicate PlaceOk(m: MsgId, at: Place, pipes: map<PipeId, Pipe>, threads: map<Tid, Ctl>) {
    match at
    case InPipe(p) => p in pipes && m in pipes[p].queue
    case InHand(t) => t in threads && m in threads[t].Carried()
  }

  /** The listed messages are different ones, and all at `at`. */
  ghost predicate Lists(list: seq<MsgId>, at: Place, msgs: map<MsgId, Message>) {
    NoDup(list) && forall m | m in list :: m in msgs && msgs[m].at == at
  }

  /** Every message is in exactly one place: once in one queue, or once in the hands of one thread. */
  ghost predicate PlacesOk(pipes: map<PipeId, Pipe>, msgs: map<MsgId, Message>, threads: map<Tid, Ctl>) {
    && (forall m | m in msgs :: PlaceOk(m, msgs[m].at, pipes, threads))
    && (forall p | p in pipes :: Lists(pipes[p].queue, InPipe(p), msgs))
    && (forall t | t in threads :: Lists(threads[t].Carried(), InHand(t), msgs))
  }

  /** Which references a message holds, by where it is. */
  ghost predicate MessageOk(msg: Message, threads: map<Tid, Ctl>, refs: map<SabRef, Sab>) {
    && msg.lo <= msg.hi <= |msg.body.sabs|
    && match msg.at
       case InPipe(_) => msg.lo == 0 && msg.hi == |msg.body.sabs|
       case InHand(t) =>
         t in threads && match threads[t]
           case Posting(_, _, _, Preparing) =>
             && msg.lo == 0
             && forall i | msg.hi <= i < |msg.body.sabs| :: HeldBy(refs, t, msg.body.sabs[i])
           case Releasing(_, _) => msg.hi == |msg.body.sabs|
           case _ => msg.lo == 0 && msg.hi == |msg.body.sabs|
  }

  ghost predicate MessagesOk(msgs: map<MsgId, Message>, threads: map<Tid, Ctl>, refs: map<SabRef, Sab>) {
    forall m | m in msgs :: MessageOk(msgs[m], threads, refs)
  }

  /** The references of messages are those of the messages that exist. */
  ghost predicate EntriesOk(msgs: map<MsgId, Message>, refs: map<SabRef, Sab>) {
    && (forall m: nat, i: nat | Entry(m, i) in refs ::
          && m in msgs && msgs[m].lo <= i < msgs[m].hi && i < |msgs[m].body.sabs|
          && refs[Entry(m, i)] == msgs[m].body.sabs[i])
    && (forall m: nat, i: nat | m in msgs && msgs[m].lo <= i < msgs[m].hi :: Entry(m, i) in refs)
  }

  ghost predicate Inv(s: State) {
    && Counted(s.sabs, s.refs)
    && Counted(PipeCounts(s.pipes), s.holds)
    && HoldersOk(s.holds, s.workers, s.ports, s.threads)
    && ThreadsOk(s.holds, s.workers, s.ports, s.threads)
    && LocksOk(s.pipes, s.threads)
    && SignalsOk(s.pipes, s.threads)
    && QueuesOk(s.pipes, s.msgs)
    && PlacesOk(s.pipes, s.msgs, s.threads)
    && MessagesOk(s.msgs, s.threads, s.refs)
    && EntriesOk(s.msgs, s.refs)
  }

  /** A step from a state that satisfies the invariant neither faults nor breaks it. */
  ghost predicate Safe(o: Outcome) {
    o != Fault && (o.Next? ==> Inv(o.state))
  }

  // ----- the shared buffers -----

  lemma NewSabSafe(s: State, t: Tid, o: nat, b: Sab)
    requires Inv(s)
    ensures Safe(DoNewSab(s, t, o, b))
  {
    hide HoldersOk, ThreadsOk, LocksOk, SignalsOk, QueuesOk, PlacesOk;
    if At(s, t, Idle) && Object(t, o) !in s.refs && b !in s.sabs {
      Created(s.sabs, s.refs, Object(t, o), b);
      MoreObjects(s, t, o, b);
    }
  }

  /** Another object for a buffer does not concern the messages. */
  lemma MoreObjects(s: State, t: Tid, o: nat, b: Sab)
    requires MessagesOk(s.msgs, s.threads, s.refs) && EntriesOk(s.msgs, s.refs) && Object(t, o) !in s.refs
    ensures var refs := s.refs[Object(t, o) := b]; MessagesOk(s.msgs, s.threads, refs) && EntriesOk(s.msgs, refs)
  {
    var refs := s.refs[Object(t, o) := b];
    forall m | m in s.msgs
      ensures MessageOk(s.msgs[m], s.threads, refs)
    {
      assert MessageOk(s.msgs[m], s.threads, s.refs);
      forall u, c | HeldBy(s.refs, u, c)
        ensures HeldBy(refs, u, c)
      {
        var o' :| Object(u, o') in s.refs && s.refs[Object(u, o')] == c;
        assert Object(u, o') in refs && refs[Object(u, o')] == c;
      }
    }
  }

  lemma DropObjectSafe(s: State, t: Tid, o: nat)
    requires Inv(s)
    ensures Safe(DoDropObject(s, t, o))
  {
    hide HoldersOk, ThreadsOk, LocksOk, SignalsOk, QueuesOk, PlacesOk;
    if At(s, t, Idle) && Object(t, o) in s.refs {
      Released(s.sabs, s.refs, Object(t, o));
      FewerObjects(s, t, o);
    }
  }

  /** A thread that is posting does not drop objects, so what it is about to count stays alive. */
  lemma FewerObjects(s: State, t: Tid, o: nat)
    requires MessagesOk(s.msgs, s.threads, s.refs) && EntriesOk(s.msgs, s.refs) && At(s, t, Idle)
    ensures var refs := s.refs - {Object(t, o)}; MessagesOk(s.msgs, s.threads, refs) && EntriesOk(s.msgs, refs)
  {
    var refs := s.refs - {Object(t, o)};
    forall m | m in s.msgs
      ensures MessageOk(s.msgs[m], s.threads, refs)
    {
      assert MessageOk(s.msgs[m], s.threads, s.refs);
      forall u, c | HeldBy(s.refs, u, c) && u != t
        ensures HeldBy(refs, u, c)
      {
        var o' :| Object(u, o') in s.refs && s.refs[Object(u, o')] == c;
        assert Object(u, o') in refs && refs[Object(u, o')] == c;
      }
    }
  }

  lemma AdoptSafe(s: State, t: Tid, i: nat, o: nat)
    requires Inv(s)
    ensures Safe(DoAdopt(s, t, i, o))
  {
    hide HoldersOk, ThreadsOk, LocksOk, SignalsOk, QueuesOk;
    if t in s.threads && s.threads[t].Reading? && Object(t, o) !in s.refs {
      var m := s.threads[t].m;
      assert m in s.threads[t].Carried();
      assert MessageOk(s.msgs[m], s.threads, s.refs);
      var body := s.msgs[m].body;
      if i < |body.sabs| {
        assert Entry(m, i) in s.refs;
        Duplicated(s.sabs, s.refs, Object(t, o), body.sabs[i]);
        MoreObjects(s, t, o, body.sabs[i]);
      }
    }
  }

  // ----- what a move of one thread means for each part -----

  lemma HoldersMoved(s: State, t: Tid, c: Ctl)
    requires HoldersOk(s.holds, s.workers, s.ports, s.threads) && t in s.threads
    requires !s.threads[t].Releasing? && !s.threads[t].Building?
    ensures HoldersOk(s.holds, s.workers, s.ports, s.threads[t := c])
  {
  }

  lemma ThreadsMoved(s: State, t: Tid, c: Ctl)
    requires ThreadsOk(s.holds, s.workers, s.ports, s.threads) && ThreadOk(t, c, s.holds, s.workers, s.ports)
    ensures ThreadsOk(s.holds, s.workers, s.ports, s.threads[t := c])
  {
  }

  lemma LocksMoved(pipes: map<PipeId, Pipe>, threads: map<Tid, Ctl>, t: Tid, c: Ctl)
    requires LocksOk(pipes, threads) && t in threads
    requires c.InSection() == threads[t].InSection() && (c.InSection() ==> c.p == threads[t].p)
    ensures LocksOk(pipes, threads[t := c])
  {
  }

  predicate Amid(c: Ctl) {
    (c.Posting? && c.post == Appending) || (c.Handling? && c.handle == Draining)
  }

  lemma SignalsMoved(pipes: map<PipeId, Pipe>, threads: map<Tid, Ctl>, t: Tid, c: Ctl)
    requires SignalsOk(pipes, threads) && t in threads && !Amid(threads[t]) && !Amid(c)
    ensures SignalsOk(pipes, threads[t := c])
  {
    forall p | p in pipes
      ensures Between(pipes[p], threads[t := c]) == Between(pipes[p], threads)
    {
    }
  }

  lemma PlacesMoved(s: State, t: Tid, c: Ctl)
    requires PlacesOk(s.pipes, s.msgs, s.threads) && t in s.threads && c.Carried() == s.threads[t].Carried()
    ensures PlacesOk(s.pipes, s.msgs, s.threads[t := c])
  {
    var threads := s.threads[t := c];
    forall m | m in s.msgs
      ensures PlaceOk(m, s.msgs[m].at, s.pipes, threads)
    {
      assert PlaceOk(m, s.msgs[m].at, s.pipes, s.threads);
    }
  }

  /** Only the messages in the hands of the thread are concerned by its moves. */
  lemma MessagesMoved(s: State, t: Tid, c: Ctl)
    requires MessagesOk(s.msgs, s.threads, s.refs) && t in s.threads
    requires forall m | m in s.msgs && s.msgs[m].at == InHand(t) :: MessageOk(s.msgs[m], s.threads[t := c], s.refs)
    ensures MessagesOk(s.msgs, s.threads[t := c], s.refs)
  {
    forall m | m in s.msgs
      ensures MessageOk(s.msgs[m], s.threads[t := c], s.refs)
    {
      assert MessageOk(s.msgs[m], s.threads, s.refs);
    }
  }

  lemma InHandIsCarried(s: State, t: Tid)
    requires PlacesOk(s.pipes, s.msgs, s.threads) && t in s.threads
    ensures forall m | m in s.msgs :: s.msgs[m].at == InHand(t) <==> m in s.threads[t].Carried()
    ensures forall m | m in s.threads[t].Carried() :: m in s.msgs
  {
    forall m | m in s.msgs && s.msgs[m].at == InHand(t)
      ensures m in s.threads[t].Carried()
    {
      assert PlaceOk(m, s.msgs[m].at, s.pipes, s.threads);
    }
  }

  // ----- posting -----

  lemma SenderHeld(s: State, w: Worker)
    requires Inv(s)
    ensures w in s.workers ==> WorkerSend(w) in s.holds
  {
    hide ThreadsOk, LocksOk, SignalsOk, QueuesOk, PlacesOk, MessagesOk, EntriesOk, Counted;
  }

  lemma PostSafe(s: State, t: Tid, w: Worker, m: MsgId, body: Body)
    requires Inv(s) && w.owner == t
    ensures Safe(DoPost(s, t, w, m, body))
  {
    SenderHeld(s, w);
    if DoPost(s, t, w, m, body).Next? {
      PostedInv(s, t, Posting(w, s.holds[WorkerSend(w)], m, Preparing), body);
    }
    hide Inv, HeldBy;
  }

  lemma PostedInv(s: State, t: Tid, c: Ctl, body: Body)
    requires Inv(s) && At(s, t, Idle) && c.Posting? && c.post == Preparing && c.m !in s.msgs
    requires ThreadOk(t, c, s.holds, s.workers, s.ports)
    requires forall i | 0 <= i < |body.sabs| :: HeldBy(s.refs, t, body.sabs[i])
    ensures Inv(Go(s.(msgs := s.msgs[c.m := Message(body, 0, 0, InHand(t))]), t, c))
  {
    hide HoldersOk, ThreadsOk, ThreadOk, LocksOk, SignalsOk, QueuesOk, PlacesOk, MessagesOk, EntriesOk, Counted, HeldBy;
    HoldersMoved(s, t, c);
    ThreadsMoved(s, t, c);
    LocksMoved(s.pipes, s.threads, t, c);
    SignalsMoved(s.pipes, s.threads, t, c);
    NewMessage(s, t, c, body);
  }

  /** A message record with other references or in another place has the same contents. */
  lemma QueuesKept(pipes: map<PipeId, Pipe>, msgs: map<MsgId, Message>, m: MsgId, msg: Message)
    requires QueuesOk(pipes, msgs) && (m in msgs ==> msg.body == msgs[m].body)
    ensures QueuesOk(pipes, msgs[m := msg])
  {
    forall p | p in pipes
      ensures QueueOk(pipes[p], msgs[m := msg])
    {
      assert QueueOk(pipes[p], msgs);
    }
  }

  lemma NewMessage(s: State, t: Tid, c: Ctl, body: Body)
    requires At(s, t, Idle) && c.Posting? && c.post == Preparing && c.m !in s.msgs
    requires QueuesOk(s.pipes, s.msgs) && PlacesOk(s.pipes, s.msgs, s.threads)
    requires MessagesOk(s.msgs, s.threads, s.refs) && EntriesOk(s.msgs, s.refs)
    requires forall i | 0 <= i < |body.sabs| :: HeldBy(s.refs, t, body.sabs[i])
    ensures var (msgs, threads) := (s.msgs[c.m := Message(body, 0, 0, InHand(t))], s.threads[t := c]);
            && QueuesOk(s.pipes, msgs) && PlacesOk(s.pipes, msgs, threads)
            && MessagesOk(msgs, threads, s.refs) && EntriesOk(msgs, s.refs)
  {
    var msg := Message(body, 0, 0, InHand(t));
    hide *;
    QueuesKept(s.pipes, s.msgs, c.m, msg);
    NewPlace(s, t, c, msg);
    NewEntries(s, c.m, msg);
    NewReferences(s, t, c, msg);
  }

  lemma NewEntries(s: State, m: MsgId, msg: Message)
    requires EntriesOk(s.msgs, s.refs) && m !in s.msgs && msg.lo == msg.hi == 0
    ensures EntriesOk(s.msgs[m := msg], s.refs)
  {
  }

  lemma NewReferences(s: State, t: Tid, c: Ctl, msg: Message)
    requires At(s, t, Idle) && PlacesOk(s.pipes, s.msgs, s.threads) && MessagesOk(s.msgs, s.threads, s.refs)
    requires c.Posting? && c.post == Preparing && c.m !in s.msgs && msg.at == InHand(t) && msg.lo == msg.hi == 0
    requires forall i | 0 <= i < |msg.body.sabs| :: HeldBy(s.refs, t, msg.body.sabs[i])
    ensures MessagesOk(s.msgs[c.m := msg], s.threads[t := c], s.refs)
  {
    InHandIsCarried(s, t);
    hide PlacesOk, HeldBy;
    var (msgs, threads) := (s.msgs[c.m := msg], s.threads[t := c]);
    forall m | m in msgs
      ensures MessageOk(msgs[m], threads, s.refs)
    {
      if m != c.m {
        assert MessageOk(s.msgs[m], s.threads, s.refs);
      }
    }
  }

  lemma NewPlace(s: State, t: Tid, c: Ctl, msg: Message)
    requires At(s, t, Idle) && PlacesOk(s.pipes, s.msgs, s.threads)
    requires c.Posting? && c.post == Preparing && c.m !in s.msgs && msg.at == InHand(t)
    ensures PlacesOk(s.pipes, s.msgs[c.m := msg], s.threads[t := c])
  {
    var (msgs, threads) := (s.msgs[c.m := msg], s.threads[t := c]);
    assert Lists(c.Carried(), InHand(t), msgs);
    NewPlaced(s, t, c, msg);
    hide *;
    PlacesSplit(s.pipes, s.msgs, s.threads);
    HandsAfterMove(s.threads, s.msgs, t, c, c.m, msg);
    QueuesAfterNew(s.pipes, s.msgs, c.m, msg);
    PlacesSplit(s.pipes, msgs, threads);
  }

  lemma QueuesAfterNew(pipes: map<PipeId, Pipe>, msgs: map<MsgId, Message>, m: MsgId, msg: Message)
    requires QueuesList(pipes, msgs) && m !in msgs
    ensures QueuesList(pipes, msgs[m := msg])
  {
    hide Lists;
    forall q | q in pipes
      ensures Lists(pipes[q].queue, InPipe(q), msgs[m := msg])
    {
      OtherList(pipes[q].queue, InPipe(q), msgs, m, msg);
    }
  }

  lemma NewPlaced(s: State, t: Tid, c: Ctl, msg: Message)
    requires At(s, t, Idle) && PlacesOk(s.pipes, s.msgs, s.threads)
    requires c.Posting? && c.post == Preparing && c.m !in s.msgs && msg.at == InHand(t)
    ensures var msgs := s.msgs[c.m := msg];
            forall m | m in msgs :: PlaceOk(m, msgs[m].at, s.pipes, s.threads[t := c])
  {
    hide Lists;
    var (msgs, threads) := (s.msgs[c.m := msg], s.threads[t := c]);
    forall m | m in msgs
      ensures PlaceOk(m, msgs[m].at, s.pipes, threads)
    {
      if m != c.m {
        assert PlaceOk(m, s.msgs[m].at, s.pipes, s.threads);
      }
    }
  }

  /** A message that stays where it is. */
  lemma PlacesKept(s: State, m: MsgId, msg: Message)
    requires PlacesOk(s.pipes, s.msgs, s.threads) && m in s.msgs && msg.at == s.msgs[m].at
    ensures PlacesOk(s.pipes, s.msgs[m := msg], s.threads)
  {
    forall n | n in s.msgs
      ensures PlaceOk(n, s.msgs[n].at, s.pipes, s.threads)
    {
    }
  }

  lemma PreparingFacts(s: State, t: Tid)
    requires Inv(s) && t in s.threads && s.threads[t].Posting? && s.threads[t].post == Preparing
    ensures var m := s.threads[t].m;
            && m in s.msgs
            && s.msgs[m].at == InHand(t) && s.msgs[m].lo == 0 && s.msgs[m].hi <= |s.msgs[m].body.sabs|
            && (forall i | s.msgs[m].hi <= i < |s.msgs[m].body.sabs| ::
                  s.msgs[m].body.sabs[i] in s.sabs && HeldBy(s.refs, t, s.msgs[m].body.sabs[i]))
            && Entry(m, s.msgs[m].hi) !in s.refs
  {
    hide HoldersOk, ThreadsOk, LocksOk, SignalsOk, QueuesOk;
    var m := s.threads[t].m;
    assert m in s.threads[t].Carried();
    assert MessageOk(s.msgs[m], s.threads, s.refs);
    forall i | s.msgs[m].hi <= i < |s.msgs[m].body.sabs|
      ensures s.msgs[m].body.sabs[i] in s.sabs
    {
      assert HeldBy(s.refs, t, s.msgs[m].body.sabs[i]);
      var o :| Object(t, o) in s.refs && s.refs[Object(t, o)] == s.msgs[m].body.sabs[i];
    }
  }

  lemma PostDupSafe(s: State, t: Tid)
    requires Inv(s)
    ensures Safe(DoPostDup(s, t))
  {
    hide HoldersOk, ThreadsOk, LocksOk, SignalsOk, QueuesOk, PlacesOk, MessagesOk, EntriesOk, Counted, HeldBy;
    if t in s.threads && s.threads[t].Posting? && s.threads[t].post == Preparing {
      PreparingFacts(s, t);
      var m := s.threads[t].m;
      var msg := s.msgs[m];
      if msg.hi < |msg.body.sabs| {
        var more := msg.(hi := msg.hi + 1);
        Duplicated(s.sabs, s.refs, Entry(m, msg.hi), msg.body.sabs[msg.hi]);
        QueuesKept(s.pipes, s.msgs, m, more);
        PlacesKept(s, m, more);
        MoreEntries(s, t);
      }
    }
  }

  lemma MoreEntries(s: State, t: Tid)
    requires t in s.threads && s.threads[t].Posting? && s.threads[t].post == Preparing && s.threads[t].m in s.msgs
    requires MessagesOk(s.msgs, s.threads, s.refs) && EntriesOk(s.msgs, s.refs)
    requires var msg := s.msgs[s.threads[t].m]; msg.at == InHand(t) && msg.hi < |msg.body.sabs|
    ensures var m := s.threads[t].m;
            var msg := s.msgs[m];
            var (msgs, refs) := (s.msgs[m := msg.(hi := msg.hi + 1)], s.refs[Entry(m, msg.hi) := msg.body.sabs[msg.hi]]);
            MessagesOk(msgs, s.threads, refs) && EntriesOk(msgs, refs)
  {
    var m := s.threads[t].m;
    var msg := s.msgs[m];
    var (msgs, refs) := (s.msgs[m := msg.(hi := msg.hi + 1)], s.refs[Entry(m, msg.hi) := msg.body.sabs[msg.hi]]);
    assert MessageOk(msg, s.threads, s.refs);
    assert EntriesOk(msgs, refs);
    hide EntriesOk;
    forall n | n in msgs
      ensures MessageOk(msgs[n], s.threads, refs)
    {
      assert MessageOk(s.msgs[n], s.threads, s.refs);
      HeldMore(s.refs, refs);
    }
  }

  lemma HeldMore(refs: map<SabRef, Sab>, more: map<SabRef, Sab>)
    requires forall u, o | Object(u, o) in refs :: Object(u, o) in more && more[Object(u, o)] == refs[Object(u, o)]
    ensures forall u, b | HeldBy(refs, u, b) :: HeldBy(more, u, b)
  {
    forall u, b | HeldBy(refs, u, b)
      ensures HeldBy(more, u, b)
    {
      var o :| Object(u, o) in refs && refs[Object(u, o)] == b;
      assert Object(u, o) in more;
    }
  }

  // ----- the mutex -----

  lemma PipesKept(s: State, p: PipeId, ps: Pipe)
    requires p in s.pipes && ps.queue == s.pipes[p].queue
    requires ps.sent == s.pipes[p].sent && ps.received == s.pipes[p].received
    requires QueuesOk(s.pipes, s.msgs) && PlacesOk(s.pipes, s.msgs, s.threads)
    ensures var pipes := s.pipes[p := ps];
            && (ps.refCount == s.pipes[p].refCount ==> PipeCounts(pipes) == PipeCounts(s.pipes))
            && QueuesOk(pipes, s.msgs) && PlacesOk(pipes, s.msgs, s.threads)
  {
    var pipes := s.pipes[p := ps];
    assert QueuesOk(pipes, s.msgs) by {
      assert QueueOk(s.pipes[p], s.msgs);
    }
    forall m | m in s.msgs
      ensures PlaceOk(m, s.msgs[m].at, pipes, s.threads)
    {
      assert PlaceOk(m, s.msgs[m].at, s.pipes, s.threads);
    }
  }

  /** A thread that uses a pipe has a reference to it, so the pipe exists. */
  lemma UsedPipeExists(s: State, t: Tid)
    requires Inv(s) && t in s.threads && (s.threads[t].Posting? || s.threads[t].Handling?)
    ensures s.threads[t].p in s.pipes
    ensures s.threads[t].InSection() ==> s.pipes[s.threads[t].p].lock == Some(t)
  {
    hide HoldersOk, SignalsOk, QueuesOk, PlacesOk, MessagesOk, EntriesOk;
    assert ThreadOk(t, s.threads[t], s.holds, s.workers, s.ports);
    var c := s.threads[t];
    assert s.holds[if c.Posting? then WorkerSend(c.w) else PortRecv(c.w)] == c.p;
  }

  /** Taking or giving back the mutex moves only the thread and the lock. */
  lemma MutexSafe(s: State, t: Tid, c: Ctl, lock: Option<Tid>)
    requires Inv(s) && t in s.threads && (s.threads[t].Posting? || s.threads[t].Handling?)
    requires !Amid(s.threads[t]) && !Amid(c) && c.Carried() == s.threads[t].Carried()
    requires ThreadOk(t, c, s.holds, s.workers, s.ports)
    requires forall m | m in s.msgs && s.msgs[m].at == InHand(t) :: MessageOk(s.msgs[m], s.threads[t := c], s.refs)
    requires var p := s.threads[t].p;
             && p in s.pipes
             && if s.threads[t].InSection() then s.pipes[p].lock == Some(t) && lock == None && !c.InSection()
                else s.pipes[p].lock == None && lock == Some(t) && c.InSection() && c.p == p
    ensures var p := s.threads[t].p;
            Inv(Go(s.(pipes := s.pipes[p := s.pipes[p].(lock := lock)]), t, c))
  {
    var p := s.threads[t].p;
    var ps := s.pipes[p].(lock := lock);
    var s1 := s.(pipes := s.pipes[p := ps]);
    hide HoldersOk, ThreadsOk, ThreadOk, LocksOk, SignalsOk, QueuesOk, PlacesOk, MessagesOk, MessageOk, EntriesOk, Counted;
    PipesKept(s, p, ps);
    HoldersMoved(s, t, c);
    ThreadsMoved(s, t, c);
    MutexMoved(s, t, c, lock);
    PlacesMoved(s1, t, c);
    MessagesMoved(s, t, c);
  }

  lemma MutexMoved(s: State, t: Tid, c: Ctl, lock: Option<Tid>)
    requires LocksOk(s.pipes, s.threads) && SignalsOk(s.pipes, s.threads)
    requires t in s.threads && (s.threads[t].Posting? || s.threads[t].Handling?) && !Amid(s.threads[t]) && !Amid(c)
    requires var p := s.threads[t].p;
             && p in s.pipes
             && if s.threads[t].InSection() then s.pipes[p].lock == Some(t) && lock == None && !c.InSection()
                else s.pipes[p].lock == None && lock == Some(t) && c.InSection() && c.p == p
    ensures var p := s.threads[t].p;
            var pipes := s.pipes[p := s.pipes[p].(lock := lock)];
            LocksOk(pipes, s.threads[t := c]) && SignalsOk(pipes, s.threads[t := c])
  {
    var p := s.threads[t].p;
    var ps := s.pipes[p].(lock := lock);
    SignalsLock(s, t, c, p, lock);
    hide SignalsOk;
    var (pipes, threads) := (s.pipes[p := ps], s.threads[t := c]);
    forall u | u in threads && threads[u].InSection()
      ensures threads[u].p in pipes && pipes[threads[u].p].lock == Some(u)
    {
      if u != t {
        assert s.pipes[s.threads[u].p].lock == Some(u);
      }
    }
  }

  lemma SignalsLock(s: State, t: Tid, c: Ctl, p: PipeId, lock: Option<Tid>)
    requires SignalsOk(s.pipes, s.threads) && t in s.threads && !Amid(s.threads[t]) && !Amid(c) && p in s.pipes
    requires s.pipes[p].lock == None || s.pipes[p].lock == Some(t)
    requires lock == None || lock == Some(t)
    ensures SignalsOk(s.pipes[p := s.pipes[p].(lock := lock)], s.threads[t := c])
  {
    var (pipes, threads) := (s.pipes[p := s.pipes[p].(lock := lock)], s.threads[t := c]);
    forall q | q in s.pipes
      ensures Between(pipes[q], threads) == Between(s.pipes[q], s.threads)
    {
    }
  }

  /** Once all its references are counted, the message is whole. */
  lemma PreparedMoves(s: State, t: Tid, c: Ctl)
    requires Inv(s) && t in s.threads && s.threads[t].Posting? && s.threads[t].post == Preparing
    requires s.threads[t].m in s.msgs && s.msgs[s.threads[t].m].hi == |s.msgs[s.threads[t].m].body.sabs|
    requires c.Posting? && c.post != Preparing
    ensures forall m | m in s.msgs && s.msgs[m].at == InHand(t) :: MessageOk(s.msgs[m], s.threads[t := c], s.refs)
  {
    InHandIsCarried(s, t);
    hide HoldersOk, ThreadsOk, LocksOk, SignalsOk, QueuesOk, PlacesOk, EntriesOk, Counted;
    forall m | m in s.msgs && s.msgs[m].at == InHand(t)
      ensures MessageOk(s.msgs[m], s.threads[t := c], s.refs)
    {
      assert MessageOk(s.msgs[m], s.threads, s.refs);
    }
  }

  /** A thread with nothing in hand moves freely. */
  lemma HandEmpty(s: State, t: Tid, c: Ctl)
    requires Inv(s) && t in s.threads && s.threads[t].Carried() == []
    ensures forall m | m in s.msgs && s.msgs[m].at == InHand(t) :: MessageOk(s.msgs[m], s.threads[t := c], s.refs)
  {
    InHandIsCarried(s, t);
  }

  lemma IdleOk(s: State, t: Tid)
    ensures ThreadOk(t, Idle, s.holds, s.workers, s.ports)
    ensures forall m :: ThreadOk(t, Reading(m), s.holds, s.workers, s.ports)
  {
  }

  lemma PortExists(s: State, w: Worker)
    requires HoldersOk(s.holds, s.workers, s.ports, s.threads)
    ensures w in s.ports ==> PortRecv(w) in s.holds
    ensures w in s.workers ==> WorkerSend(w) in s.holds && WorkerRecv(w) in s.holds
  {
  }

  /** The next stage of the same operation. */
  lemma StageOk(s: State, t: Tid, c: Ctl)
    requires Inv(s) && t in s.threads
    requires match s.threads[t]
             case Posting(w, p, m, _) => c.Posting? && c == Posting(w, p, m, c.post)
             case Handling(w, p, Waiting, taken) => c == Handling(w, p, Taking, taken)
             case Handling(w, p, Taking, _) => c.Handling? && c.handle != Waiting && c.handle != Taking
                                               && c == Handling(w, p, c.handle, c.taken)
                                               && (c.handle == Draining ==> c.taken.Some?)
             case Handling(w, p, _, taken) => c == Handling(w, p, HandleUnlocking, taken)
             case _ => false
    ensures ThreadOk(t, c, s.holds, s.workers, s.ports)
  {
    hide HoldersOk, LocksOk, SignalsOk, QueuesOk, PlacesOk, MessagesOk, EntriesOk, Counted;
    assert ThreadOk(t, s.threads[t], s.holds, s.workers, s.ports);
  }

  lemma PostLockSafe(s: State, t: Tid)
    requires Inv(s)
    ensures Safe(DoPostLock(s, t))
  {
    hide Inv, ThreadOk, MessageOk, HeldBy;
    if t in s.threads && s.threads[t].Posting? && s.threads[t].post == Preparing {
      var c := s.threads[t];
      PreparingFacts(s, t);
      UsedPipeExists(s, t);
      if s.msgs[c.m].hi == |s.msgs[c.m].body.sabs| && s.pipes[c.p].lock == None {
        StageOk(s, t, c.(post := Signalling));
        PreparedMoves(s, t, c.(post := Signalling));
        MutexSafe(s, t, c.(post := Signalling), Some(t));
      }
    }
  }

  lemma PostUnlockSafe(s: State, t: Tid)
    requires Inv(s)
    ensures Safe(DoPostUnlock(s, t))
  {
    hide Inv, ThreadOk, MessageOk;
    if t in s.threads && s.threads[t].Posting? && s.threads[t].post == PostUnlocking {
      UsedPipeExists(s, t);
      HandEmpty(s, t, Idle);
      IdleOk(s, t);
      MutexSafe(s, t, Idle, None);
    }
  }

  lemma HandleSafe(s: State, t: Tid, w: Worker)
    requires Inv(s) && w.owner == t
    ensures Safe(DoHandle(s, t, w))
  {
    hide HoldersOk, ThreadsOk, LocksOk, SignalsOk, QueuesOk, PlacesOk, MessagesOk, EntriesOk, Counted, MessageOk;
    PortExists(s, w);
    if At(s, t, Idle) && w in s.ports {
      var c := Handling(w, s.holds[PortRecv(w)], Waiting, None);
      HoldersMoved(s, t, c);
      ThreadsMoved(s, t, c);
      LocksMoved(s.pipes, s.threads, t, c);
      SignalsMoved(s.pipes, s.threads, t, c);
      PlacesMoved(s, t, c);
      HandEmpty(s, t, c);
      MessagesMoved(s, t, c);
    }
  }

  lemma HandleLockSafe(s: State, t: Tid)
    requires Inv(s)
    ensures Safe(DoHandleLock(s, t))
  {
    hide Inv, ThreadOk, MessageOk;
    if t in s.threads && s.threads[t].Handling? && s.threads[t].handle == Waiting {
      var c := s.threads[t];
      UsedPipeExists(s, t);
      if s.pipes[c.p].lock == None {
        StageOk(s, t, c.(handle := Taking));
        HandMoves(s, t, c.(handle := Taking));
        MutexSafe(s, t, c.(handle := Taking), Some(t));
      }
    }
  }

  /** Between taking a message and reading it the thread keeps it whole. */
  lemma HandMoves(s: State, t: Tid, c: Ctl)
    requires Inv(s) && t in s.threads && s.threads[t].Handling? && !c.Posting? && !c.Releasing?
    ensures forall m | m in s.msgs && s.msgs[m].at == InHand(t) :: MessageOk(s.msgs[m], s.threads[t := c], s.refs)
  {
    hide HoldersOk, ThreadsOk, LocksOk, SignalsOk, QueuesOk, PlacesOk, EntriesOk, Counted;
    forall m | m in s.msgs && s.msgs[m].at == InHand(t)
      ensures MessageOk(s.msgs[m], s.threads[t := c], s.refs)
    {
      assert MessageOk(s.msgs[m], s.threads, s.refs);
    }
  }

  lemma HandleUnlockSafe(s: State, t: Tid)
    requires Inv(s)
    ensures Safe(DoHandleUnlock(s, t))
  {
    hide Inv, ThreadOk, MessageOk;
    if t in s.threads && s.threads[t].Handling? && s.threads[t].handle == HandleUnlocking {
      var c := s.threads[t];
      var next := if c.taken.Some? then Reading(c.taken.value) else Idle;
      UsedPipeExists(s, t);
      IdleOk(s, t);
      HandMoves(s, t, next);
      MutexSafe(s, t, next, None);
    }
  }

  // ----- inside the critical sections -----

  lemma LocksStay(s: State, t: Tid, c: Ctl, p: PipeId, ps: Pipe)
    requires LocksOk(s.pipes, s.threads) && p in s.pipes && ps.lock == s.pipes[p].lock
    requires t in s.threads && s.threads[t].InSection() && c.InSection() && c.p == s.threads[t].p
    ensures LocksOk(s.pipes[p := ps], s.threads[t := c])
  {
  }

  /** The pipe a thread holds locked is the only one its moves can concern. */
  lemma OthersBetween(s: State, t: Tid, c: Ctl, p: PipeId)
    requires LocksOk(s.pipes, s.threads) && t in s.threads && s.threads[t].InSection() && s.threads[t].p == p
    ensures forall q | q in s.pipes && q != p :: Between(s.pipes[q], s.threads[t := c]) == Between(s.pipes[q], s.threads)
  {
  }

  /** The signals after a step of the holder of the mutex of `p`. */
  lemma SignalsStep(s: State, t: Tid, c: Ctl, p: PipeId, ps: Pipe)
    requires LocksOk(s.pipes, s.threads) && SignalsOk(s.pipes, s.threads) && p in s.pipes && ps.lock == Some(t)
    requires t in s.threads && s.threads[t].InSection() && s.threads[t].p == p && c.InSection() && c.p == p
    requires ps.bytes == if ps.queue != [] || Amid(c) then 1 else 0
    requires c.Handling? && c.handle == Draining ==> ps.queue == []
    ensures SignalsOk(s.pipes[p := ps], s.threads[t := c])
  {
    OthersBetween(s, t, c, p);
    var (pipes, threads) := (s.pipes[p := ps], s.threads[t := c]);
    assert Between(ps, threads) == Amid(c);
    forall u | u in threads && threads[u].Handling? && threads[u].handle == Draining
      ensures threads[u].p in pipes && pipes[threads[u].p].queue == []
    {
      assert u != t ==> s.pipes[s.threads[u].p].lock == Some(u);
    }
  }

  lemma SignalNow(s: State, t: Tid)
    requires Inv(s) && t in s.threads && s.threads[t].InSection() && s.threads[t].p in s.pipes
    ensures var (c, ps) := (s.threads[t], s.pipes[s.threads[t].p]);
            && ps.bytes == (if ps.queue != [] || Amid(c) then 1 else 0)
            && (c.Handling? && c.handle == Draining ==> ps.queue == [])
  {
    hide HoldersOk, ThreadsOk, QueuesOk, PlacesOk, MessagesOk, EntriesOk, Counted;
  }

  /** A message in the hands of a thread in a critical section is whole. */
  lemma SectionMoves(s: State, t: Tid, c: Ctl)
    requires Inv(s) && t in s.threads && s.threads[t].InSection() && c.InSection()
    ensures forall m | m in s.msgs && s.msgs[m].at == InHand(t) :: MessageOk(s.msgs[m], s.threads[t := c], s.refs)
  {
    hide HoldersOk, ThreadsOk, LocksOk, SignalsOk, QueuesOk, PlacesOk, EntriesOk, Counted;
    forall m | m in s.msgs && s.msgs[m].at == InHand(t)
      ensures MessageOk(s.msgs[m], s.threads[t := c], s.refs)
    {
      assert MessageOk(s.msgs[m], s.threads, s.refs);
    }
  }

  /** A step in a critical section that touches only the bytes of the OS pipe. */
  lemma BytesSafe(s: State, t: Tid, c: Ctl, bytes: nat)
    requires Inv(s) && t in s.threads && s.threads[t].InSection() && s.threads[t].p in s.pipes
    requires c.InSection() && c.p == s.threads[t].p && c.Carried() == s.threads[t].Carried()
    requires s.pipes[c.p].lock == Some(t)
    requires ThreadOk(t, c, s.holds, s.workers, s.ports)
    requires bytes == if s.pipes[c.p].queue != [] || Amid(c) then 1 else 0
    requires c.Handling? ==> c.handle != Draining
    ensures Inv(Go(s.(pipes := s.pipes[c.p := s.pipes[c.p].(bytes := bytes)]), t, c))
  {
    var ps := s.pipes[c.p].(bytes := bytes);
    hide HoldersOk, ThreadsOk, ThreadOk, LocksOk, SignalsOk, QueuesOk, PlacesOk, MessagesOk, MessageOk, EntriesOk, Counted;
    PipesKept(s, c.p, ps);
    HoldersMoved(s, t, c);
    ThreadsMoved(s, t, c);
    LocksStay(s, t, c, c.p, ps);
    SignalsStep(s, t, c, c.p, ps);
    PlacesMoved(s.(pipes := s.pipes[c.p := ps]), t, c);
    SectionMoves(s, t, c);
    MessagesMoved(s, t, c);
  }

  lemma PostSignalSafe(s: State, t: Tid)
    requires Inv(s)
    ensures Safe(DoPostSignal(s, t))
  {
    hide Inv, ThreadOk;
    if t in s.threads && s.threads[t].Posting? && s.threads[t].post == Signalling {
      var c := s.threads[t].(post := Appending);
      UsedPipeExists(s, t);
      SignalNow(s, t);
      StageOk(s, t, c);
      BytesSafe(s, t, c, s.pipes[c.p].bytes + if s.pipes[c.p].queue == [] then 1 else 0);
    }
  }

  lemma HandleDrainSafe(s: State, t: Tid)
    requires Inv(s)
    ensures Safe(DoHandleDrain(s, t))
  {
    hide Inv, ThreadOk;
    if t in s.threads && s.threads[t].Handling? && s.threads[t].handle == Draining {
      var c := s.threads[t].(handle := HandleUnlocking);
      UsedPipeExists(s, t);
      SignalNow(s, t);
      StageOk(s, t, c);
      BytesSafe(s, t, c, 0);
    }
  }

  lemma EntriesKept(s: State, m: MsgId, msg: Message)
    requires EntriesOk(s.msgs, s.refs) && m in s.msgs && msg == s.msgs[m].(at := msg.at)
    ensures EntriesOk(s.msgs[m := msg], s.refs)
  {
  }

  /** A whole message changes hands. */
  lemma MessageHanded(s: State, t: Tid, c: Ctl, m: MsgId, at: Place)
    requires MessagesOk(s.msgs, s.threads, s.refs) && t in s.threads && m in s.msgs
    requires s.threads[t].InSection() && c.InSection() && (at.InHand? ==> at.t == t)
    requires MessageOk(s.msgs[m], s.threads, s.refs) && (s.msgs[m].at.InHand? ==> s.msgs[m].at.t == t)
    ensures MessagesOk(s.msgs[m := s.msgs[m].(at := at)], s.threads[t := c], s.refs)
  {
    var (msgs, threads) := (s.msgs[m := s.msgs[m].(at := at)], s.threads[t := c]);
    forall n | n in msgs
      ensures MessageOk(msgs[n], threads, s.refs)
    {
      assert MessageOk(s.msgs[n], s.threads, s.refs);
    }
  }

  lemma CountsKept(pipes: map<PipeId, Pipe>, p: PipeId, ps: Pipe)
    requires p in pipes && ps.refCount == pipes[p].refCount
    ensures PipeCounts(pipes[p := ps]) == PipeCounts(pipes)
  {
  }

  lemma CarriedOk(s: State, t: Tid, m: MsgId)
    requires PlacesOk(s.pipes, s.msgs, s.threads) && MessagesOk(s.msgs, s.threads, s.refs)
    requires t in s.threads && m in s.threads[t].Carried()
    ensures m in s.msgs && s.msgs[m].at == InHand(t) && MessageOk(s.msgs[m], s.threads, s.refs)
  {
    assert Lists(s.threads[t].Carried(), InHand(t), s.msgs);
  }

  lemma QueuedOk(s: State, p: PipeId, m: MsgId)
    requires PlacesOk(s.pipes, s.msgs, s.threads) && MessagesOk(s.msgs, s.threads, s.refs)
    requires p in s.pipes && m in s.pipes[p].queue
    ensures m in s.msgs && s.msgs[m].at == InPipe(p) && MessageOk(s.msgs[m], s.threads, s.refs)
  {
    assert Lists(s.pipes[p].queue, InPipe(p), s.msgs);
  }

  // ----- appending -----

  lemma QueueGrows(s: State, p: PipeId, m: MsgId)
    requires QueuesOk(s.pipes, s.msgs) && p in s.pipes && m in s.msgs
    ensures var ps := s.pipes[p];
            QueuesOk(s.pipes[p := ps.(queue := ps.queue + [m], sent := ps.sent + [s.msgs[m].body])], s.msgs)
  {
    var ps := s.pipes[p];
    var more := ps.(queue := ps.queue + [m], sent := ps.sent + [s.msgs[m].body]);
    assert QueueOk(ps, s.msgs);
    assert more.sent[..|ps.received|] == ps.sent[..|ps.received|];
    assert QueueOk(more, s.msgs);
  }

  /** A message moves from one list to another: every message is in its place. */
  lemma PlacesAfterMove(s: State, t: Tid, c: Ctl, p: PipeId, ps: Pipe, m: MsgId, at: Place)
    requires (forall n | n in s.msgs :: PlaceOk(n, s.msgs[n].at, s.pipes, s.threads))
    requires t in s.threads && p in s.pipes && m in s.msgs
    requires at == (if at.InPipe? then InPipe(p) else InHand(t))
    requires forall n | n in s.pipes[p].queue && n != m :: n in ps.queue
    requires forall n | n in s.threads[t].Carried() && n != m :: n in c.Carried()
    requires m in if at.InPipe? then ps.queue else c.Carried()
    ensures var msgs := s.msgs[m := s.msgs[m].(at := at)];
            forall n | n in msgs :: PlaceOk(n, msgs[n].at, s.pipes[p := ps], s.threads[t := c])
  {
    var (pipes, msgs, threads) := (s.pipes[p := ps], s.msgs[m := s.msgs[m].(at := at)], s.threads[t := c]);
    forall n | n in msgs
      ensures PlaceOk(n, msgs[n].at, pipes, threads)
    {
      assert PlaceOk(n, s.msgs[n].at, s.pipes, s.threads);
    }
  }

  /** The queues list their messages. */
  ghost predicate QueuesList(pipes: map<PipeId, Pipe>, msgs: map<MsgId, Message>) {
    forall p | p in pipes :: Lists(pipes[p].queue, InPipe(p), msgs)
  }

  /** The threads list theirs. */
  ghost predicate HandsList(threads: map<Tid, Ctl>, msgs: map<MsgId, Message>) {
    forall t | t in threads :: Lists(threads[t].Carried(), InHand(t), msgs)
  }

  lemma PlacesSplit(pipes: map<PipeId, Pipe>, msgs: map<MsgId, Message>, threads: map<Tid, Ctl>)
    ensures PlacesOk(pipes, msgs, threads) <==>
            (forall m | m in msgs :: PlaceOk(m, msgs[m].at, pipes, threads)) && QueuesList(pipes, msgs) && HandsList(threads, msgs)
  {
    hide PlaceOk, Lists;
  }

  /** A list is untouched by a message that was not on it. */
  lemma OtherList(list: seq<MsgId>, at: Place, msgs: map<MsgId, Message>, m: MsgId, msg: Message)
    requires Lists(list, at, msgs) && (m in msgs ==> msgs[m].at != at)
    ensures Lists(list, at, msgs[m := msg])
  {
    hide NoDup;
  }

  lemma QueuesAfterMove(pipes: map<PipeId, Pipe>, msgs: map<MsgId, Message>, p: PipeId, ps: Pipe, m: MsgId, msg: Message)
    requires QueuesList(pipes, msgs) && Lists(ps.queue, InPipe(p), msgs[m := msg])
    requires forall q | q != p :: m in msgs ==> msgs[m].at != InPipe(q)
    ensures QueuesList(pipes[p := ps], msgs[m := msg])
  {
    hide Lists;
    forall q | q in pipes && q != p
      ensures Lists(pipes[q].queue, InPipe(q), msgs[m := msg])
    {
      OtherList(pipes[q].queue, InPipe(q), msgs, m, msg);
    }
  }

  lemma HandsAfterMove(threads: map<Tid, Ctl>, msgs: map<MsgId, Message>, t: Tid, c: Ctl, m: MsgId, msg: Message)
    requires HandsList(threads, msgs) && Lists(c.Carried(), InHand(t), msgs[m := msg])
    requires forall u | u != t :: m in msgs ==> msgs[m].at != InHand(u)
    ensures HandsList(threads[t := c], msgs[m := msg])
  {
    hide Lists;
    forall u | u in threads && u != t
      ensures Lists(threads[u].Carried(), InHand(u), msgs[m := msg])
    {
      OtherList(threads[u].Carried(), InHand(u), msgs, m, msg);
    }
  }

  /** A message moves from one list to another. */
  lemma PlaceChanged(s: State, t: Tid, c: Ctl, p: PipeId, ps: Pipe, m: MsgId, at: Place)
    requires PlacesOk(s.pipes, s.msgs, s.threads) && t in s.threads && p in s.pipes && m in s.msgs
    requires (s.msgs[m].at == InHand(t) && at == InPipe(p)) || (s.msgs[m].at == InPipe(p) && at == InHand(t))
    requires var msgs := s.msgs[m := s.msgs[m].(at := at)];
             Lists(ps.queue, InPipe(p), msgs) && Lists(c.Carried(), InHand(t), msgs)
    requires forall n | n in s.pipes[p].queue && n != m :: n in ps.queue
    requires forall n | n in s.threads[t].Carried() && n != m :: n in c.Carried()
    requires m in if at.InPipe? then ps.queue else c.Carried()
    ensures PlacesOk(s.pipes[p := ps], s.msgs[m := s.msgs[m].(at := at)], s.threads[t := c])
  {
    hide *;
    var msg := s.msgs[m].(at := at);
    PlacesSplit(s.pipes, s.msgs, s.threads);
    PlacesAfterMove(s, t, c, p, ps, m, at);
    QueuesAfterMove(s.pipes, s.msgs, p, ps, m, msg);
    HandsAfterMove(s.threads, s.msgs, t, c, m, msg);
    PlacesSplit(s.pipes[p := ps], s.msgs[m := msg], s.threads[t := c]);
  }

  lemma PlaceQueued(s: State, t: Tid, c: Ctl, p: PipeId, ps: Pipe, m: MsgId)
    requires PlacesOk(s.pipes, s.msgs, s.threads) && t in s.threads && s.threads[t].Carried() == [m] && c.Carried() == []
    requires p in s.pipes && ps.queue == s.pipes[p].queue + [m] && m in s.msgs && s.msgs[m].at == InHand(t)
    ensures PlacesOk(s.pipes[p := ps], s.msgs[m := s.msgs[m].(at := InPipe(p))], s.threads[t := c])
  {
    assert Lists(s.pipes[p].queue, InPipe(p), s.msgs);
    assert m == ps.queue[|ps.queue| - 1];
    PlaceChanged(s, t, c, p, ps, m, InPipe(p));
  }

  lemma PostAppendSafe(s: State, t: Tid)
    requires Inv(s)
    ensures Safe(DoPostAppend(s, t))
  {
    hide Inv, ThreadOk;
    if t in s.threads && s.threads[t].Posting? && s.threads[t].post == Appending {
      UsedPipeExists(s, t);
      SignalNow(s, t);
      StageOk(s, t, s.threads[t].(post := PostUnlocking));
      Appended(s, t);
    }
  }

  lemma Appended(s: State, t: Tid)
    requires Inv(s) && t in s.threads && s.threads[t].Posting? && s.threads[t].post == Appending
    requires s.threads[t].p in s.pipes && s.pipes[s.threads[t].p].lock == Some(t) && s.pipes[s.threads[t].p].bytes == 1
    requires ThreadOk(t, s.threads[t].(post := PostUnlocking), s.holds, s.workers, s.ports)
    ensures Safe(DoPostAppend(s, t))
  {
    AppendedInv(s, t, s.threads[t].m, s.threads[t].(post := PostUnlocking));
    hide Inv;
  }

  /** Message `m` is at the end of the queue. */
  function WithAppended(s: State, t: Tid, m: MsgId, c: Ctl): State
    requires c.Posting? && c.p in s.pipes && m in s.msgs
  {
    var (ps, msg) := (s.pipes[c.p], s.msgs[m]);
    Go(s.(pipes := s.pipes[c.p := ps.(queue := ps.queue + [m], sent := ps.sent + [msg.body])],
          msgs := s.msgs[m := msg.(at := InPipe(c.p))]), t, c)
  }

  lemma AppendedInv(s: State, t: Tid, m: MsgId, c: Ctl)
    requires Inv(s) && t in s.threads && s.threads[t].Posting? && s.threads[t].post == Appending && m == s.threads[t].m
    requires c == s.threads[t].(post := PostUnlocking) && c.p in s.pipes
    requires s.pipes[c.p].lock == Some(t) && s.pipes[c.p].bytes == 1
    requires ThreadOk(t, c, s.holds, s.workers, s.ports)
    ensures m in s.msgs && Inv(WithAppended(s, t, m, c))
  {
    hide HoldersOk, ThreadsOk, ThreadOk, LocksOk, SignalsOk, QueuesOk, PlacesOk, MessagesOk, MessageOk, EntriesOk, Counted;
    AppendedMessage(s, t, c);
    var ps := s.pipes[c.p].(queue := s.pipes[c.p].queue + [m], sent := s.pipes[c.p].sent + [s.msgs[m].body]);
    HoldersMoved(s, t, c);
    ThreadsMoved(s, t, c);
    LocksStay(s, t, c, c.p, ps);
    SignalsStep(s, t, c, c.p, ps);
    CountsKept(s.pipes, c.p, ps);
  }

  lemma AppendedMessage(s: State, t: Tid, c: Ctl)
    requires QueuesOk(s.pipes, s.msgs) && PlacesOk(s.pipes, s.msgs, s.threads)
    requires MessagesOk(s.msgs, s.threads, s.refs) && EntriesOk(s.msgs, s.refs)
    requires t in s.threads && s.threads[t].Posting? && s.threads[t].post == Appending
    requires c == s.threads[t].(post := PostUnlocking) && c.p in s.pipes
    ensures var (ps, m) := (s.pipes[c.p], c.m);
            && m in s.msgs
            && var pipes := s.pipes[c.p := ps.(queue := ps.queue + [m], sent := ps.sent + [s.msgs[m].body])];
               var msgs := s.msgs[m := s.msgs[m].(at := InPipe(c.p))];
            && QueuesOk(pipes, msgs) && PlacesOk(pipes, msgs, s.threads[t := c])
            && MessagesOk(msgs, s.threads[t := c], s.refs) && EntriesOk(msgs, s.refs)
  {
    var (p, m) := (c.p, c.m);
    hide QueuesOk, PlacesOk, MessagesOk, MessageOk, EntriesOk;
    assert s.threads[t].Carried() == [m];
    CarriedOk(s, t, m);
    var ps := s.pipes[p].(queue := s.pipes[p].queue + [m], sent := s.pipes[p].sent + [s.msgs[m].body]);
    QueueGrows(s, p, m);
    QueuesKept(s.pipes[p := ps], s.msgs, m, s.msgs[m].(at := InPipe(p)));
    PlaceQueued(s, t, c, p, ps, m);
    MessageHanded(s, t, c, m, InPipe(p));
    EntriesKept(s, m, s.msgs[m].(at := InPipe(p)));
  }

  // ----- taking -----

  lemma QueueShrinks(s: State, p: PipeId)
    requires QueuesOk(s.pipes, s.msgs) && p in s.pipes && s.pipes[p].queue != []
    ensures var ps := s.pipes[p];
            ps.queue[0] in s.msgs
            && QueuesOk(s.pipes[p := ps.(queue := ps.queue[1..],
                                         received := ps.received + [s.msgs[ps.queue[0]].body])], s.msgs)
  {
    var ps := s.pipes[p];
    assert QueueOk(ps, s.msgs);
    var less := ps.(queue := ps.queue[1..], received := ps.received + [s.msgs[ps.queue[0]].body]);
    assert ps.sent[|ps.received|] == s.msgs[ps.queue[0]].body;
    assert less.received == ps.sent[..|less.received|];
    forall i | 0 <= i < |less.queue|
      ensures less.queue[i] in s.msgs && s.msgs[less.queue[i]].body == less.sent[|less.received| + i]
    {
      assert less.queue[i] == ps.queue[i + 1];
    }
    assert QueueOk(less, s.msgs);
  }

  /** The list without its first message, which has moved on. */
  lemma PoppedList(list: seq<MsgId>, rest: seq<MsgId>, at: Place, msgs: map<MsgId, Message>, m: MsgId, msg: Message)
    requires Lists(list, at, msgs) && list == [m] + rest
    ensures Lists(rest, at, msgs[m := msg])
    ensures forall n | n in list && n != m :: n in rest
  {
    assert list[0] == m;
    forall i | 0 <= i < |rest|
      ensures rest[i] == list[i + 1] && rest[i] != m && rest[i] in list
    {
    }
  }

  lemma OneListed(m: MsgId, at: Place, msgs: map<MsgId, Message>)
    requires m in msgs && msgs[m].at == at
    ensures Lists([m], at, msgs)
  {
  }

  lemma PlaceTaken(s: State, t: Tid, c: Ctl, p: PipeId, ps: Pipe, m: MsgId)
    requires PlacesOk(s.pipes, s.msgs, s.threads) && t in s.threads && s.threads[t].Carried() == [] && c.Carried() == [m]
    requires p in s.pipes && s.pipes[p].queue == [m] + ps.queue && m in s.msgs && s.msgs[m].at == InPipe(p)
    ensures PlacesOk(s.pipes[p := ps], s.msgs[m := s.msgs[m].(at := InHand(t))], s.threads[t := c])
  {
    var msg := s.msgs[m].(at := InHand(t));
    assert Lists(s.pipes[p].queue, InPipe(p), s.msgs);
    hide *;
    PoppedList(s.pipes[p].queue, ps.queue, InPipe(p), s.msgs, m, msg);
    OneListed(m, InHand(t), s.msgs[m := msg]);
    PlaceChanged(s, t, c, p, ps, m, InHand(t));
  }

  lemma HandleTakeSafe(s: State, t: Tid)
    requires Inv(s)
    ensures Safe(DoHandleTake(s, t))
  {
    hide Inv, ThreadOk;
    if t in s.threads && s.threads[t].Handling? && s.threads[t].handle == Taking {
      UsedPipeExists(s, t);
      SignalNow(s, t);
      TakingFacts(s, t);
      var c := s.threads[t];
      var ps := s.pipes[c.p];
      if ps.queue == [] {
        StageOk(s, t, c.(handle := HandleUnlocking));
        BytesSafe(s, t, c.(handle := HandleUnlocking), ps.bytes);
        assert s.pipes[c.p := ps.(bytes := ps.bytes)] == s.pipes;
      } else {
        var next := c.(handle := if ps.queue[1..] == [] then Draining else HandleUnlocking, taken := Some(ps.queue[0]));
        StageOk(s, t, next);
        Taken(s, t, next);
      }
    }
  }

  lemma TakingFacts(s: State, t: Tid)
    requires Inv(s) && t in s.threads && s.threads[t].Handling? && s.threads[t].handle == Taking
    ensures s.threads[t].taken == None && s.threads[t].Carried() == []
  {
    hide HoldersOk, LocksOk, SignalsOk, QueuesOk, PlacesOk, MessagesOk, EntriesOk, Counted;
    assert ThreadOk(t, s.threads[t], s.holds, s.workers, s.ports);
  }

  lemma Taken(s: State, t: Tid, c: Ctl)
    requires Inv(s) && t in s.threads && s.threads[t].Handling? && s.threads[t].handle == Taking
    requires s.threads[t].Carried() == [] && s.threads[t].p in s.pipes
    requires var ps := s.pipes[s.threads[t].p];
             && ps.lock == Some(t) && ps.bytes == 1 && ps.queue != []
             && c == s.threads[t].(handle := if ps.queue[1..] == [] then Draining else HandleUnlocking,
                                   taken := Some(ps.queue[0]))
    requires ThreadOk(t, c, s.holds, s.workers, s.ports)
    ensures var ps := s.pipes[c.p];
            && ps.queue[0] in s.msgs
            && Inv(Go(s.(pipes := s.pipes[c.p := ps.(queue := ps.queue[1..],
                                                     received := ps.received + [s.msgs[ps.queue[0]].body])],
                         msgs := s.msgs[ps.queue[0] := s.msgs[ps.queue[0]].(at := InHand(t))]), t, c))
  {
    var p := c.p;
    var m := s.pipes[p].queue[0];
    hide HoldersOk, ThreadsOk, ThreadOk, LocksOk, SignalsOk, QueuesOk, PlacesOk, MessagesOk, MessageOk, EntriesOk, Counted;
    TakenMessage(s, t, c);
    var ps := s.pipes[p].(queue := s.pipes[p].queue[1..], received := s.pipes[p].received + [s.msgs[m].body]);
    HoldersMoved(s, t, c);
    ThreadsMoved(s, t, c);
    LocksStay(s, t, c, p, ps);
    SignalsStep(s, t, c, p, ps);
    CountsKept(s.pipes, p, ps);
  }

  lemma TakenMessage(s: State, t: Tid, c: Ctl)
    requires QueuesOk(s.pipes, s.msgs) && PlacesOk(s.pipes, s.msgs, s.threads)
    requires MessagesOk(s.msgs, s.threads, s.refs) && EntriesOk(s.msgs, s.refs)
    requires t in s.threads && s.threads[t].InSection() && s.threads[t].Carried() == [] && c.Handling? && c.InSection()
    requires c.p in s.pipes && s.pipes[c.p].queue != [] && c.taken == Some(s.pipes[c.p].queue[0])
    ensures var (ps, m) := (s.pipes[c.p], s.pipes[c.p].queue[0]);
            && m in s.msgs
            && var pipes := s.pipes[c.p := ps.(queue := ps.queue[1..], received := ps.received + [s.msgs[m].body])];
               var msgs := s.msgs[m := s.msgs[m].(at := InHand(t))];
            && QueuesOk(pipes, msgs) && PlacesOk(pipes, msgs, s.threads[t := c])
            && MessagesOk(msgs, s.threads[t := c], s.refs) && EntriesOk(msgs, s.refs)
  {
    var p := c.p;
    var m := s.pipes[p].queue[0];
    hide QueuesOk, PlacesOk, MessagesOk, MessageOk, EntriesOk;
    QueuedOk(s, p, m);
    var ps := s.pipes[p].(queue := s.pipes[p].queue[1..], received := s.pipes[p].received + [s.msgs[m].body]);
    assert s.pipes[p].queue == [m] + ps.queue;
    QueueShrinks(s, p);
    QueuesKept(s.pipes[p := ps], s.msgs, m, s.msgs[m].(at := InHand(t)));
    PlaceTaken(s, t, c, p, ps, m);
    MessageHanded(s, t, c, m, InHand(t));
    EntriesKept(s, m, s.msgs[m].(at := InHand(t)));
  }

  // ----- releasing messages -----

  lemma HandFacts(s: State, t: Tid, m: MsgId)
    requires Inv(s) && t in s.threads && m in s.threads[t].Carried()
    ensures m in s.msgs && s.msgs[m].at == InHand(t) && MessageOk(s.msgs[m], s.threads, s.refs)
  {
    hide HoldersOk, ThreadsOk, LocksOk, SignalsOk, QueuesOk, EntriesOk, Counted, MessageOk;
    CarriedOk(s, t, m);
  }

  lemma ReadDoneSafe(s: State, t: Tid)
    requires Inv(s)
    ensures Safe(DoReadDone(s, t))
  {
    hide HoldersOk, ThreadsOk, LocksOk, SignalsOk, QueuesOk, PlacesOk, MessagesOk, MessageOk, EntriesOk, Counted;
    if t in s.threads && s.threads[t].Reading? {
      var c := Releasing([], [s.threads[t].m]);
      HoldersMoved(s, t, c);
      ThreadsMoved(s, t, c);
      LocksMoved(s.pipes, s.threads, t, c);
      SignalsMoved(s.pipes, s.threads, t, c);
      PlacesMoved(s, t, c);
      ReadMoves(s, t, c);
      MessagesMoved(s, t, c);
    }
  }

  lemma ReadMoves(s: State, t: Tid, c: Ctl)
    requires MessagesOk(s.msgs, s.threads, s.refs) && t in s.threads && s.threads[t].Reading? && c.Releasing?
    ensures forall m | m in s.msgs && s.msgs[m].at == InHand(t) :: MessageOk(s.msgs[m], s.threads[t := c], s.refs)
  {
    forall m | m in s.msgs && s.msgs[m].at == InHand(t)
      ensures MessageOk(s.msgs[m], s.threads[t := c], s.refs)
    {
      assert MessageOk(s.msgs[m], s.threads, s.refs);
    }
  }

  lemma FreeEntrySafe(s: State, t: Tid)
    requires Inv(s)
    ensures Safe(DoFreeEntry(s, t))
  {
    hide HoldersOk, ThreadsOk, LocksOk, SignalsOk, QueuesOk, PlacesOk, MessagesOk, EntriesOk, Counted, HeldBy;
    if t in s.threads && s.threads[t].Releasing? && s.threads[t].msgs != [] {
      var m := s.threads[t].msgs[0];
      HandFacts(s, t, m);
      var msg := s.msgs[m];
      if msg.lo < |msg.body.sabs| {
        hide MessageOk;
        FewerEntries(s, t, m);
        Released(s.sabs, s.refs, Entry(m, msg.lo));
        QueuesKept(s.pipes, s.msgs, m, msg.(lo := msg.lo + 1));
        PlacesKept(s, m, msg.(lo := msg.lo + 1));
      }
    }
  }

  lemma FewerEntries(s: State, t: Tid, m: MsgId)
    requires MessagesOk(s.msgs, s.threads, s.refs) && EntriesOk(s.msgs, s.refs)
    requires t in s.threads && s.threads[t].Releasing? && m in s.msgs && s.msgs[m].at == InHand(t)
    requires s.msgs[m].lo < |s.msgs[m].body.sabs|
    ensures var msg := s.msgs[m];
            var (msgs, refs) := (s.msgs[m := msg.(lo := msg.lo + 1)], s.refs - {Entry(m, msg.lo)});
            Entry(m, msg.lo) in s.refs && MessagesOk(msgs, s.threads, refs) && EntriesOk(msgs, refs)
  {
    var msg := s.msgs[m];
    assert MessageOk(msg, s.threads, s.refs);
    var (msgs, refs) := (s.msgs[m := msg.(lo := msg.lo + 1)], s.refs - {Entry(m, msg.lo)});
    LessEntries(s, m, refs);
    hide EntriesOk;
    HeldMore(s.refs, refs);
    forall n | n in msgs
      ensures MessageOk(msgs[n], s.threads, refs)
    {
      assert MessageOk(s.msgs[n], s.threads, s.refs);
    }
  }

  lemma LessEntries(s: State, m: MsgId, refs: map<SabRef, Sab>)
    requires EntriesOk(s.msgs, s.refs) && m in s.msgs && s.msgs[m].lo < s.msgs[m].hi
    requires refs == s.refs - {Entry(m, s.msgs[m].lo)}
    ensures Entry(m, s.msgs[m].lo) in s.refs
    ensures EntriesOk(s.msgs[m := s.msgs[m].(lo := s.msgs[m].lo + 1)], refs)
  {
    var msgs := s.msgs[m := s.msgs[m].(lo := s.msgs[m].lo + 1)];
    forall n: nat, i: nat | n in msgs && msgs[n].lo <= i < msgs[n].hi
      ensures Entry(n, i) in refs
    {
      assert Entry(n, i) in s.refs;
    }
  }

  /** The next things to release: the holders stay the same, or there were none left. */
  lemma HoldersStay(s: State, t: Tid, c: Ctl)
    requires HoldersOk(s.holds, s.workers, s.ports, s.threads) && t in s.threads && s.threads[t].Releasing?
    requires s.threads[t].holders == [] || (c.Releasing? && c.holders == s.threads[t].holders)
    ensures HoldersOk(s.holds, s.workers, s.ports, s.threads[t := c])
  {
  }

  lemma FreeMessageSafe(s: State, t: Tid)
    requires Inv(s)
    ensures Safe(DoFreeMessage(s, t))
  {
    hide HoldersOk, ThreadsOk, LocksOk, SignalsOk, QueuesOk, PlacesOk, MessagesOk, EntriesOk, Counted, HeldBy;
    if t in s.threads && s.threads[t].Releasing? && s.threads[t].msgs != [] {
      var m := s.threads[t].msgs[0];
      var c := s.threads[t].(msgs := s.threads[t].msgs[1..]);
      HandFacts(s, t, m);
      if s.msgs[m].lo >= |s.msgs[m].body.sabs| {
        hide MessageOk;
        HoldersStay(s, t, c);
        ReleasingOk(s, t, c);
        ThreadsMoved(s, t, c);
        LocksMoved(s.pipes, s.threads, t, c);
        SignalsMoved(s.pipes, s.threads, t, c);
        MessageGone(s, t, c, m);
      }
    }
  }

  lemma ReleasingOk(s: State, t: Tid, c: Ctl)
    requires ThreadsOk(s.holds, s.workers, s.ports, s.threads) && t in s.threads && s.threads[t].Releasing?
    requires c == s.threads[t].(msgs := c.Carried())
    ensures ThreadOk(t, c, s.holds, s.workers, s.ports)
  {
    assert ThreadOk(t, s.threads[t], s.holds, s.workers, s.ports);
  }

  /** A message that holds no reference is released. */
  lemma MessageGone(s: State, t: Tid, c: Ctl, m: MsgId)
    requires QueuesOk(s.pipes, s.msgs) && PlacesOk(s.pipes, s.msgs, s.threads)
    requires MessagesOk(s.msgs, s.threads, s.refs) && EntriesOk(s.msgs, s.refs)
    requires t in s.threads && s.threads[t].Releasing? && c.Releasing? && s.threads[t].msgs == [m] + c.msgs
    requires m in s.msgs && s.msgs[m].at == InHand(t) && s.msgs[m].lo >= |s.msgs[m].body.sabs|
    ensures var (msgs, threads) := (s.msgs - {m}, s.threads[t := c]);
            && QueuesOk(s.pipes, msgs) && PlacesOk(s.pipes, msgs, threads)
            && MessagesOk(msgs, threads, s.refs) && EntriesOk(msgs, s.refs)
  {
    hide QueuesOk, PlacesOk, MessagesOk, MessageOk, EntriesOk, HeldBy;
    QueuesWithout(s, m, t);
    PlacesWithout(s, t, c, m);
    MessagesWithout(s, t, c, m);
  }

  lemma QueuesWithout(s: State, m: MsgId, t: Tid)
    requires QueuesOk(s.pipes, s.msgs) && PlacesOk(s.pipes, s.msgs, s.threads) && m in s.msgs && s.msgs[m].at == InHand(t)
    ensures QueuesOk(s.pipes, s.msgs - {m})
  {
    forall p | p in s.pipes
      ensures QueueOk(s.pipes[p], s.msgs - {m})
    {
      assert QueueOk(s.pipes[p], s.msgs) && Lists(s.pipes[p].queue, InPipe(p), s.msgs);
    }
  }

  lemma PlacesWithout(s: State, t: Tid, c: Ctl, m: MsgId)
    requires PlacesOk(s.pipes, s.msgs, s.threads) && m in s.msgs && s.msgs[m].at == InHand(t)
    requires t in s.threads && s.threads[t].Carried() == [m] + c.Carried()
    ensures PlacesOk(s.pipes, s.msgs - {m}, s.threads[t := c])
  {
    hide Lists, PlaceOk, NoDup;
    var (msgs, threads) := (s.msgs - {m}, s.threads[t := c]);
    TailLists(s, t, c.Carried(), m);
    OtherQueues(s, s.pipes, msgs);
    OtherHands(s, t, msgs);
    OthersPlaced(s, t, c, m);
  }

  lemma OthersPlaced(s: State, t: Tid, c: Ctl, m: MsgId)
    requires PlacesOk(s.pipes, s.msgs, s.threads) && m in s.msgs && s.msgs[m].at == InHand(t)
    requires t in s.threads && s.threads[t].Carried() == [m] + c.Carried()
    ensures forall n | n in s.msgs && n != m :: PlaceOk(n, s.msgs[n].at, s.pipes, s.threads[t := c])
  {
    hide Lists;
    forall n | n in s.msgs && n != m
      ensures PlaceOk(n, s.msgs[n].at, s.pipes, s.threads[t := c])
    {
      assert PlaceOk(n, s.msgs[n].at, s.pipes, s.threads);
    }
  }

  /** The queues of pipes whose messages stay in them. */
  lemma OtherQueues(s: State, pipes: map<PipeId, Pipe>, msgs: map<MsgId, Message>)
    requires PlacesOk(s.pipes, s.msgs, s.threads)
    requires forall q | q in pipes :: q in s.pipes && pipes[q].queue == s.pipes[q].queue
    requires forall n | n in s.msgs && s.msgs[n].at.InPipe? && s.msgs[n].at.p in pipes ::
               n in msgs && msgs[n].at == s.msgs[n].at
    ensures forall q | q in pipes :: Lists(pipes[q].queue, InPipe(q), msgs)
  {
    hide PlaceOk, Lists;
    forall q | q in pipes
      ensures Lists(pipes[q].queue, InPipe(q), msgs)
    {
      ListsKept(s.pipes[q].queue, InPipe(q), s.msgs, msgs);
    }
  }

  /** The other threads, whose messages stay in their hands. */
  lemma OtherHands(s: State, t: Tid, msgs: map<MsgId, Message>)
    requires PlacesOk(s.pipes, s.msgs, s.threads)
    requires forall n | n in s.msgs && s.msgs[n].at.InHand? && s.msgs[n].at.t != t ::
               n in msgs && msgs[n].at == s.msgs[n].at
    ensures forall u | u in s.threads && u != t :: Lists(s.threads[u].Carried(), InHand(u), msgs)
  {
    hide PlaceOk, Lists;
    forall u | u in s.threads && u != t
      ensures Lists(s.threads[u].Carried(), InHand(u), msgs)
    {
      ListsKept(s.threads[u].Carried(), InHand(u), s.msgs, msgs);
    }
  }

  lemma TailLists(s: State, t: Tid, rest: seq<MsgId>, m: MsgId)
    requires PlacesOk(s.pipes, s.msgs, s.threads) && t in s.threads && s.threads[t].Carried() == [m] + rest
    ensures Lists(rest, InHand(t), s.msgs - {m})
  {
    var was := s.threads[t].Carried();
    assert Lists(was, InHand(t), s.msgs) && was[0] == m;
    forall i | 0 <= i < |rest|
      ensures rest[i] == was[i + 1] && rest[i] != m && rest[i] in was
    {
    }
  }

  /** A list of messages that are where they were. */
  lemma ListsKept(list: seq<MsgId>, at: Place, msgs: map<MsgId, Message>, after: map<MsgId, Message>)
    requires Lists(list, at, msgs)
    requires forall n | n in msgs && msgs[n].at == at :: n in after && after[n].at == at
    ensures Lists(list, at, after)
  {
  }

  lemma MessagesWithout(s: State, t: Tid, c: Ctl, m: MsgId)
    requires MessagesOk(s.msgs, s.threads, s.refs) && EntriesOk(s.msgs, s.refs)
    requires t in s.threads && s.threads[t].Releasing? && c.Releasing?
    requires m in s.msgs && s.msgs[m].lo >= |s.msgs[m].body.sabs|
    ensures MessagesOk(s.msgs - {m}, s.threads[t := c], s.refs) && EntriesOk(s.msgs - {m}, s.refs)
  {
    var (msgs, threads) := (s.msgs - {m}, s.threads[t := c]);
    assert EntriesOk(msgs, s.refs);
    hide EntriesOk;
    forall n | n in msgs
      ensures MessageOk(msgs[n], threads, s.refs)
    {
      assert MessageOk(s.msgs[n], s.threads, s.refs);
    }
  }

  lemma ReleaseDoneSafe(s: State, t: Tid)
    requires Inv(s)
    ensures Safe(DoReleaseDone(s, t))
  {
    hide HoldersOk, ThreadsOk, LocksOk, SignalsOk, QueuesOk, PlacesOk, MessagesOk, MessageOk, EntriesOk, Counted;
    if At(s, t, Releasing([], [])) {
      HoldersStay(s, t, Idle);
      ThreadsMoved(s, t, Idle);
      LocksMoved(s.pipes, s.threads, t, Idle);
      SignalsMoved(s.pipes, s.threads, t, Idle);
      PlacesMoved(s, t, Idle);
      HandEmpty(s, t, Idle);
      MessagesMoved(s, t, Idle);
    }
  }

  // ----- releasing pipes -----

  lemma CountsUpdate(pipes: map<PipeId, Pipe>, p: PipeId, ps: Pipe)
    ensures PipeCounts(pipes[p := ps]) == PipeCounts(pipes)[p := ps.refCount]
    ensures PipeCounts(pipes - {p}) == PipeCounts(pipes) - {p}
  {
  }

  lemma Recounted(s: State, p: PipeId, n: int)
    requires p in s.pipes && LocksOk(s.pipes, s.threads) && SignalsOk(s.pipes, s.threads)
    requires QueuesOk(s.pipes, s.msgs) && PlacesOk(s.pipes, s.msgs, s.threads)
    ensures var pipes := s.pipes[p := s.pipes[p].(refCount := n)];
            && LocksOk(pipes, s.threads) && SignalsOk(pipes, s.threads)
            && QueuesOk(pipes, s.msgs) && PlacesOk(pipes, s.msgs, s.threads)
            && PipeCounts(pipes) == PipeCounts(s.pipes)[p := n]
  {
    var ps := s.pipes[p].(refCount := n);
    PipesKept(s, p, ps);
    hide QueuesOk, PlacesOk, SignalsOk;
    CountsUpdate(s.pipes, p, ps);
    SignalsRecounted(s, p, n);
  }

  lemma SignalsRecounted(s: State, p: PipeId, n: int)
    requires p in s.pipes && SignalsOk(s.pipes, s.threads)
    ensures SignalsOk(s.pipes[p := s.pipes[p].(refCount := n)], s.threads)
  {
    var ps := s.pipes[p].(refCount := n);
    assert Between(ps, s.threads) == Between(s.pipes[p], s.threads);
  }

  /** The handle just released belonged to no existing object, so nobody misses it. */
  lemma HoldersLess(s: State, t: Tid, h: Holder, c: Ctl)
    requires HoldersOk(s.holds, s.workers, s.ports, s.threads) && t in s.threads && h in s.holds
    requires s.threads[t].Releasing? && c.Releasing? && s.threads[t].holders == [h] + c.holders
    requires ThreadOk(t, s.threads[t], s.holds, s.workers, s.ports)
    ensures HoldersOk(s.holds - {h}, s.workers, s.ports, s.threads[t := c])
  {
    assert s.threads[t].holders[0] == h;
    forall k | k in s.holds - {h} && Pending(s.threads, k)
      ensures Pending(s.threads[t := c], k)
    {
    }
  }

  lemma ThreadsLess(s: State, t: Tid, h: Holder, c: Ctl)
    requires ThreadsOk(s.holds, s.workers, s.ports, s.threads) && t in s.threads && h in s.holds
    requires HoldersOk(s.holds, s.workers, s.ports, s.threads)
    requires s.threads[t].Releasing? && c.Releasing? && s.threads[t].holders == [h] + c.holders
    ensures ThreadsOk(s.holds - {h}, s.workers, s.ports, s.threads[t := c])
  {
    ReleasedRest(s, t, h, c);
    hide NoDup;
    var threads := s.threads[t := c];
    forall u | u in threads
      ensures ThreadOk(u, threads[u], s.holds - {h}, s.workers, s.ports)
    {
      if u != t {
        assert ThreadOk(u, s.threads[u], s.holds, s.workers, s.ports);
      }
    }
  }

  /** What is left to release is still to be released. */
  lemma ReleasedRest(s: State, t: Tid, h: Holder, c: Ctl)
    requires ThreadsOk(s.holds, s.workers, s.ports, s.threads) && t in s.threads && h in s.holds
    requires s.threads[t].Releasing? && c.Releasing? && s.threads[t].holders == [h] + c.holders
    ensures ThreadOk(t, c, s.holds - {h}, s.workers, s.ports)
    ensures h.Owner() == t && !Registered(s.workers, s.ports, h)
  {
    var was := s.threads[t].holders;
    assert ThreadOk(t, s.threads[t], s.holds, s.workers, s.ports) && was[0] == h;
    forall i | 0 <= i < |c.holders|
      ensures c.holders[i] == was[i + 1] && c.holders[i] != h && c.holders[i] in was
    {
    }
  }

  /** A locked pipe has a second holder: the thread that locked it. */
  lemma LockedIsShared(s: State, t: Tid, h: Holder)
    requires LocksOk(s.pipes, s.threads) && ThreadsOk(s.holds, s.workers, s.ports, s.threads)
    requires HoldersOk(s.holds, s.workers, s.ports, s.threads)
    requires h in s.holds && s.holds[h] in s.pipes && s.pipes[s.holds[h]].lock.Some?
    requires !Registered(s.workers, s.ports, h)
    ensures exists k :: k in s.holds && s.holds[k] == s.holds[h] && k != h
  {
    var u := s.pipes[s.holds[h]].lock.value;
    assert ThreadOk(u, s.threads[u], s.holds, s.workers, s.ports);
    var c := s.threads[u];
    var k := if c.Posting? then WorkerSend(c.w) else PortRecv(c.w);
    assert k in s.holds && s.holds[k] == s.holds[h] && k != h;
  }

  lemma ReleasePipeSafe(s: State, t: Tid)
    requires Inv(s)
    ensures Safe(DoReleasePipe(s, t))
  {
    hide HoldersOk, ThreadsOk, ThreadOk, LocksOk, SignalsOk, QueuesOk, PlacesOk, MessagesOk, MessageOk, EntriesOk, Counted;
    hide Registered;
    if t in s.threads && s.threads[t].Releasing? && s.threads[t].msgs == [] && s.threads[t].holders != [] {
      var (h, rest) := (s.threads[t].holders[0], s.threads[t].holders[1..]);
      ReleaseFacts(s, t);
      var p := s.holds[h];
      if s.pipes[p].refCount == 1 {
        LastReleased(s, t, h, Releasing(rest, s.pipes[p].queue));
      } else {
        OneReleased(s, t, h, Releasing(rest, []));
      }
    }
  }

  lemma ReleaseFacts(s: State, t: Tid)
    requires Inv(s) && t in s.threads && s.threads[t].Releasing? && s.threads[t].holders != []
    ensures ThreadOk(t, s.threads[t], s.holds, s.workers, s.ports)
    ensures var h := s.threads[t].holders[0];
            && h in s.holds && !Registered(s.workers, s.ports, h) && s.holds[h] in s.pipes
            && s.threads[t].holders == [h] + s.threads[t].holders[1..]
            && s.pipes[s.holds[h]].refCount >= 1
            && (s.pipes[s.holds[h]].refCount == 1 ==> s.pipes[s.holds[h]].lock == None)
  {
    var h := s.threads[t].holders[0];
    FirstHolder(s, t);
    hide HoldersOk, ThreadsOk, ThreadOk, LocksOk, SignalsOk, QueuesOk, PlacesOk, MessagesOk, EntriesOk, Registered;
    HolderCounts(s, h);
    if s.pipes[s.holds[h]].lock.Some? {
      LockedIsShared(s, t, h);
    }
  }

  lemma FirstHolder(s: State, t: Tid)
    requires Inv(s) && t in s.threads && s.threads[t].Releasing? && s.threads[t].holders != []
    ensures ThreadOk(t, s.threads[t], s.holds, s.workers, s.ports)
    ensures var h := s.threads[t].holders[0];
            && h in s.holds && !Registered(s.workers, s.ports, h)
            && s.threads[t].holders == [h] + s.threads[t].holders[1..]
  {
    hide HoldersOk, LocksOk, SignalsOk, QueuesOk, PlacesOk, MessagesOk, EntriesOk, Counted, Registered;
    var h := s.threads[t].holders[0];
    assert ThreadOk(t, s.threads[t], s.holds, s.workers, s.ports);
    assert h in s.threads[t].holders;
  }

  lemma HolderCounts(s: State, h: Holder)
    requires Counted(PipeCounts(s.pipes), s.holds) && h in s.holds
    ensures s.holds[h] in s.pipes && s.pipes[s.holds[h]].refCount >= 1
    ensures (exists k :: k in s.holds && s.holds[k] == s.holds[h] && k != h) ==> s.pipes[s.holds[h]].refCount != 1
  {
    Released(PipeCounts(s.pipes), s.holds, h);
    assert PipeCounts(s.pipes)[s.holds[h]] == s.pipes[s.holds[h]].refCount;
  }

  lemma OneReleased(s: State, t: Tid, h: Holder, c: Ctl)
    requires Inv(s) && t in s.threads && s.threads[t].Releasing? && s.threads[t].msgs == []
    requires c.Releasing? && c.msgs == [] && s.threads[t].holders == [h] + c.holders
    requires ThreadOk(t, s.threads[t], s.holds, s.workers, s.ports)
    requires h in s.holds && s.holds[h] in s.pipes && s.pipes[s.holds[h]].refCount != 1
    ensures var (p, ps) := (s.holds[h], s.pipes[s.holds[h]]);
            Inv(Go(s.(pipes := s.pipes[p := ps.(refCount := ps.refCount - 1)], holds := s.holds - {h}), t, c))
  {
    hide HoldersOk, ThreadsOk, ThreadOk, LocksOk, SignalsOk, QueuesOk, PlacesOk, MessagesOk, MessageOk, EntriesOk, Counted;
    var (p, ps) := (s.holds[h], s.pipes[s.holds[h]]);
    Recounted(s, p, ps.refCount - 1);
    var pipes := s.pipes[p := ps.(refCount := ps.refCount - 1)];
    Released(PipeCounts(s.pipes), s.holds, h);
    HoldersLess(s, t, h, c);
    ThreadsLess(s, t, h, c);
    LocksMoved(pipes, s.threads, t, c);
    SignalsMoved(pipes, s.threads, t, c);
    PlacesMoved(s.(pipes := pipes), t, c);
    HandEmpty(s, t, c);
    MessagesMoved(s, t, c);
  }

  lemma LastReleased(s: State, t: Tid, h: Holder, c: Ctl)
    requires Inv(s) && t in s.threads && s.threads[t].Releasing? && s.threads[t].msgs == []
    requires c.Releasing? && s.threads[t].holders == [h] + c.holders
    requires ThreadOk(t, s.threads[t], s.holds, s.workers, s.ports)
    requires h in s.holds && s.holds[h] in s.pipes && c.msgs == s.pipes[s.holds[h]].queue
    requires s.pipes[s.holds[h]].refCount == 1 && s.pipes[s.holds[h]].lock == None
    ensures var p := s.holds[h];
            Inv(Go(s.(pipes := s.pipes - {p}, holds := s.holds - {h}, msgs := Inherit(s.msgs, p, t)), t, c))
  {
    hide HoldersOk, ThreadsOk, ThreadOk, LocksOk, SignalsOk, QueuesOk, PlacesOk, MessagesOk, MessageOk, EntriesOk, Counted;
    hide Inherit;
    var p := s.holds[h];
    Released(PipeCounts(s.pipes), s.holds, h);
    CountsUpdate(s.pipes, p, s.pipes[p]);
    HoldersLess(s, t, h, c);
    ThreadsLess(s, t, h, c);
    LocksMoved(s.pipes, s.threads, t, c);
    SignalsMoved(s.pipes, s.threads, t, c);
    PipeGone(s.(threads := s.threads[t := c]), p);
    InheritedPlaces(s, t, c, p);
    InheritedMessages(s, t, c, p);
  }

  lemma PipeGone(s: State, p: PipeId)
    requires p in s.pipes && s.pipes[p].lock == None
    requires LocksOk(s.pipes, s.threads) && SignalsOk(s.pipes, s.threads)
    ensures LocksOk(s.pipes - {p}, s.threads) && SignalsOk(s.pipes - {p}, s.threads)
  {
    forall t | t in s.threads && s.threads[t].InSection()
      ensures s.threads[t].p != p
    {
    }
  }

  lemma InheritedPlaces(s: State, t: Tid, c: Ctl, p: PipeId)
    requires PlacesOk(s.pipes, s.msgs, s.threads) && p in s.pipes && t in s.threads && s.threads[t].Carried() == []
    requires c.Carried() == s.pipes[p].queue
    ensures PlacesOk(s.pipes - {p}, Inherit(s.msgs, p, t), s.threads[t := c])
  {
    var (pipes, msgs, threads) := (s.pipes - {p}, Inherit(s.msgs, p, t), s.threads[t := c]);
    InheritedList(s, t, p);
    InheritedAt(s.msgs, p, t);
    hide Inherit;
    OtherQueues(s, pipes, msgs);
    OtherHands(s, t, msgs);
    InheritedPlaced(s, t, c, p);
    hide Lists, PlaceOk;
  }

  lemma InheritedPlaced(s: State, t: Tid, c: Ctl, p: PipeId)
    requires PlacesOk(s.pipes, s.msgs, s.threads) && p in s.pipes && t in s.threads && s.threads[t].Carried() == []
    requires c.Carried() == s.pipes[p].queue
    ensures var msgs := Inherit(s.msgs, p, t);
            forall n | n in msgs :: PlaceOk(n, msgs[n].at, s.pipes - {p}, s.threads[t := c])
  {
    hide Lists;
    forall n | n in s.msgs
      ensures PlaceOk(n, Inherit(s.msgs, p, t)[n].at, s.pipes - {p}, s.threads[t := c])
    {
      assert PlaceOk(n, s.msgs[n].at, s.pipes, s.threads);
    }
  }

  lemma InheritedAt(msgs: map<MsgId, Message>, p: PipeId, t: Tid)
    ensures Inherit(msgs, p, t).Keys == msgs.Keys
    ensures forall n | n in msgs ::
              Inherit(msgs, p, t)[n].at == if msgs[n].at == InPipe(p) then InHand(t) else msgs[n].at
  {
  }

  lemma InheritedList(s: State, t: Tid, p: PipeId)
    requires PlacesOk(s.pipes, s.msgs, s.threads) && p in s.pipes
    ensures Lists(s.pipes[p].queue, InHand(t), Inherit(s.msgs, p, t))
  {
    assert Lists(s.pipes[p].queue, InPipe(p), s.msgs);
  }

  lemma InheritedMessages(s: State, t: Tid, c: Ctl, p: PipeId)
    requires QueuesOk(s.pipes, s.msgs) && MessagesOk(s.msgs, s.threads, s.refs) && EntriesOk(s.msgs, s.refs)
    requires t in s.threads && s.threads[t].Releasing? && c.Releasing?
    ensures var msgs := Inherit(s.msgs, p, t);
            QueuesOk(s.pipes - {p}, msgs) && MessagesOk(msgs, s.threads[t := c], s.refs) && EntriesOk(msgs, s.refs)
  {
    var (msgs, threads) := (Inherit(s.msgs, p, t), s.threads[t := c]);
    assert EntriesOk(msgs, s.refs);
    hide EntriesOk;
    forall q | q in s.pipes
      ensures QueueOk(s.pipes[q], msgs)
    {
      assert QueueOk(s.pipes[q], s.msgs);
    }
    hide QueueOk;
    forall n | n in msgs
      ensures MessageOk(msgs[n], threads, s.refs)
    {
      assert MessageOk(s.msgs[n], s.threads, s.refs);
    }
  }

  // ----- threads, worker objects and ports -----

  lemma ExitSafe(s: State, t: Tid)
    requires Inv(s)
    ensures Safe(DoExit(s, t))
  {
    hide ThreadsOk, LocksOk, SignalsOk, QueuesOk, PlacesOk, MessagesOk, MessageOk, EntriesOk, Counted;
    if At(s, t, Idle) && ThreadRecv(t) in s.holds && ThreadSend(t) in s.holds {
      var c := Releasing([ThreadRecv(t), ThreadSend(t)], []);
      HoldersMoved(s, t, c);
      hide HoldersOk;
      IdleMoves(s, t, c);
    }
  }

  /** An idle thread starts something else, with nothing in hand and outside every critical section. */
  lemma IdleMoves(s: State, t: Tid, c: Ctl)
    requires Inv(s) && At(s, t, Idle) && c.Carried() == [] && !c.InSection()
    requires HoldersOk(s.holds, s.workers, s.ports, s.threads[t := c])
    requires ThreadOk(t, c, s.holds, s.workers, s.ports)
    ensures Inv(Go(s, t, c))
  {
    hide HoldersOk, ThreadsOk, ThreadOk, LocksOk, SignalsOk, QueuesOk, PlacesOk, MessagesOk, MessageOk, EntriesOk, Counted;
    ThreadsMoved(s, t, c);
    LocksMoved(s.pipes, s.threads, t, c);
    SignalsMoved(s.pipes, s.threads, t, c);
    PlacesMoved(s, t, c);
    HandEmpty(s, t, c);
    MessagesMoved(s, t, c);
  }

  /** Another pointer to a pipe, from a pointer of the same thread. */
  lemma DupPipeKeeps(s: State, h: Holder, from: Holder)
    requires Inv(s) && h !in s.holds && from in s.holds
    ensures s.holds[from] in s.pipes
    ensures var p := s.holds[from];
            var pipes := s.pipes[p := s.pipes[p].(refCount := s.pipes[p].refCount + 1)];
            && DupPipe(s, h, from) == Next(s.(pipes := pipes, holds := s.holds[h := p]))
            && Counted(PipeCounts(pipes), s.holds[h := p])
            && LocksOk(pipes, s.threads) && SignalsOk(pipes, s.threads)
            && QueuesOk(pipes, s.msgs) && PlacesOk(pipes, s.msgs, s.threads)
  {
    var p := s.holds[from];
    assert p in PipeCounts(s.pipes) && PipeCounts(s.pipes)[p] == s.pipes[p].refCount;
    hide HoldersOk, ThreadsOk, LocksOk, SignalsOk, QueuesOk, PlacesOk, MessagesOk, EntriesOk, Counted;
    Duplicated(PipeCounts(s.pipes), s.holds, h, p);
    Recounted(s, p, s.pipes[p].refCount + 1);
  }

  /** The pointers of the objects of a thread concern no other thread. */
  lemma ThreadsMore(s: State, t: Tid, h: Holder, p: PipeId, workers: set<Worker>, ports: map<Worker, nat>, c: Ctl)
    requires ThreadsOk(s.holds, s.workers, s.ports, s.threads) && h !in s.holds && h.Owner() == t
    requires forall w: Worker | w.owner != t :: (w in workers <==> w in s.workers) && (w in ports <==> w in s.ports)
    requires ThreadOk(t, c, s.holds[h := p], workers, ports)
    ensures ThreadsOk(s.holds[h := p], workers, ports, s.threads[t := c])
  {
    var threads := s.threads[t := c];
    forall u | u in threads
      ensures ThreadOk(u, threads[u], s.holds[h := p], workers, ports)
    {
      if u != t {
        assert ThreadOk(u, s.threads[u], s.holds, s.workers, s.ports);
      }
    }
  }

  /** A thread's objects come and go. */
  lemma ThreadsObjects(s: State, t: Tid, workers: set<Worker>, ports: map<Worker, nat>, c: Ctl)
    requires ThreadsOk(s.holds, s.workers, s.ports, s.threads)
    requires forall w: Worker | w.owner != t :: (w in workers <==> w in s.workers) && (w in ports <==> w in s.ports)
    requires ThreadOk(t, c, s.holds, workers, ports)
    ensures ThreadsOk(s.holds, workers, ports, s.threads[t := c])
  {
    var threads := s.threads[t := c];
    forall u | u in threads
      ensures ThreadOk(u, threads[u], s.holds, workers, ports)
    {
      if u != t {
        assert ThreadOk(u, s.threads[u], s.holds, s.workers, s.ports);
      }
    }
  }

  /** Every pointer to a pipe is accounted for once the objects of `t` have changed. */
  lemma HoldersChange(s: State, t: Tid, holds: map<Holder, PipeId>, workers: set<Worker>, ports: map<Worker, nat>, c: Ctl)
    requires HoldersOk(s.holds, s.workers, s.ports, s.threads) && t in s.threads && !s.threads[t].Releasing?
    requires forall h | h in s.holds :: h in holds
    requires forall w: Worker | w.owner != t :: (w in workers <==> w in s.workers) && (w in ports <==> w in s.ports)
    requires forall w | w in workers && w.owner == t :: WorkerRecv(w) in holds && WorkerSend(w) in holds
    requires forall w | w in ports && w.owner == t :: w in workers && PortRecv(w) in holds
    requires forall h | h in holds && h !in s.holds :: h.Owner() == t
    requires forall h | h in holds && h.Owner() == t :: Justified(h, workers, ports, c)
    ensures HoldersOk(holds, workers, ports, s.threads[t := c])
  {
    var threads := s.threads[t := c];
    forall h | h in holds
      ensures h.ThreadRecv? || h.ThreadSend? || Registered(workers, ports, h) || Pending(threads, h) || IsBuilding(threads, h)
    {
      if h.Owner() == t {
        assert Justified(h, workers, ports, c);
      } else {
        assert h in s.holds;
      }
    }
  }

  /** The object with the pointer exists, or is being built or released by its thread. */
  ghost predicate Justified(h: Holder, workers: set<Worker>, ports: map<Worker, nat>, c: Ctl) {
    || h.ThreadRecv? || h.ThreadSend? || Registered(workers, ports, h)
    || (c.Releasing? && h in c.holders) || (h.WorkerRecv? && c == Building(h.w))
  }

  /** What accounts for the pointers of a thread now. */
  lemma JustifiedNow(s: State, t: Tid)
    requires HoldersOk(s.holds, s.workers, s.ports, s.threads) && t in s.threads
    ensures forall h | h in s.holds && h.Owner() == t :: Justified(h, s.workers, s.ports, s.threads[t])
    ensures forall w | w in s.workers :: WorkerRecv(w) in s.holds && WorkerSend(w) in s.holds
    ensures forall w | w in s.ports :: w in s.workers && PortRecv(w) in s.holds
  {
  }

  lemma ParentRecvSafe(s: State, t: Tid, w: Worker)
    requires Inv(s) && w.owner == t
    ensures Safe(DoParentRecv(s, t, w))
  {
    hide HoldersOk, ThreadsOk, ThreadOk, LocksOk, SignalsOk, QueuesOk, PlacesOk, MessagesOk, MessageOk, EntriesOk, Counted, DupPipe;
    if At(s, t, Idle) && ThreadRecv(t) in s.holds && ThreadSend(t) in s.holds && Unused(s, w) {
      var (h, p) := (WorkerRecv(w), s.holds[ThreadRecv(t)]);
      var c := Building(w);
      JustifiedNow(s, t);
      HoldersChange(s, t, s.holds[h := p], s.workers, s.ports, c);
      BuildingOk(s, w, p);
      DupPipeKeeps(s, h, ThreadRecv(t));
      ThreadsMore(s, t, h, p, s.workers, s.ports, c);
      NewReferenceMoves(s, t, h, ThreadRecv(t), c);
    }
  }

  lemma BuildingOk(s: State, w: Worker, p: PipeId)
    requires Unused(s, w) && ThreadSend(w.owner) in s.holds
    ensures ThreadOk(w.owner, Building(w), s.holds[WorkerRecv(w) := p], s.workers, s.ports)
  {
  }

  /** The parts that a new pointer and a move of its idle or building thread leave alone. */
  lemma NewReferenceMoves(s: State, t: Tid, h: Holder, from: Holder, c: Ctl)
    requires Inv(s) && h !in s.holds && from in s.holds && t in s.threads && s.holds[from] in s.pipes
    requires (s.threads[t].Idle? || s.threads[t].Building?) && (c.Idle? || c.Building?)
    ensures var p := s.holds[from];
            var pipes := s.pipes[p := s.pipes[p].(refCount := s.pipes[p].refCount + 1)];
            && LocksOk(pipes, s.threads[t := c]) && SignalsOk(pipes, s.threads[t := c])
            && PlacesOk(pipes, s.msgs, s.threads[t := c]) && MessagesOk(s.msgs, s.threads[t := c], s.refs)
  {
    hide HoldersOk, ThreadsOk, LocksOk, SignalsOk, QueuesOk, PlacesOk, MessagesOk, MessageOk, EntriesOk, Counted, DupPipe;
    DupPipeKeeps(s, h, from);
    var p := s.holds[from];
    var pipes := s.pipes[p := s.pipes[p].(refCount := s.pipes[p].refCount + 1)];
    LocksMoved(pipes, s.threads, t, c);
    SignalsMoved(pipes, s.threads, t, c);
    PlacesMoved(s.(pipes := pipes), t, c);
    HandEmpty(s, t, c);
    MessagesMoved(s, t, c);
  }

  lemma ParentSendSafe(s: State, t: Tid)
    requires Inv(s)
    ensures Safe(DoParentSend(s, t))
  {
    hide HoldersOk, ThreadsOk, ThreadOk, LocksOk, SignalsOk, QueuesOk, PlacesOk, MessagesOk, MessageOk, EntriesOk, Counted, DupPipe;
    if t in s.threads && s.threads[t].Building? {
      var w := s.threads[t].w;
      BuildingFacts(s, t);
      var (h, p) := (WorkerSend(w), s.holds[ThreadSend(t)]);
      JustifiedNow(s, t);
      HoldersChange(s, t, s.holds[h := p], s.workers + {w}, s.ports, Idle);
      IdleAlways(t, s.holds[h := p], s.workers + {w}, s.ports);
      DupPipeKeeps(s, h, ThreadSend(t));
      ThreadsMore(s, t, h, p, s.workers + {w}, s.ports, Idle);
      NewReferenceMoves(s, t, h, ThreadSend(t), Idle);
    }
  }

  lemma BuildingFacts(s: State, t: Tid)
    requires ThreadsOk(s.holds, s.workers, s.ports, s.threads) && t in s.threads && s.threads[t].Building?
    ensures var w := s.threads[t].w;
            && w.owner == t && WorkerRecv(w) in s.holds && WorkerSend(w) !in s.holds && ThreadSend(t) in s.holds
            && w !in s.ports
  {
    assert ThreadOk(t, s.threads[t], s.holds, s.workers, s.ports);
  }

  lemma IdleAlways(t: Tid, holds: map<Holder, PipeId>, workers: set<Worker>, ports: map<Worker, nat>)
    ensures ThreadOk(t, Idle, holds, workers, ports)
  {
  }

  lemma SetOnMessageSafe(s: State, t: Tid, w: Worker, func: Option<nat>)
    requires Inv(s) && w.owner == t
    ensures Safe(DoSetOnMessage(s, t, w, func))
  {
    hide HoldersOk, ThreadsOk, LocksOk, SignalsOk, QueuesOk, PlacesOk, MessagesOk, MessageOk, EntriesOk, Counted;
    if At(s, t, Idle) && w in s.workers {
      if func.None? {
        if w in s.ports {
          PortFreed(s, t, w);
        }
      } else if w in s.ports {
        PortChanged(s, w, func.value);
      } else {
        PortAdded(s, t, w, func.value);
      }
    }
  }

  lemma PortFreed(s: State, t: Tid, w: Worker)
    requires Inv(s) && w.owner == t && At(s, t, Idle) && w in s.ports
    ensures Inv(Go(s.(ports := s.ports - {w}), t, Releasing([PortRecv(w)], [])))
  {
    hide HoldersOk, ThreadsOk, ThreadOk, LocksOk, SignalsOk, QueuesOk, PlacesOk, MessagesOk, MessageOk, EntriesOk, Counted;
    var c := Releasing([PortRecv(w)], []);
    assert c.holders[0] == PortRecv(w);
    JustifiedNow(s, t);
    HoldersChange(s, t, s.holds, s.workers, s.ports - {w}, c);
    OneToRelease(s, w, c);
    ThreadsObjects(s, t, s.workers, s.ports - {w}, c);
    ReleasingMoves(s, t, c);
  }

  lemma OneToRelease(s: State, w: Worker, c: Ctl)
    requires PortRecv(w) in s.holds && c == Releasing([PortRecv(w)], [])
    ensures ThreadOk(w.owner, c, s.holds, s.workers, s.ports - {w})
  {
  }

  /** The parts that do not concern the objects of an idle thread that begins to release some. */
  lemma ReleasingMoves(s: State, t: Tid, c: Ctl)
    requires LocksOk(s.pipes, s.threads) && SignalsOk(s.pipes, s.threads)
    requires Inv(s) && At(s, t, Idle) && c.Releasing? && c.msgs == []
    ensures LocksOk(s.pipes, s.threads[t := c]) && SignalsOk(s.pipes, s.threads[t := c])
    ensures PlacesOk(s.pipes, s.msgs, s.threads[t := c]) && MessagesOk(s.msgs, s.threads[t := c], s.refs)
  {
    hide HoldersOk, ThreadsOk, ThreadOk, LocksOk, SignalsOk, QueuesOk, PlacesOk, MessagesOk, MessageOk, EntriesOk, Counted;
    LocksMoved(s.pipes, s.threads, t, c);
    SignalsMoved(s.pipes, s.threads, t, c);
    PlacesMoved(s, t, c);
    HandEmpty(s, t, c);
    MessagesMoved(s, t, c);
  }

  lemma PortChanged(s: State, w: Worker, func: nat)
    requires Inv(s) && w in s.ports && At(s, w.owner, Idle)
    ensures Inv(s.(ports := s.ports[w := func]))
  {
    hide HoldersOk, ThreadsOk, ThreadOk, LocksOk, SignalsOk, QueuesOk, PlacesOk, MessagesOk, MessageOk, EntriesOk, Counted;
    var ports := s.ports[w := func];
    JustifiedNow(s, w.owner);
    HoldersChange(s, w.owner, s.holds, s.workers, ports, Idle);
    IdleAlways(w.owner, s.holds, s.workers, ports);
    ThreadsObjects(s, w.owner, s.workers, ports, Idle);
    assert s.threads[w.owner := Idle] == s.threads;
  }

  lemma PortAdded(s: State, t: Tid, w: Worker, func: nat)
    requires Inv(s) && w.owner == t && At(s, t, Idle) && w in s.workers && w !in s.ports
    ensures Safe(Then(DupPipe(s, PortRecv(w), WorkerRecv(w)),
                      (s1: State) => Next(s1.(ports := s1.ports[w := func]))))
  {
    hide HoldersOk, ThreadsOk, ThreadOk, LocksOk, SignalsOk, QueuesOk, PlacesOk, MessagesOk, MessageOk, EntriesOk, Counted, DupPipe;
    var (h, ports) := (PortRecv(w), s.ports[w := func]);
    JustifiedNow(s, t);
    assert h !in s.holds by {
      assert !Justified(h, s.workers, s.ports, Idle);
    }
    var p := s.holds[WorkerRecv(w)];
    HoldersChange(s, t, s.holds[h := p], s.workers, ports, Idle);
    DupPipeKeeps(s, h, WorkerRecv(w));
    IdleAlways(t, s.holds[h := p], s.workers, ports);
    ThreadsMore(s, t, h, p, s.workers, ports, Idle);
    assert s.threads[t := Idle] == s.threads;
  }

  lemma FinalizeSafe(s: State, t: Tid, w: Worker)
    requires Inv(s) && w.owner == t
    ensures Safe(DoFinalize(s, t, w))
  {
    hide HoldersOk, ThreadsOk, ThreadOk, LocksOk, SignalsOk, QueuesOk, PlacesOk, MessagesOk, MessageOk, EntriesOk, Counted;
    if At(s, t, Idle) && w in s.workers {
      var c := Releasing([WorkerRecv(w), WorkerSend(w)] + if w in s.ports then [PortRecv(w)] else [], []);
      FinalizeHolders(s, t, w, c);
      ThreadsObjects(s, t, s.workers - {w}, s.ports - {w}, c);
      ReleasingMoves(s, t, c);
    }
  }

  lemma FinalizeHolders(s: State, t: Tid, w: Worker, c: Ctl)
    requires HoldersOk(s.holds, s.workers, s.ports, s.threads) && w.owner == t && At(s, t, Idle) && w in s.workers
    requires c == Releasing([WorkerRecv(w), WorkerSend(w)] + if w in s.ports then [PortRecv(w)] else [], [])
    ensures HoldersOk(s.holds, s.workers - {w}, s.ports - {w}, s.threads[t := c])
    ensures ThreadOk(t, c, s.holds, s.workers - {w}, s.ports - {w})
  {
    hide HoldersOk, ThreadOk;
    assert c.holders[0] == WorkerRecv(w) && c.holders[1] == WorkerSend(w);
    assert w in s.ports ==> c.holders[2] == PortRecv(w);
    JustifiedNow(s, t);
    HoldersChange(s, t, s.holds, s.workers - {w}, s.ports - {w}, c);
    FinalizingOk(s.holds, s.workers, s.ports, t, w, c);
  }

  lemma FinalizingOk(holds: map<Holder, PipeId>, workers: set<Worker>, ports: map<Worker, nat>, t: Tid, w: Worker, c: Ctl)
    requires WorkerRecv(w) in holds && WorkerSend(w) in holds && (w in ports ==> PortRecv(w) in holds) && w.owner == t
    requires c == Releasing([WorkerRecv(w), WorkerSend(w)] + if w in ports then [PortRecv(w)] else [], [])
    ensures ThreadOk(t, c, holds, workers - {w}, ports - {w})
  {
  }

  // ----- new workers -----

  lemma PipeAdded(s: State, p: PipeId, n: int)
    requires p !in s.pipes && LocksOk(s.pipes, s.threads) && SignalsOk(s.pipes, s.threads)
    requires QueuesOk(s.pipes, s.msgs) && PlacesOk(s.pipes, s.msgs, s.threads)
    ensures var pipes := s.pipes[p := Pipe(n, [], 0, None, [], [])];
            && LocksOk(pipes, s.threads) && SignalsOk(pipes, s.threads)
            && QueuesOk(pipes, s.msgs) && PlacesOk(pipes, s.msgs, s.threads)
  {
    hide LocksOk, SignalsOk, QueuesOk, PlacesOk;
    SignalsAdded(s, p, n);
    QueuesAdded(s, p, n);
    PlacesAdded(s, p, n);
  }

  lemma QueuesAdded(s: State, p: PipeId, n: int)
    requires p !in s.pipes && QueuesOk(s.pipes, s.msgs)
    ensures QueuesOk(s.pipes[p := Pipe(n, [], 0, None, [], [])], s.msgs)
  {
    assert QueueOk(Pipe(n, [], 0, None, [], []), s.msgs);
    hide QueueOk;
  }

  lemma PlacesAdded(s: State, p: PipeId, n: int)
    requires p !in s.pipes && PlacesOk(s.pipes, s.msgs, s.threads)
    ensures PlacesOk(s.pipes[p := Pipe(n, [], 0, None, [], [])], s.msgs, s.threads)
  {
    var pipes := s.pipes[p := Pipe(n, [], 0, None, [], [])];
    assert Lists([], InPipe(p), s.msgs);
    hide Lists;
    forall m | m in s.msgs
      ensures PlaceOk(m, s.msgs[m].at, pipes, s.threads)
    {
      assert PlaceOk(m, s.msgs[m].at, s.pipes, s.threads);
    }
  }

  lemma SignalsAdded(s: State, p: PipeId, n: int)
    requires p !in s.pipes && LocksOk(s.pipes, s.threads) && SignalsOk(s.pipes, s.threads)
    ensures var pipes := s.pipes[p := Pipe(n, [], 0, None, [], [])];
            LocksOk(pipes, s.threads) && SignalsOk(pipes, s.threads)
  {
    var pipes := s.pipes[p := Pipe(n, [], 0, None, [], [])];
    assert forall q | q in s.pipes :: Between(pipes[q], s.threads) == Between(s.pipes[q], s.threads);
  }

  lemma LocksWithThread(s: State, child: Tid)
    requires child !in s.threads && LocksOk(s.pipes, s.threads)
    ensures LocksOk(s.pipes, s.threads[child := Idle])
  {
  }

  lemma SignalsWithThread(s: State, child: Tid)
    requires child !in s.threads && LocksOk(s.pipes, s.threads) && SignalsOk(s.pipes, s.threads)
    ensures SignalsOk(s.pipes, s.threads[child := Idle])
  {
    assert forall q | q in s.pipes :: Between(s.pipes[q], s.threads[child := Idle]) == Between(s.pipes[q], s.threads);
  }

  lemma PlacesWithThread(s: State, child: Tid)
    requires child !in s.threads && PlacesOk(s.pipes, s.msgs, s.threads)
    ensures PlacesOk(s.pipes, s.msgs, s.threads[child := Idle])
  {
    hide NoDup;
    forall m | m in s.msgs
      ensures PlaceOk(m, s.msgs[m].at, s.pipes, s.threads[child := Idle])
    {
      assert PlaceOk(m, s.msgs[m].at, s.pipes, s.threads);
    }
    hide PlaceOk;
    assert Lists(Idle.Carried(), InHand(child), s.msgs) by { NothingListed(InHand(child), s.msgs); }
  }

  lemma NothingListed(at: Place, msgs: map<MsgId, Message>)
    ensures Lists([], at, msgs)
  {
  }

  lemma MessagesWithThread(s: State, child: Tid)
    requires child !in s.threads && MessagesOk(s.msgs, s.threads, s.refs)
    ensures MessagesOk(s.msgs, s.threads[child := Idle], s.refs)
  {
    forall m | m in s.msgs
      ensures MessageOk(s.msgs[m], s.threads[child := Idle], s.refs)
    {
      assert MessageOk(s.msgs[m], s.threads, s.refs);
    }
  }

  /** A new thread has nothing in hand. */
  lemma ThreadAdded(s: State, child: Tid)
    requires child !in s.threads && LocksOk(s.pipes, s.threads) && SignalsOk(s.pipes, s.threads)
    requires PlacesOk(s.pipes, s.msgs, s.threads) && MessagesOk(s.msgs, s.threads, s.refs)
    ensures var threads := s.threads[child := Idle];
            && LocksOk(s.pipes, threads) && SignalsOk(s.pipes, threads)
            && PlacesOk(s.pipes, s.msgs, threads) && MessagesOk(s.msgs, threads, s.refs)
  {
    hide *;
    LocksWithThread(s, child);
    SignalsWithThread(s, child);
    PlacesWithThread(s, child);
    MessagesWithThread(s, child);
  }

  function EmptyPipe(n: int): Pipe {
    Pipe(n, [], 0, None, [], [])
  }

  function WorkerHolds(holds: map<Holder, PipeId>, w: Worker, p: PipeId, q: PipeId, child: Tid): map<Holder, PipeId> {
    holds[ThreadRecv(child) := p][ThreadSend(child) := q][WorkerRecv(w) := q][WorkerSend(w) := p]
  }

  predicate CanStart(s: State, t: Tid, w: Worker, p: PipeId, q: PipeId, child: Tid) {
    && At(s, t, Idle) && Unused(s, w) && p !in s.pipes && q !in s.pipes && p != q && w.owner == t
    && child !in s.threads && ThreadRecv(child) !in s.holds && ThreadSend(child) !in s.holds
  }

  /** Two pipes with two references each: those of the new thread and of the Worker object. */
  lemma StartedCounts(s: State, t: Tid, w: Worker, p: PipeId, q: PipeId, child: Tid)
    requires Counted(PipeCounts(s.pipes), s.holds) && CanStart(s, t, w, p, q, child)
    ensures Counted(PipeCounts(s.pipes[p := EmptyPipe(2)][q := EmptyPipe(2)]), WorkerHolds(s.holds, w, p, q, child))
  {
    var c0 := PipeCounts(s.pipes);
    var h0 := s.holds;
    hide Counted;
    Created(c0, h0, ThreadRecv(child), p);
    var (c1, h1) := (c0[p := 1], h0[ThreadRecv(child) := p]);
    Created(c1, h1, ThreadSend(child), q);
    var (c2, h2) := (c1[q := 1], h1[ThreadSend(child) := q]);
    Duplicated(c2, h2, WorkerRecv(w), q);
    var (c3, h3) := (c2[q := 2], h2[WorkerRecv(w) := q]);
    Duplicated(c3, h3, WorkerSend(w), p);
    assert PipeCounts(s.pipes[p := EmptyPipe(2)][q := EmptyPipe(2)]) == c3[p := 2];
  }

  lemma StartedHolders(s: State, t: Tid, w: Worker, p: PipeId, q: PipeId, child: Tid)
    requires HoldersOk(s.holds, s.workers, s.ports, s.threads) && CanStart(s, t, w, p, q, child)
    ensures HoldersOk(WorkerHolds(s.holds, w, p, q, child), s.workers + {w}, s.ports, s.threads[child := Idle])
  {
    var (holds, workers, threads) := (WorkerHolds(s.holds, w, p, q, child), s.workers + {w}, s.threads[child := Idle]);
    forall h | h in holds
      ensures h.ThreadRecv? || h.ThreadSend? || Registered(workers, s.ports, h) || Pending(threads, h) || IsBuilding(threads, h)
    {
      if h in s.holds {
        assert Pending(s.threads, h) ==> Pending(threads, h);
        assert IsBuilding(s.threads, h) ==> IsBuilding(threads, h);
      }
    }
  }

  lemma StartedThreads(s: State, t: Tid, w: Worker, p: PipeId, q: PipeId, child: Tid)
    requires ThreadsOk(s.holds, s.workers, s.ports, s.threads) && CanStart(s, t, w, p, q, child)
    ensures ThreadsOk(WorkerHolds(s.holds, w, p, q, child), s.workers + {w}, s.ports, s.threads[child := Idle])
  {
    var (holds, workers, threads) := (WorkerHolds(s.holds, w, p, q, child), s.workers + {w}, s.threads[child := Idle]);
    forall u | u in threads
      ensures ThreadOk(u, threads[u], holds, workers, s.ports)
    {
      if u != child {
        assert ThreadOk(u, s.threads[u], s.holds, s.workers, s.ports);
      }
    }
  }

  /** js_worker_ctor, its four steps taken together. */
  lemma NewPipeIs(s: State, h: Holder, p: PipeId)
    requires p !in s.pipes && h !in s.holds
    ensures NewPipe(s, h, p) == Next(s.(pipes := s.pipes[p := EmptyPipe(1)], holds := s.holds[h := p]))
  {
  }

  lemma DupPipeIs(s: State, h: Holder, from: Holder, p: PipeId)
    requires h !in s.holds && from in s.holds && s.holds[from] == p && p in s.pipes && s.pipes[p] == EmptyPipe(1)
    ensures DupPipe(s, h, from) == Next(s.(pipes := s.pipes[p := EmptyPipe(2)], holds := s.holds[h := p]))
  {
  }

  lemma StartedState(s: State, t: Tid, w: Worker, p: PipeId, q: PipeId, child: Tid)
    requires CanStart(s, t, w, p, q, child) && ThreadRecv(t) !in s.holds
    ensures DoStartWorker(s, t, w, p, q, child) ==
            Next(s.(pipes := s.pipes[p := EmptyPipe(2)][q := EmptyPipe(2)],
                    holds := WorkerHolds(s.holds, w, p, q, child),
                    workers := s.workers + {w}, threads := s.threads[child := Idle]))
  {
    hide NewPipe, DupPipe, EmptyPipe;
    PipesCommute(s.pipes, p, q);
    var h1 := s.holds[ThreadRecv(child) := p];
    var s1 := s.(pipes := s.pipes[p := EmptyPipe(1)], holds := h1);
    NewPipeIs(s, ThreadRecv(child), p);
    var h2 := h1[ThreadSend(child) := q];
    var s2 := s1.(pipes := s1.pipes[q := EmptyPipe(1)], holds := h2);
    NewPipeIs(s1, ThreadSend(child), q);
    var h3 := h2[WorkerRecv(w) := q];
    var s3 := s2.(pipes := s2.pipes[q := EmptyPipe(2)], holds := h3);
    DupPipeIs(s2, WorkerRecv(w), ThreadSend(child), q);
    var s4 := s3.(pipes := s3.pipes[p := EmptyPipe(2)], holds := h3[WorkerSend(w) := p]);
    DupPipeIs(s3, WorkerSend(w), ThreadRecv(child), p);
  }

  lemma PipesCommute(pipes: map<PipeId, Pipe>, p: PipeId, q: PipeId)
    requires p != q
    ensures pipes[p := EmptyPipe(1)][q := EmptyPipe(1)][q := EmptyPipe(2)][p := EmptyPipe(2)] ==
            pipes[p := EmptyPipe(2)][q := EmptyPipe(2)]
  {
    hide EmptyPipe;
  }

  lemma StartWorkerSafe(s: State, t: Tid, w: Worker, p: PipeId, q: PipeId, child: Tid)
    requires Inv(s) && w.owner == t
    ensures Safe(DoStartWorker(s, t, w, p, q, child))
  {
    hide HoldersOk, ThreadsOk, ThreadOk, LocksOk, SignalsOk, QueuesOk, PlacesOk, MessagesOk, MessageOk, EntriesOk, Counted;
    hide NewPipe, DupPipe, EmptyPipe, WorkerHolds;
    if CanStart(s, t, w, p, q, child) && ThreadRecv(t) !in s.holds {
      StartedState(s, t, w, p, q, child);
      hide DoStartWorker;
      StartedCounts(s, t, w, p, q, child);
      StartedHolders(s, t, w, p, q, child);
      StartedThreads(s, t, w, p, q, child);
      TwoPipes(s, p, q, child);
    }
  }

  lemma TwoPipes(s: State, p: PipeId, q: PipeId, child: Tid)
    requires p !in s.pipes && q !in s.pipes && p != q && child !in s.threads
    requires LocksOk(s.pipes, s.threads) && SignalsOk(s.pipes, s.threads) && QueuesOk(s.pipes, s.msgs)
    requires PlacesOk(s.pipes, s.msgs, s.threads) && MessagesOk(s.msgs, s.threads, s.refs)
    ensures var (pipes, threads) := (s.pipes[p := EmptyPipe(2)][q := EmptyPipe(2)], s.threads[child := Idle]);
            && LocksOk(pipes, threads) && SignalsOk(pipes, threads) && QueuesOk(pipes, s.msgs)
            && PlacesOk(pipes, s.msgs, threads) && MessagesOk(s.msgs, threads, s.refs)
  {
    hide LocksOk, SignalsOk, QueuesOk, PlacesOk, MessagesOk;
    PipeAdded(s, p, 2);
    var s1 := s.(pipes := s.pipes[p := EmptyPipe(2)]);
    PipeAdded(s1, q, 2);
    ThreadAdded(s1.(pipes := s1.pipes[q := EmptyPipe(2)]), child);
  }

  // ----- every step, every run -----

  /** No step faults, whatever the thread and whenever it is taken, and every step keeps the invariant. */
  lemma StepSafe(s: State, a: Action)
    requires Inv(s)
    ensures Do(s, a) != Fault
    ensures Do(s, a).Next? ==> Inv(Do(s, a).state)
  {
    ActionSafe(s, a);
    hide Inv, Do;
  }

  lemma ActionSafe(s: State, a: Action)
    requires Inv(s)
    ensures Safe(Do(s, a))
  {
    hide Inv, Safe, DoNewSab, DoDropObject, DoPost, DoPostDup, DoPostLock, DoPostSignal, DoPostAppend, DoPostUnlock;
    hide DoHandle, DoHandleLock, DoHandleTake, DoHandleDrain, DoHandleUnlock, DoAdopt, DoReadDone, DoFreeEntry;
    hide DoFreeMessage, DoReleasePipe, DoReleaseDone, DoStartWorker, DoParentRecv, DoParentSend, DoSetOnMessage;
    hide DoFinalize, DoExit;
    match a
    case NewSab(t, o, b) => NewSabSafe(s, t, o, b);
    case DropObject(t, o) => DropObjectSafe(s, t, o);
    case Post(w, m, body) => PostSafe(s, w.owner, w, m, body);
    case PostDup(t) => PostDupSafe(s, t);
    case PostLock(t) => PostLockSafe(s, t);
    case PostSignal(t) => PostSignalSafe(s, t);
    case PostAppend(t) => PostAppendSafe(s, t);
    case PostUnlock(t) => PostUnlockSafe(s, t);
    case Handle(w) => HandleSafe(s, w.owner, w);
    case HandleLock(t) => HandleLockSafe(s, t);
    case HandleTake(t) => HandleTakeSafe(s, t);
    case HandleDrain(t) => HandleDrainSafe(s, t);
    case HandleUnlock(t) => HandleUnlockSafe(s, t);
    case Adopt(t, i, o) => AdoptSafe(s, t, i, o);
    case ReadDone(t) => ReadDoneSafe(s, t);
    case FreeEntry(t) => FreeEntrySafe(s, t);
    case FreeMessage(t) => FreeMessageSafe(s, t);
    case ReleasePipe(t) => ReleasePipeSafe(s, t);
    case ReleaseDone(t) => ReleaseDoneSafe(s, t);
    case StartWorker(t, id, p, q, child) => StartWorkerSafe(s, t, Worker(t, id, Some(child)), p, q, child);
    case ParentRecv(t, id) => ParentRecvSafe(s, t, Worker(t, id, None));
    case ParentSend(t) => ParentSendSafe(s, t);
    case SetOnMessage(w, func) => SetOnMessageSafe(s, w.owner, w, func);
    case Finalize(w) => FinalizeSafe(s, w.owner, w);
    case Exit(t) => ExitSafe(s, t);
  }

  /** One thread, nothing allocated. */
  function Init(main: Tid): State {
    State(map[], map[], {}, map[], map[], map[], map[], map[main := Idle])
  }

  /** A schedule: the steps of all the threads in the order in which they happen. A step whose thread is
      not ready for it is passed over. */
  ghost function Run(s: State, schedule: seq<Action>): Outcome
    decreases |schedule|
  {
    if schedule == [] then Next(s)
    else
      match Do(s, schedule[0])
      case Next(s') => Run(s', schedule[1..])
      case Disabled => Run(s, schedule[1..])
      case Fault => Fault
  }

  lemma {:induction false} RunKeeps(s: State, schedule: seq<Action>)
    requires Inv(s)
    ensures Run(s, schedule).Next? && Inv(Run(s, schedule).state)
    decreases |schedule|
  {
    hide Inv;
    hide Do;
    if schedule != [] {
      StepSafe(s, schedule[0]);
      match Do(s, schedule[0])
      case Next(s') => RunKeeps(s', schedule[1..]);
      case Disabled => RunKeeps(s, schedule[1..]);
      case Fault =>
    }
  }

  /** Under every schedule: no pipe, message or buffer is used after its release or released twice, no
      count goes below zero, no locked mutex is destroyed and the draining read never blocks. */
  lemma EveryRunSafe(main: Tid, schedule: seq<Action>)
    ensures Run(Init(main), schedule).Next?
    ensures Inv(Run(Init(main), schedule).state)
  {
    hide Run;
    assert Inv(Init(main));
    RunKeeps(Init(main), schedule);
  }

  ghost predicate Reachable(s: State) {
    exists main, schedule :: Run(Init(main), schedule) == Next(s)
  }

  lemma ReachableInv(s: State)
    requires Reachable(s)
    ensures Inv(s)
  {
    hide Inv;
    hide Run;
    var main, schedule :| Run(Init(main), schedule) == Next(s);
    EveryRunSafe(main, schedule);
  }

  /** No wake-up is lost: a message in the queue means a byte in the OS pipe, at every moment. And once the
      mutex is free, the byte means a message, so select does not wake a thread for nothing. */
  lemma NoLostWakeUp(s: State, p: PipeId)
    requires Reachable(s) && p in s.pipes
    ensures s.pipes[p].bytes <= 1
    ensures s.pipes[p].queue != [] ==> s.pipes[p].bytes == 1
    ensures s.pipes[p].lock == None ==> (s.pipes[p].bytes == 1 <==> s.pipes[p].queue != [])
  {
    ReachableInv(s);
  }

  ghost function Bodies(queue: seq<MsgId>, msgs: map<MsgId, Message>): seq<Body>
    requires forall i | 0 <= i < |queue| :: queue[i] in msgs
  {
    seq(|queue|, i requires 0 <= i < |queue| => msgs[queue[i]].body)
  }

  /** Messages arrive in the order in which they were sent, none lost, none twice, none altered: what was
      received followed by what is queued is what was sent. */
  lemma ExactlyOnceInOrder(s: State, p: PipeId)
    requires Reachable(s) && p in s.pipes
    ensures forall i | 0 <= i < |s.pipes[p].queue| :: s.pipes[p].queue[i] in s.msgs
    ensures s.pipes[p].sent == s.pipes[p].received + Bodies(s.pipes[p].queue, s.msgs)
  {
    ReachableInv(s);
    QueueOkAt(s, p);
    hide Inv, Reachable;
  }

  lemma QueueOkAt(s: State, p: PipeId)
    requires Inv(s) && p in s.pipes
    ensures QueueOk(s.pipes[p], s.msgs)
  {
    hide HoldersOk, ThreadsOk, LocksOk, SignalsOk, PlacesOk, MessagesOk, EntriesOk, Counted, QueueOk;
  }

  /** A pipe exists exactly while some pointer leads to it, and its count is the number of those pointers. */
  lemma PipeLiveness(s: State, p: PipeId)
    requires Reachable(s)
    ensures p in s.pipes <==> exists h :: h in s.holds && s.holds[h] == p
    ensures p in s.pipes ==> s.pipes[p].refCount == Count(s.holds, p)
  {
    ReachableInv(s);
    if p in s.pipes {
      assert PipeCounts(s.pipes)[p] == Count(s.holds, p) > 0;
      var h := CountWitness(s.holds, p);
    } else {
      assert p !in PipeCounts(s.pipes);
    }
  }

  /** The same for the shared buffers: objects of any thread, and entries of any message that exists. */
  lemma SabLiveness(s: State, b: Sab)
    requires Reachable(s)
    ensures b in s.sabs <==> exists r :: r in s.refs && s.refs[r] == b
    ensures b in s.sabs ==> s.sabs[b] == Count(s.refs, b)
  {
    ReachableInv(s);
    if b in s.sabs {
      var r := CountWitness(s.refs, b);
    }
  }

  /** No message leaks: each is in the queue of its pipe or in the hands of a thread that will pass it on. */
  lemma NoMessageLeaks(s: State, m: MsgId)
    requires Reachable(s) && m in s.msgs
    ensures match s.msgs[m].at
            case InPipe(p) => p in s.pipes && m in s.pipes[p].queue
            case InHand(t) => t in s.threads && m in s.threads[t].Carried()
  {
    ReachableInv(s);
    assert PlaceOk(m, s.msgs[m].at, s.pipes, s.threads);
  }

  /** What a thread in a critical section does next. */
  function NextInSection(t: Tid, c: Ctl): Action
    requires c.InSection()
  {
    match c
    case Posting(_, _, _, stage) =>
      if stage == Signalling then PostSignal(t) else if stage == Appending then PostAppend(t) else PostUnlock(t)
    case Handling(_, _, stage, _) =>
      if stage == Taking then HandleTake(t) else if stage == Draining then HandleDrain(t) else HandleUnlock(t)
  }

  /** Whoever has locked a mutex can always go on, so no thread waits for it in vain. */
  lemma LockHolderProceeds(s: State, p: PipeId)
    requires Reachable(s) && p in s.pipes && s.pipes[p].lock.Some?
    ensures var t := s.pipes[p].lock.value;
            t in s.threads && s.threads[t].InSection() && Do(s, NextInSection(t, s.threads[t])).Next?
  {
    ReachableInv(s);
    var t := s.pipes[p].lock.value;
    assert t in s.threads && s.threads[t].InSection();
    hide Inv;
    StepSafe(s, NextInSection(t, s.threads[t]));
    InSectionReady(s, t);
  }

  lemma InSectionReady(s: State, t: Tid)
    requires t in s.threads && s.threads[t].InSection()
    ensures Do(s, NextInSection(t, s.threads[t])) != Disabled
  {
  }
}
