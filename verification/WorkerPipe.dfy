/** The worker threads of quickjs-libc.c and the message pipes between them, as interleaved steps.
    Each step is one atomic increment or decrement, one operation under the mutex, or one thread-local
    action; the scheduler may take the steps of different threads in any order. Memory that is released
    leaves the tables, and touching it afterwards is a fault. */
module WorkerPipe {
  import opened Options

  type Tid = nat
  type PipeId = nat
  type MsgId = nat
  type Sab = nat

  /** What is sent: the serialised bytes and the shared buffers they mention (`sab_tab`). */
  datatype Body = Body(data: seq<nat>, sabs: seq<Sab>)

  datatype Place = InPipe(p: PipeId) | InHand(t: Tid)

  /** A JSWorkerMessage. It holds references to its buffers [lo, hi); `at` tells which queue or which
      thread it belongs to. */
  datatype Message = Message(body: Body, lo: nat, hi: nat, at: Place)

  /** A JSWorkerMessagePipe. `bytes` are the unread bytes of the OS pipe; `sent` and `received` are the
      histories of what was appended to the queue and taken from it. */
  datatype Pipe = Pipe(refCount: int, queue: seq<MsgId>, bytes: nat, lock: Option<Tid>,
                       sent: seq<Body>, received: seq<Body>)

  /** A Worker object of a thread: the one that js_worker_ctor made with the thread `peer`, or, without a peer,
      the `Worker.parent` of its owner. */
  datatype Worker = Worker(owner: Tid, id: nat, peer: Option<Tid>)

  /** The pointers to message pipes: JSThreadState, JSWorkerData and JSWorkerMessageHandler. */
  datatype Holder =
    | ThreadRecv(t: Tid) | ThreadSend(t: Tid)
    | WorkerRecv(w: Worker) | WorkerSend(w: Worker) | PortRecv(w: Worker)
  {
    function Owner(): Tid {
      if ThreadRecv? || ThreadSend? then t else w.owner
    }
  }

  /** The references to shared buffers: SharedArrayBuffer objects and entries of a `sab_tab`. */
  datatype SabRef = Object(t: Tid, o: nat) | Entry(m: MsgId, i: nat)

  datatype PostStage = Preparing | Signalling | Appending | PostUnlocking
  datatype HandleStage = Waiting | Taking | Draining | HandleUnlocking

  /** Where a thread is. */
  datatype Ctl =
    | Idle
    | Building(w: Worker)
    | Posting(w: Worker, p: PipeId, m: MsgId, post: PostStage)
    | Handling(w: Worker, p: PipeId, handle: HandleStage, taken: Option<MsgId>)
    | Reading(m: MsgId)
    | Releasing(holders: seq<Holder>, msgs: seq<MsgId>)
  {
    /** Between locking and unlocking the mutex of `p`. */
    predicate InSection() {
      (Posting? && post != Preparing) || (Handling? && handle != Waiting)
    }

    /** The messages the thread has in hand. */
    function Carried(): seq<MsgId> {
      match this
      case Posting(_, _, m, stage) => if stage == PostUnlocking then [] else [m]
      case Handling(_, _, _, taken) => if taken.Some? then [taken.value] else []
      case Reading(m) => [m]
      case Releasing(_, ms) => ms
      case _ => []
    }
  }

  datatype State = State(
    pipes: map<PipeId, Pipe>, holds: map<Holder, PipeId>, workers: set<Worker>, ports: map<Worker, nat>,
    sabs: map<Sab, int>, refs: map<SabRef, Sab>, msgs: map<MsgId, Message>, threads: map<Tid, Ctl>)

  datatype Outcome = Next(state: State) | Disabled | Fault

  /** One step of a thread. The names given in an action are those of the objects it allocates. */
  datatype Action =
    | NewSab(t: Tid, o: nat, b: Sab)
    | DropObject(t: Tid, o: nat)
    | Post(w: Worker, m: MsgId, body: Body)
    | PostDup(t: Tid) | PostLock(t: Tid) | PostSignal(t: Tid) | PostAppend(t: Tid) | PostUnlock(t: Tid)
    | Handle(w: Worker)
    | HandleLock(t: Tid) | HandleTake(t: Tid) | HandleDrain(t: Tid) | HandleUnlock(t: Tid)
    | Adopt(t: Tid, i: nat, o: nat)
    | ReadDone(t: Tid)
    | FreeEntry(t: Tid) | FreeMessage(t: Tid) | ReleasePipe(t: Tid) | ReleaseDone(t: Tid)
    | StartWorker(t: Tid, id: nat, p: PipeId, q: PipeId, child: Tid)
    | ParentRecv(t: Tid, id: nat) | ParentSend(t: Tid)
    | SetOnMessage(w: Worker, func: Option<nat>)
    | Finalize(w: Worker)
    | Exit(t: Tid)

  // ----- the shared buffers -----

  /** js_sab_dup. */
  function DupSab(s: State, r: SabRef, b: Sab): Outcome {
    if b !in s.sabs || r in s.refs then Fault
    else Next(s.(sabs := s.sabs[b := s.sabs[b] + 1], refs := s.refs[r := b]))
  }

  /** js_sab_free: the count goes down, and the buffer goes with the last reference. */
  function FreeSab(s: State, r: SabRef): Outcome {
    if r !in s.refs || s.refs[r] !in s.sabs then Fault
    else
      var b := s.refs[r];
      var n := s.sabs[b] - 1;
      if n < 0 then Fault
      else Next(s.(sabs := if n == 0 then s.sabs - {b} else s.sabs[b := n], refs := s.refs - {r}))
  }

  // ----- the pipes -----

  /** js_new_message_pipe, its first reference held by `h`. */
  function NewPipe(s: State, h: Holder, p: PipeId): Outcome {
    if p in s.pipes || h in s.holds then Fault
    else Next(s.(pipes := s.pipes[p := Pipe(1, [], 0, None, [], [])], holds := s.holds[h := p]))
  }

  /** js_dup_message_pipe. */
  function DupPipe(s: State, h: Holder, from: Holder): Outcome {
    if h in s.holds || from !in s.holds || s.holds[from] !in s.pipes then Fault
    else
      var p := s.holds[from];
      var ps := s.pipes[p];
      Next(s.(pipes := s.pipes[p := ps.(refCount := ps.refCount + 1)], holds := s.holds[h := p]))
  }

  /** The messages left in a released pipe belong to the thread that releases it. */
  function Inherit(msgs: map<MsgId, Message>, p: PipeId, t: Tid): map<MsgId, Message> {
    map m | m in msgs :: if msgs[m].at == InPipe(p) then msgs[m].(at := InHand(t)) else msgs[m]
  }

  /** js_free_message_pipe: at zero the pipe is released and its messages are next to be released.
      Releasing a locked mutex would be a fault. */
  function FreePipe(s: State, t: Tid, h: Holder, rest: seq<Holder>): Outcome {
    if h !in s.holds || s.holds[h] !in s.pipes then Fault
    else
      var p := s.holds[h];
      var ps := s.pipes[p];
      var n := ps.refCount - 1;
      if n < 0 || (n == 0 && ps.lock.Some?) then Fault
      else if n == 0 then
        Next(s.(pipes := s.pipes - {p}, holds := s.holds - {h}, msgs := Inherit(s.msgs, p, t),
                threads := s.threads[t := Releasing(rest, ps.queue)]))
      else
        Next(s.(pipes := s.pipes[p := ps.(refCount := n)], holds := s.holds - {h},
                threads := s.threads[t := Releasing(rest, [])]))
  }

  // ----- the steps -----

  function Then(o: Outcome, f: State -> Outcome): Outcome {
    if o.Next? then f(o.state) else o
  }

  function Go(s: State, t: Tid, c: Ctl): State {
    s.(threads := s.threads[t := c])
  }

  predicate At(s: State, t: Tid, c: Ctl) {
    t in s.threads && s.threads[t] == c
  }

  /** Some object of the thread refers to the buffer. */
  ghost predicate HeldBy(refs: map<SabRef, Sab>, t: Tid, b: Sab) {
    exists o :: Object(t, o) in refs && refs[Object(t, o)] == b
  }

  function DoNewSab(s: State, t: Tid, o: nat, b: Sab): Outcome {
    if !At(s, t, Idle) || Object(t, o) in s.refs || b in s.sabs then Disabled
    else Next(s.(sabs := s.sabs[b := 1], refs := s.refs[Object(t, o) := b]))
  }

  function DoDropObject(s: State, t: Tid, o: nat): Outcome {
    if !At(s, t, Idle) || Object(t, o) !in s.refs then Disabled else FreeSab(s, Object(t, o))
  }

  /** js_worker_postMessage up to the references: the buffers come from objects of the thread. */
  ghost function DoPost(s: State, t: Tid, w: Worker, m: MsgId, body: Body): Outcome {
    if !At(s, t, Idle) || w !in s.workers || m in s.msgs
       || exists i :: 0 <= i < |body.sabs| && !HeldBy(s.refs, t, body.sabs[i])
    then Disabled
    else if WorkerSend(w) !in s.holds then Fault
    else Next(Go(s.(msgs := s.msgs[m := Message(body, 0, 0, InHand(t))]), t,
                 Posting(w, s.holds[WorkerSend(w)], m, Preparing)))
  }

  /** One round of the loop that counts the message's references. */
  function DoPostDup(s: State, t: Tid): Outcome {
    if t !in s.threads || !s.threads[t].Posting? || s.threads[t].post != Preparing then Disabled
    else
      var m := s.threads[t].m;
      if m !in s.msgs then Fault
      else
        var msg := s.msgs[m];
        if msg.hi >= |msg.body.sabs| then Disabled
        else DupSab(s.(msgs := s.msgs[m := msg.(hi := msg.hi + 1)]), Entry(m, msg.hi), msg.body.sabs[msg.hi])
  }

  /** Taking the mutex, when it is free. */
  function Lock(s: State, t: Tid, p: PipeId, c: Ctl): Outcome {
    if p !in s.pipes then Fault
    else if s.pipes[p].lock.Some? then Disabled
    else Next(Go(s.(pipes := s.pipes[p := s.pipes[p].(lock := Some(t))]), t, c))
  }

  function Unlock(s: State, t: Tid, p: PipeId, c: Ctl): Outcome {
    if p !in s.pipes || s.pipes[p].lock != Some(t) then Fault
    else Next(Go(s.(pipes := s.pipes[p := s.pipes[p].(lock := None)]), t, c))
  }

  function DoPostLock(s: State, t: Tid): Outcome {
    if t !in s.threads || !s.threads[t].Posting? || s.threads[t].post != Preparing then Disabled
    else
      var c := s.threads[t];
      if c.m !in s.msgs then Fault
      else if s.msgs[c.m].hi < |s.msgs[c.m].body.sabs| then Disabled
      else Lock(s, t, c.p, c.(post := Signalling))
  }

  /** One byte goes into the OS pipe when the queue is empty. */
  function DoPostSignal(s: State, t: Tid): Outcome {
    if t !in s.threads || !s.threads[t].Posting? || s.threads[t].post != Signalling then Disabled
    else
      var c := s.threads[t];
      if c.p !in s.pipes then Fault
      else
        var ps := s.pipes[c.p];
        Next(Go(s.(pipes := s.pipes[c.p := ps.(bytes := ps.bytes + if ps.queue == [] then 1 else 0)]),
                t, c.(post := Appending)))
  }

  function DoPostAppend(s: State, t: Tid): Outcome {
    if t !in s.threads || !s.threads[t].Posting? || s.threads[t].post != Appending then Disabled
    else
      var c := s.threads[t];
      if c.p !in s.pipes || c.m !in s.msgs then Fault
      else
        var (ps, msg) := (s.pipes[c.p], s.msgs[c.m]);
        Next(Go(s.(pipes := s.pipes[c.p := ps.(queue := ps.queue + [c.m], sent := ps.sent + [msg.body])],
                   msgs := s.msgs[c.m := msg.(at := InPipe(c.p))]), t, c.(post := PostUnlocking)))
  }

  function DoPostUnlock(s: State, t: Tid): Outcome {
    if t !in s.threads || !s.threads[t].Posting? || s.threads[t].post != PostUnlocking then Disabled
    else Unlock(s, t, s.threads[t].p, Idle)
  }

  /** handle_posted_message on a port of the thread. */
  function DoHandle(s: State, t: Tid, w: Worker): Outcome {
    if !At(s, t, Idle) || w !in s.ports then Disabled
    else if PortRecv(w) !in s.holds then Fault
    else Next(Go(s, t, Handling(w, s.holds[PortRecv(w)], Waiting, None)))
  }

  function DoHandleLock(s: State, t: Tid): Outcome {
    if t !in s.threads || !s.threads[t].Handling? || s.threads[t].handle != Waiting then Disabled
    else Lock(s, t, s.threads[t].p, s.threads[t].(handle := Taking))
  }

  /** The first message leaves the queue; if it was the last one, the OS pipe is to be drained. */
  function DoHandleTake(s: State, t: Tid): Outcome {
    if t !in s.threads || !s.threads[t].Handling? || s.threads[t].handle != Taking then Disabled
    else
      var c := s.threads[t];
      if c.p !in s.pipes then Fault
      else
        var ps := s.pipes[c.p];
        if ps.queue == [] then Next(Go(s, t, c.(handle := HandleUnlocking)))
        else
          var m := ps.queue[0];
          if m !in s.msgs then Fault
          else
            var rest := ps.queue[1..];
            Next(Go(s.(pipes := s.pipes[c.p := ps.(queue := rest, received := ps.received + [s.msgs[m].body])],
                       msgs := s.msgs[m := s.msgs[m].(at := InHand(t))]), t,
                    c.(handle := if rest == [] then Draining else HandleUnlocking, taken := Some(m))))
  }

  /** The read of up to 16 bytes: with no byte in the OS pipe it would block for ever under the mutex. */
  function DoHandleDrain(s: State, t: Tid): Outcome {
    if t !in s.threads || !s.threads[t].Handling? || s.threads[t].handle != Draining then Disabled
    else
      var c := s.threads[t];
      if c.p !in s.pipes || s.pipes[c.p].bytes == 0 then Fault
      else
        var ps := s.pipes[c.p];
        Next(Go(s.(pipes := s.pipes[c.p := ps.(bytes := if ps.bytes <= 16 then 0 else ps.bytes - 16)]),
                t, c.(handle := HandleUnlocking)))
  }

  function DoHandleUnlock(s: State, t: Tid): Outcome {
    if t !in s.threads || !s.threads[t].Handling? || s.threads[t].handle != HandleUnlocking then Disabled
    else
      var c := s.threads[t];
      Unlock(s, t, c.p, if c.taken.Some? then Reading(c.taken.value) else Idle)
  }

  /** JS_ReadObject makes an object for a buffer of the message. */
  function DoAdopt(s: State, t: Tid, i: nat, o: nat): Outcome {
    if t !in s.threads || !s.threads[t].Reading? || Object(t, o) in s.refs then Disabled
    else if s.threads[t].m !in s.msgs then Fault
    else
      var body := s.msgs[s.threads[t].m].body;
      if i >= |body.sabs| then Disabled else DupSab(s, Object(t, o), body.sabs[i])
  }

  function DoReadDone(s: State, t: Tid): Outcome {
    if t !in s.threads || !s.threads[t].Reading? then Disabled
    else Next(Go(s, t, Releasing([], [s.threads[t].m])))
  }

  /** js_free_message, one buffer at a time. */
  function DoFreeEntry(s: State, t: Tid): Outcome {
    if t !in s.threads || !s.threads[t].Releasing? || s.threads[t].msgs == [] then Disabled
    else
      var m := s.threads[t].msgs[0];
      if m !in s.msgs then Fault
      else
        var msg := s.msgs[m];
        if msg.lo >= |msg.body.sabs| then Disabled
        else FreeSab(s.(msgs := s.msgs[m := msg.(lo := msg.lo + 1)]), Entry(m, msg.lo))
  }

  function DoFreeMessage(s: State, t: Tid): Outcome {
    if t !in s.threads || !s.threads[t].Releasing? || s.threads[t].msgs == [] then Disabled
    else
      var c := s.threads[t];
      var m := c.msgs[0];
      if m !in s.msgs then Fault
      else if s.msgs[m].lo < |s.msgs[m].body.sabs| then Disabled
      else Next(Go(s.(msgs := s.msgs - {m}), t, c.(msgs := c.msgs[1..])))
  }

  function DoReleasePipe(s: State, t: Tid): Outcome {
    if t !in s.threads || !s.threads[t].Releasing? || s.threads[t].msgs != [] || s.threads[t].holders == []
    then Disabled
    else FreePipe(s, t, s.threads[t].holders[0], s.threads[t].holders[1..])
  }

  function DoReleaseDone(s: State, t: Tid): Outcome {
    if !At(s, t, Releasing([], [])) then Disabled else Next(Go(s, t, Idle))
  }

  /** Nothing carries the name of the worker object yet. */
  predicate Unused(s: State, w: Worker) {
    w !in s.workers && w !in s.ports && WorkerRecv(w) !in s.holds && WorkerSend(w) !in s.holds && PortRecv(w) !in s.holds
  }

  /** js_worker_ctor in the main thread: two pipes for the new thread, shared with the Worker object. */
  function DoStartWorker(s: State, t: Tid, w: Worker, p: PipeId, q: PipeId, child: Tid): Outcome {
    if !At(s, t, Idle) || ThreadRecv(t) in s.holds || !Unused(s, w) || p in s.pipes || q in s.pipes || p == q
       || child in s.threads || ThreadRecv(child) in s.holds || ThreadSend(child) in s.holds
    then Disabled
    else
      Then(NewPipe(s, ThreadRecv(child), p), (s1: State) =>
      Then(NewPipe(s1, ThreadSend(child), q), (s2: State) =>
      Then(DupPipe(s2, WorkerRecv(w), ThreadSend(child)), (s3: State) =>
      Then(DupPipe(s3, WorkerSend(w), ThreadRecv(child)), (s4: State) =>
        Next(s4.(workers := s4.workers + {w}, threads := s4.threads[child := Idle]))))))
  }

  /** js_os_init in a worker thread: `Worker.parent`, first its receiving pipe. */
  function DoParentRecv(s: State, t: Tid, w: Worker): Outcome {
    if !At(s, t, Idle) || ThreadRecv(t) !in s.holds || ThreadSend(t) !in s.holds || !Unused(s, w) then Disabled
    else Then(DupPipe(s, WorkerRecv(w), ThreadRecv(t)), (s1: State) => Next(Go(s1, t, Building(w))))
  }

  function DoParentSend(s: State, t: Tid): Outcome {
    if t !in s.threads || !s.threads[t].Building? then Disabled
    else
      var w := s.threads[t].w;
      Then(DupPipe(s, WorkerSend(w), ThreadSend(t)), (s1: State) =>
        Next(Go(s1.(workers := s1.workers + {w}), t, Idle)))
  }

  /** js_worker_set_onmessage. */
  function DoSetOnMessage(s: State, t: Tid, w: Worker, func: Option<nat>): Outcome {
    if !At(s, t, Idle) || w !in s.workers then Disabled
    else if func.None? then
      if w in s.ports then Next(Go(s.(ports := s.ports - {w}), t, Releasing([PortRecv(w)], []))) else Next(s)
    else if w in s.ports then Next(s.(ports := s.ports[w := func.value]))
    else Then(DupPipe(s, PortRecv(w), WorkerRecv(w)), (s1: State) =>
           Next(s1.(ports := s1.ports[w := func.value])))
  }

  /** js_worker_finalizer. */
  function DoFinalize(s: State, t: Tid, w: Worker): Outcome {
    if !At(s, t, Idle) || w !in s.workers then Disabled
    else Next(Go(s.(workers := s.workers - {w}, ports := s.ports - {w}), t,
                 Releasing([WorkerRecv(w), WorkerSend(w)] + if w in s.ports then [PortRecv(w)] else [], [])))
  }

  /** js_std_free_handlers at the end of a thread. */
  function DoExit(s: State, t: Tid): Outcome {
    if !At(s, t, Idle) || ThreadRecv(t) !in s.holds || ThreadSend(t) !in s.holds then Disabled
    else Next(Go(s, t, Releasing([ThreadRecv(t), ThreadSend(t)], [])))
  }

  ghost function Do(s: State, a: Action): Outcome {
    match a
    case NewSab(t, o, b) => DoNewSab(s, t, o, b)
    case DropObject(t, o) => DoDropObject(s, t, o)
    case Post(w, m, body) => DoPost(s, w.owner, w, m, body)
    case PostDup(t) => DoPostDup(s, t)
    case PostLock(t) => DoPostLock(s, t)
    case PostSignal(t) => DoPostSignal(s, t)
    case PostAppend(t) => DoPostAppend(s, t)
    case PostUnlock(t) => DoPostUnlock(s, t)
    case Handle(w) => DoHandle(s, w.owner, w)
    case HandleLock(t) => DoHandleLock(s, t)
    case HandleTake(t) => DoHandleTake(s, t)
    case HandleDrain(t) => DoHandleDrain(s, t)
    case HandleUnlock(t) => DoHandleUnlock(s, t)
    case Adopt(t, i, o) => DoAdopt(s, t, i, o)
    case ReadDone(t) => DoReadDone(s, t)
    case FreeEntry(t) => DoFreeEntry(s, t)
    case FreeMessage(t) => DoFreeMessage(s, t)
    case ReleasePipe(t) => DoReleasePipe(s, t)
    case ReleaseDone(t) => DoReleaseDone(s, t)
    case StartWorker(t, id, p, q, child) => DoStartWorker(s, t, Worker(t, id, Some(child)), p, q, child)
    case ParentRecv(t, id) => DoParentRecv(s, t, Worker(t, id, None))
    case ParentSend(t) => DoParentSend(s, t)
    case SetOnMessage(w, func) => DoSetOnMessage(s, w.owner, w, func)
    case Finalize(w) => DoFinalize(s, w.owner, w)
    case Exit(t) => DoExit(s, t)
  }
}
