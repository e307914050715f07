/**
 Properties of whole runs of the scheduler: delivery order and conservation of messages,
 no lost wake-up, first-in-first-out dispatch, finality of finished actors, quiescence.
 What was sent, received, made ready or dispatched is read off the actions of the run;
 the state keeps no history.
 */
module ActorRuns {
  import opened Options
  import opened ActorModel
  import opened ActorInvariant

  // ---------------------------------------------------------------- reachable states

  ghost predicate ReachedBy(s: State, n: nat, run: seq<Action>) {
    n > 0 && Legal(Init(n), run) && s == Run(Init(n), run)
  }

  /** s can occur after sherry_init, whatever the actors and the event loop do. */
  ghost predicate Reachable(s: State) {
    exists n: nat, run: seq<Action> :: ReachedBy(s, n, run)
  }

  lemma ReachableInv(s: State)
    requires Reachable(s)
    ensures Inv(s)
  {
    var n: nat, run: seq<Action> :| ReachedBy(s, n, run);
    InitInv(n);
    RunKeepsInv(Init(n), run);
  }

  lemma {:induction false} RunSnoc(s: State, run: seq<Action>, a: Action)
    requires Legal(s, run) && Closed(Run(s, run)) && Enabled(Run(s, run), a)
    ensures Legal(s, run + [a]) && Run(s, run + [a]) == Step(Run(s, run), a)
    decreases |run|
  {
    if run == [] {
      assert run + [a] == [a];
    } else {
      RunSnoc(Step(s, run[0]), run[1..], a);
      assert (run + [a])[1..] == run[1..] + [a];
    }
  }

  lemma ReachableStep(s: State, a: Action)
    requires Reachable(s) && Closed(s) && Enabled(s, a)
    ensures Reachable(Step(s, a))
  {
    var n: nat, run: seq<Action> :| ReachedBy(s, n, run);
    RunSnoc(Init(n), run, a);
    assert ReachedBy(Step(s, a), n, run + [a]);
  }

  /** Two balanced exchanges, one after the other, balance. */
  lemma Glue<T>(q0: seq<T>, q1: seq<T>, q2: seq<T>, out1: seq<T>, in1: seq<T>, out2: seq<T>, in2: seq<T>)
    requires out1 + q1 == q0 + in1 && out2 + q2 == q1 + in2
    ensures (out1 + out2) + q2 == q0 + (in1 + in2)
  {
    assert (out1 + out2) + q2 == out1 + (out2 + q2) == (out1 + q1) + in2;
    assert (q0 + in1) + in2 == q0 + (in1 + in2);
  }

  // ---------------------------------------------------------------- messages

  /** The message this step puts on its way to object o, addressed as the sender asked. */
  function SentTo(s: State, a: Action, o: nat): seq<Msg>
    requires Closed(s) && Enabled(s, a)
  {
    if a.Send? && s.table[a.dst] == Some(o) then
      [Msg(s.objs[s.running].aid, a.dst, a.msgtype, a.payload)]
    else []
  }

  /** Does this step return from sherry_msg_recv? */
  predicate Returns(s: State, a: Action)
    requires Closed(s) && Enabled(s, a)
  {
    a.Resume? || (a.Recv? && s.objs[s.running].mailbox != [])
  }

  /** What sherry_msg_recv returns; None stands for NULL. */
  function Returned(s: State, a: Action): Option<Msg>
    requires Closed(s) && Enabled(s, a) && Returns(s, a)
  {
    var box := s.objs[s.running].mailbox;
    if box == [] then None else Some(box[0])
  }

  function TakenBy(s: State, a: Action, o: nat): seq<Msg>
    requires Closed(s) && Enabled(s, a)
  {
    if s.running == o && Returns(s, a) && Returned(s, a).Some? then [Returned(s, a).value] else []
  }

  function Sent(s: State, run: seq<Action>, o: nat): seq<Msg>
    requires Legal(s, run)
    decreases |run|
  {
    if run == [] then [] else SentTo(s, run[0], o) + Sent(Step(s, run[0]), run[1..], o)
  }

  function Received(s: State, run: seq<Action>, o: nat): seq<Msg>
    requires Legal(s, run)
    decreases |run|
  {
    if run == [] then [] else TakenBy(s, run[0], o) + Received(Step(s, run[0]), run[1..], o)
  }

  function Mailbox(s: State, o: nat): seq<Msg> {
    if o < |s.objs| then s.objs[o].mailbox else []
  }

  lemma SpawnMailboxes(s: State, o: nat)
    requires Inv(s) && AtCall(s)
    ensures Mailbox(SpawnStep(s), o) == Mailbox(s, o)
  {
    SpawnActors(s, SpawnStep(s));
  }

  lemma SendMailboxes(s: State, a: Action, o: nat)
    requires Inv(s) && Enabled(s, a) && a.Send?
    ensures Mailbox(Step(s, a), o) == Mailbox(s, o) + SentTo(s, a, o)
  {
    var r := s.table[a.dst].value;
    assert s.objs[r].aid == a.dst;
    if o < |s.objs| && o != r {
      assert Step(s, a).objs[o] == s.objs[o];
    }
  }

  lemma RecvMailboxes(s: State, a: Action, o: nat)
    requires Inv(s) && Enabled(s, a) && (a.Recv? || a.Resume?)
    ensures TakenBy(s, a, o) + Mailbox(Step(s, a), o) == Mailbox(s, o)
  {
    if o < |s.objs| && o != s.running {
      assert Step(s, a).objs[o] == s.objs[o];
    }
  }

  lemma OtherMailboxes(s: State, a: Action, o: nat)
    requires Inv(s) && Enabled(s, a) && !(a.Send? || a.Recv? || a.Resume?)
    ensures Mailbox(Step(s, a), o) == Mailbox(s, o)
  {
    match a
    case Event(q) => UnblockWakesAll(s, q);
    case Spawn => SpawnMailboxes(s, o);
    case Dispatch => assert s.readyq[0] in s.readyq;
    case _ =>
  }

  /** One step: nothing is lost, duplicated or overtaken in any mailbox. */
  lemma StepConserves(s: State, a: Action, o: nat)
    requires Inv(s) && Enabled(s, a)
    ensures TakenBy(s, a, o) + Mailbox(Step(s, a), o) == Mailbox(s, o) + SentTo(s, a, o)
  {
    if a.Send? {
      SendMailboxes(s, a, o);
      assert TakenBy(s, a, o) == [];
    } else {
      assert SentTo(s, a, o) == [] && Mailbox(s, o) + [] == Mailbox(s, o);
      if a.Recv? || a.Resume? {
        RecvMailboxes(s, a, o);
      } else {
        OtherMailboxes(s, a, o);
        assert TakenBy(s, a, o) == [];
      }
    }
  }

  /**
   FIFO delivery and conservation, for each actor object over every run: what it has
   received, followed by what is still in its mailbox, is what was in the mailbox at
   first followed by everything sent to it, in the order of sending.
   */
  lemma {:induction false} FifoDelivery(s: State, run: seq<Action>, o: nat)
    requires Inv(s) && Legal(s, run)
    ensures Received(s, run, o) + Mailbox(Run(s, run), o) == Mailbox(s, o) + Sent(s, run, o)
    decreases |run|
  {
    if run != [] {
      var t := Step(s, run[0]);
      StepKeepsInv(s, run[0]);
      StepConserves(s, run[0], o);
      FifoDelivery(t, run[1..], o);
      Glue(Mailbox(s, o), Mailbox(t, o), Mailbox(Run(t, run[1..]), o), TakenBy(s, run[0], o),
           SentTo(s, run[0], o), Received(t, run[1..], o), Sent(t, run[1..], o));
    }
  }

  /** An object keeps its id for ever, and objects only come into being. */
  lemma StepKeepsAids(s: State, a: Action)
    requires Inv(s) && Enabled(s, a)
    ensures |s.objs| <= |Step(s, a).objs|
    ensures forall o :: 0 <= o < |s.objs| ==> Step(s, a).objs[o].aid == s.objs[o].aid
  {
    match a
    case Event(q) => UnblockWakesAll(s, q);
    case Spawn => SpawnActors(s, SpawnStep(s));
    case Yield =>
    case Send(_, _, _) =>
    case Recv =>
    case Resume =>
    case NewFd =>
    case Block(_) =>
    case Write =>
    case Finish =>
    case Dispatch => assert s.readyq[0] in s.readyq;
    case Poll =>
    case WriteDone(_) =>
    case LoopReturn =>
  }

  lemma {:induction false} RunKeepsAids(s: State, run: seq<Action>)
    requires Inv(s) && Legal(s, run)
    ensures |s.objs| <= |Run(s, run).objs|
    ensures forall o :: 0 <= o < |s.objs| ==> Run(s, run).objs[o].aid == s.objs[o].aid
    decreases |run|
  {
    if run != [] {
      StepKeepsInv(s, run[0]);
      StepKeepsAids(s, run[0]);
      RunKeepsAids(Step(s, run[0]), run[1..]);
    }
  }

  /**
   Every message sent to an object carries that object's id as its receiver, although the
   id may have belonged to other objects before and may be given away again later.
   */
  lemma {:induction false} SentIsAddressed(s: State, run: seq<Action>, o: nat, m: Msg)
    requires Inv(s) && Legal(s, run) && m in Sent(s, run, o)
    ensures o < |Run(s, run).objs| && m.recver == Run(s, run).objs[o].aid
    decreases |run|
  {
    if run != [] {
      var t := Step(s, run[0]);
      StepKeepsInv(s, run[0]);
      if m in SentTo(s, run[0], o) {
        assert s.objs[o].aid == run[0].dst;
        RunKeepsAids(s, run);
      } else {
        SentIsAddressed(t, run[1..], o, m);
      }
    }
  }

  /**
   No lost wake-up: in every reachable state a waiting actor has an empty mailbox, and an
   actor that goes on inside sherry_msg_recv is handed a message, although the source
   checks its mailbox only once.
   */
  lemma NoLostWakeup(s: State)
    requires Reachable(s)
    ensures Closed(s)
    ensures forall o :: 0 <= o < |s.objs| && s.objs[o].status == WaitMsg ==> s.objs[o].mailbox == []
    ensures Enabled(s, Resume) ==> Returned(s, Resume).Some?
  {
    ReachableInv(s);
    forall o | 0 <= o < |s.objs| && s.objs[o].status == WaitMsg
      ensures s.objs[o].mailbox == []
    {
      assert ActorOk(s, o);
    }
    assert ActorOk(s, s.running);
  }

  /** The table of actors and the ids agree in every reachable state, and ids of live actors differ. */
  lemma RegistryAgrees(s: State)
    requires Reachable(s)
    ensures forall i :: 0 <= i < |s.table| && s.table[i].Some? ==>
              s.table[i].value < |s.objs| && s.objs[s.table[i].value].aid == i
    ensures s.curractors == Occupied(s.table)
    ensures Registered(s, MAIN) && s.objs[MAIN].aid == 0
    ensures forall o: nat, p: nat :: Registered(s, o) && Registered(s, p) && s.objs[o].aid == s.objs[p].aid ==> o == p
  {
    ReachableInv(s);
  }

  // ---------------------------------------------------------------- dispatch order

  /** The actors this step addresses: the ones it must make ready, in order. */
  function Woken(s: State, a: Action): seq<nat>
    requires Closed(s) && Enabled(s, a)
  {
    match a
    case Spawn => [|s.objs|]
    case Yield => [s.running]
    case Send(dst, _, _) => if s.objs[s.table[dst].value].status == WaitMsg then [s.table[dst].value] else []
    case Event(q) => s.waitqs[q]
    case WriteDone(o) => [o]
    case _ => []
  }

  function DispatchedBy(s: State, a: Action): seq<nat>
    requires Closed(s) && Enabled(s, a)
  {
    if a.Dispatch? then [s.readyq[0]] else []
  }

  function Wakes(s: State, run: seq<Action>): seq<nat>
    requires Legal(s, run)
    decreases |run|
  {
    if run == [] then [] else Woken(s, run[0]) + Wakes(Step(s, run[0]), run[1..])
  }

  function Dispatched(s: State, run: seq<Action>): seq<nat>
    requires Legal(s, run)
    decreases |run|
  {
    if run == [] then [] else DispatchedBy(s, run[0]) + Dispatched(Step(s, run[0]), run[1..])
  }

  /** The woken actors were not ready, and are known to the scheduler. */
  lemma WokenWereNotReady(s: State, a: Action)
    requires Inv(s) && Enabled(s, a)
    ensures NoDup(Woken(s, a))
    ensures forall o :: o in Woken(s, a) ==> o !in s.readyq && (a.Spawn? || o < |s.objs|)
  {
    if a.Event? {
      WaitersAreAsleep(s, a.q);
    }
  }

  /** They are ready after the step. */
  lemma WokenAreReady(s: State, a: Action)
    requires Inv(s) && Enabled(s, a)
    ensures forall o :: o in Woken(s, a) ==> o < |Step(s, a).objs| && Step(s, a).objs[o].status == Ready
  {
    if a.Event? {
      WaitersAreAsleep(s, a.q);
      UnblockWakesAll(s, a.q);
    } else if a.Spawn? {
      SpawnActors(s, SpawnStep(s));
    }
  }

  lemma ReadyQueueStep(s: State, a: Action)
    requires Inv(s) && Enabled(s, a) && !a.Dispatch?
    ensures Step(s, a).readyq == s.readyq + Woken(s, a)
  {
    WokenWereNotReady(s, a);
    if a.Event? {
      UnblockWakesAll(s, a.q);
    } else if a.Spawn? {
      SpawnActors(s, SpawnStep(s));
    }
  }

  /** One step: the addressed actors, each exactly once, join the end of the ready queue. */
  lemma StepIsFifo(s: State, a: Action)
    requires Inv(s) && Enabled(s, a)
    ensures DispatchedBy(s, a) + Step(s, a).readyq == s.readyq + Woken(s, a)
    ensures NoDup(Woken(s, a))
    ensures forall o :: o in Woken(s, a) ==>
              o < |Step(s, a).objs| && Step(s, a).objs[o].status == Ready && o !in s.readyq
  {
    WokenWereNotReady(s, a);
    WokenAreReady(s, a);
    if !a.Dispatch? {
      ReadyQueueStep(s, a);
    }
  }

  /** The ready queue is first-in first-out over every run. */
  lemma {:induction false} ReadyQueueIsFifo(s: State, run: seq<Action>)
    requires Inv(s) && Legal(s, run)
    ensures Dispatched(s, run) + Run(s, run).readyq == s.readyq + Wakes(s, run)
    decreases |run|
  {
    if run != [] {
      var t := Step(s, run[0]);
      StepKeepsInv(s, run[0]);
      StepIsFifo(s, run[0]);
      ReadyQueueIsFifo(t, run[1..]);
      Glue(s.readyq, t.readyq, Run(t, run[1..]).readyq, DispatchedBy(s, run[0]),
           Woken(s, run[0]), Dispatched(t, run[1..]), Wakes(t, run[1..]));
    }
  }

  lemma PositionInEither(d: seq<nat>, q: seq<nat>, r: seq<nat>, w: seq<nat>, k: nat)
    requires d + q == r + w && k < |r|
    ensures if k < |d| then d[k] == r[k] else k - |d| < |q| && q[k - |d|] == r[k]
  {
    assert |d + q| == |r + w|;
    assert (d + q)[k] == (r + w)[k];
  }

  /**
   Bounded waiting: whatever the actors ahead of it do, the actor at position k of the
   ready queue is the (k+1)-th to be dispatched, and until then it only moves forward.
   */
  lemma BoundedWaiting(s: State, run: seq<Action>, k: nat)
    requires Inv(s) && Legal(s, run) && k < |s.readyq|
    ensures
      var d := Dispatched(s, run);
      var q := Run(s, run).readyq;
      if k < |d| then d[k] == s.readyq[k]
      else k - |d| < |q| && q[k - |d|] == s.readyq[k]
  {
    ReadyQueueIsFifo(s, run);
    PositionInEither(Dispatched(s, run), Run(s, run).readyq, s.readyq, Wakes(s, run), k);
  }

  lemma {:induction false} DispatchedSnoc(s: State, run: seq<Action>, a: Action)
    requires Legal(s, run) && Closed(Run(s, run)) && Enabled(Run(s, run), a)
    ensures Legal(s, run + [a])
    ensures Dispatched(s, run + [a]) == Dispatched(s, run) + DispatchedBy(Run(s, run), a)
    decreases |run|
  {
    RunSnoc(s, run, a);
    if run == [] {
      assert run + [a] == [a];
      assert Legal(Step(s, a), [a][1..]) && Dispatched(Step(s, a), [a][1..]) == [];
    } else {
      DispatchedSnoc(Step(s, run[0]), run[1..], a);
      assert (run + [a])[1..] == run[1..] + [a];
    }
  }

  // ---------------------------------------------------------------- finished actors

  /** A finished actor is neither dispatched, nor does it send or receive. */
  lemma FinishedIsIdle(s: State, a: Action, o: nat)
    requires Inv(s) && Enabled(s, a) && o < |s.objs| && !Registered(s, o)
    ensures o !in DispatchedBy(s, a) && SentTo(s, a, o) == [] && TakenBy(s, a, o) == []
  {
    assert ActorOk(s, o);
    if a.Dispatch? {
      assert s.readyq[0] in s.readyq;
    }
  }

  lemma StepKeepsFinished(s: State, a: Action, o: nat)
    requires Inv(s) && Enabled(s, a) && o < |s.objs| && !Registered(s, o)
    ensures o < |Step(s, a).objs| && !Registered(Step(s, a), o)
  {
    StepKeepsAids(s, a);
    if a.Spawn? {
      SpawnActors(s, SpawnStep(s));
    } else if a.Event? {
      UnblockWakesAll(s, a.q);
    } else if a.Dispatch? {
      assert s.readyq[0] in s.readyq;
    }
  }

  /** A finished actor is in no queue, never runs again and never gets another message. */
  lemma {:induction false} FinishedForever(s: State, run: seq<Action>, o: nat)
    requires Inv(s) && Legal(s, run) && o < |s.objs| && !Registered(s, o)
    ensures
      var t := Run(s, run);
      && Closed(t)
      && o < |t.objs| && !Registered(t, o)
      && o !in t.readyq && o !in t.waitingmsg && o !in t.writes && !OnWaitq(t, o)
      && (t.control == InActor ==> t.running != o)
    ensures o !in Dispatched(s, run) && Sent(s, run, o) == [] && Received(s, run, o) == []
    decreases |run|
  {
    assert ActorOk(s, o);
    if run != [] {
      StepKeepsInv(s, run[0]);
      FinishedIsIdle(s, run[0], o);
      StepKeepsFinished(s, run[0], o);
      FinishedForever(Step(s, run[0]), run[1..], o);
    }
  }

  // ---------------------------------------------------------------- placement and quiescence

  function Count(s: seq<nat>, o: nat): (n: nat) {
    if s == [] then 0 else (if s[0] == o then 1 else 0) + Count(s[1..], o)
  }

  function CountAll(qs: seq<seq<nat>>, o: nat): (n: nat) {
    if qs == [] then 0 else Count(qs[0], o) + CountAll(qs[1..], o)
  }

  lemma {:induction false} CountOnce(s: seq<nat>, o: nat)
    requires NoDup(s)
    ensures Count(s, o) == if o in s then 1 else 0
  {
    if s != [] {
      CountOnce(s[1..], o);
    }
  }

  lemma {:induction false} CountAllOnce(qs: seq<seq<nat>>, o: nat)
    requires forall q :: 0 <= q < |qs| ==> NoDup(qs[q])
    requires forall p, q :: 0 <= p < |qs| && 0 <= q < |qs| && o in qs[p] && o in qs[q] ==> p == q
    ensures CountAll(qs, o) == if exists q :: 0 <= q < |qs| && o in qs[q] then 1 else 0
  {
    if qs != [] {
      CountOnce(qs[0], o);
      CountAllOnce(qs[1..], o);
      if o in qs[0] {
        assert forall q :: 0 <= q < |qs[1..]| ==> qs[1..][q] == qs[q + 1];
      } else if q :| 0 <= q < |qs| && o in qs[q] {
        assert o in qs[1..][q - 1];
      }
    }
  }

  /** The number of queue positions and pending writes that hold o. */
  function Places(s: State, o: nat): nat {
    Count(s.readyq, o) + Count(s.waitingmsg, o) + CountAll(s.waitqs, o) + (if o in s.writes then 1 else 0)
  }

  /**
   In every reachable state each live actor is in exactly one place, the one its status
   names, and the running actor, like the finished ones, is in none.
   */
  lemma PlacedByStatus(s: State, o: nat)
    requires Reachable(s) && o < |s.objs|
    ensures
      var v := s.objs[o];
      && Places(s, o) == (if v.status == Running then 0 else 1)
      && (v.status == Ready ==> Count(s.readyq, o) == 1)
      && (v.status == WaitMsg ==> Count(s.waitingmsg, o) == 1)
      && (v.status == WaitEv ==> CountAll(s.waitqs, o) + (if o in s.writes then 1 else 0) == 1)
      && (v.status == Running && Registered(s, o) ==> s.control == InActor && s.running == o)
      && (!Registered(s, o) ==> v.status == Running)
      && v.status in {Ready, Running, WaitMsg, WaitEv}
  {
    ReachableInv(s);
    assert ActorOk(s, o);
    CountOnce(s.readyq, o);
    CountOnce(s.waitingmsg, o);
    CountAllOnce(s.waitqs, o);
  }

  /**
   Quiescence: when the loop in schdule polls libuv, every live actor waits for a message
   it does not have or for an event.
   */
  lemma Quiescence(s: State, o: nat)
    requires Reachable(s) && Closed(s) && Enabled(s, Poll) && Registered(s, o)
    ensures (s.objs[o].status == WaitMsg && s.objs[o].mailbox == []) || s.objs[o].status == WaitEv
  {
    ReachableInv(s);
    assert ActorOk(s, o);
  }

  // ---------------------------------------------------------------- who can go on

  /**
   A running actor can make every call, with any arguments the table and the descriptors
   have, itself included; inside a receive it can only go on there.
   */
  lemma EveryCallIsPossible(s: State, o: nat, msgtype: int, payload: int, q: nat)
    requires Reachable(s) && s.control == InActor
    ensures Closed(s) && s.running < |s.objs|
    ensures s.objs[s.running].inRecv ==> forall a :: Enabled(s, a) <==> a == Resume
    ensures !s.objs[s.running].inRecv ==>
              && Enabled(s, Spawn) && Enabled(s, Yield) && Enabled(s, Recv) && Enabled(s, NewFd) && Enabled(s, Write)
              && (Registered(s, o) ==> Enabled(s, Send(s.objs[o].aid, msgtype, payload)))
              && (Enabled(s, Block(q)) <==> q < |s.waitqs|) && (Enabled(s, Finish) <==> s.running != 0)
  {
    hide TableOk, QueuesOk, ActorOk;
    ReachableInv(s);
  }

  /** No reachable state is stuck: the scheduler dispatches or polls, and every poll can return. */
  lemma NeverStuck(s: State)
    requires Reachable(s)
    ensures Closed(s)
    ensures s.control == InScheduler ==> Enabled(s, if s.readyq == [] then Poll else Dispatch)
    ensures s.control == InScheduler ==> forall a :: Enabled(s, a) ==> a == if s.readyq == [] then Poll else Dispatch
    ensures s.control == InLoop ==> Enabled(s, LoopReturn) && forall o :: o in s.writes ==> Enabled(s, WriteDone(o))
    ensures s.control == InLoop ==> forall fd :: 0 <= fd && 2 * fd < |s.waitqs| ==> Enabled(s, Event(2 * fd))
  {
    hide TableOk, QueuesOk, ActorOk, Registered, InRange;
    ReachableInv(s);
  }
}
