/**
 What ends a wait, over every run: an actor blocked on a descriptor sleeps until the event
 of the queue it named, a writer until its own write is done, a receiver until a message is
 sent to it. The statements speak of the actions of the run and of statuses only.
 */
module ActorWaits {
  import opened Options
  import opened ActorModel
  import opened ActorInvariant
  import opened ActorRuns

  /** o waits for an event, and is neither made ready nor dispatched in the run from s to t. */
  ghost predicate SleptThrough(s: State, run: seq<Action>, o: nat, status: Status)
    requires Legal(s, run)
  {
    var t := Run(s, run);
    && o !in Wakes(s, run) && o !in Dispatched(s, run)
    && o < |t.objs| && t.objs[o].status == status
  }

  /** The next step makes o ready, behind those that were ready before. */
  ghost predicate WakesNext(s: State, a: Action, o: nat)
    requires Closed(s) && Enabled(s, a)
  {
    var t := Step(s, a);
    && o !in s.readyq && o in t.readyq && s.readyq <= t.readyq
    && o < |t.objs| && t.objs[o].status == Ready
  }

  lemma WokenAreQueued(s: State, a: Action, o: nat)
    requires Inv(s) && Enabled(s, a) && o in Woken(s, a)
    ensures WakesNext(s, a, o)
  {
    StepIsFifo(s, a);
    assert !a.Dispatch?;
    assert Step(s, a).readyq == s.readyq + Woken(s, a);
  }

  // ---------------------------------------------------------------- a descriptor

  lemma StaysOnQueue(s: State, a: Action, q: nat, o: nat)
    requires Inv(s) && Enabled(s, a) && a != Event(q) && q < |s.waitqs| && o in s.waitqs[q]
    ensures q < |Step(s, a).waitqs| && o in Step(s, a).waitqs[q]
    ensures o !in Woken(s, a) && o !in DispatchedBy(s, a)
  {
    assert OnWaitq(s, o) && s.objs[o].status == WaitEv;
    if a.Event? {
      UnblockWakesAll(s, a.q);
    } else if a.Dispatch? {
      assert s.readyq[0] in s.readyq;
    }
  }

  lemma QueuedIsAsleep(s: State, q: nat, o: nat)
    requires Inv(s) && q < |s.waitqs| && o in s.waitqs[q]
    ensures o < |s.objs| && s.objs[o].status == WaitEv && o !in s.readyq
  {
    assert OnWaitq(s, o);
  }

  lemma {:induction false} QueuedSleeps(s: State, run: seq<Action>, q: nat, o: nat)
    requires Inv(s) && q < |s.waitqs| && o in s.waitqs[q]
    requires Legal(s, run) && Event(q) !in run
    ensures Inv(Run(s, run)) && q < |Run(s, run).waitqs| && o in Run(s, run).waitqs[q]
    ensures SleptThrough(s, run, o, WaitEv)
    decreases |run|
  {
    QueuedIsAsleep(s, q, o);
    if run != [] {
      StepKeepsInv(s, run[0]);
      StaysOnQueue(s, run[0], q, o);
      QueuedSleeps(Step(s, run[0]), run[1..], q, o);
    }
  }

  /**
   block_fd: the actor that blocks on queue q sleeps through every run without the event of
   that queue, whatever other descriptors report, and is made ready by that event.
   */
  lemma BlockedUntilItsEvent(s: State, q: nat, run: seq<Action>)
    requires Inv(s) && AtCall(s) && q < |s.waitqs|
    requires Legal(Step(s, Block(q)), run) && Event(q) !in run
    ensures SleptThrough(Step(s, Block(q)), run, s.running, WaitEv)
    ensures
      var t := Run(Step(s, Block(q)), run);
      && Closed(t)
      && (t.control == InLoop && q % 2 == 0 ==> Enabled(t, Event(q)) && WakesNext(t, Event(q), s.running))
  {
    var s1, o := Step(s, Block(q)), s.running;
    BlockKeepsInv(s, q);
    assert s1.waitqs[q] == s.waitqs[q] + [o];
    QueuedSleeps(s1, run, q, o);
    var t := Run(s1, run);
    if t.control == InLoop && q % 2 == 0 {
      WokenAreQueued(t, Event(q), o);
    }
  }

  lemma {:induction false} OnlyReadEvents(s: State, run: seq<Action>, q: nat)
    requires Legal(s, run) && q % 2 == 1
    ensures Event(q) !in run
    decreases |run|
  {
    if run != [] {
      OnlyReadEvents(Step(s, run[0]), run[1..], q);
      assert run == [run[0]] + run[1..];
    }
  }

  /** No callback looks at the queue for writing: who blocks there sleeps through every run. */
  lemma WriteQueueNeverWakes(s: State, fd: nat, run: seq<Action>)
    requires Inv(s) && AtCall(s) && 2 * fd + 1 < |s.waitqs| && Legal(Step(s, Block(2 * fd + 1)), run)
    ensures SleptThrough(Step(s, Block(2 * fd + 1)), run, s.running, WaitEv)
  {
    OnlyReadEvents(Step(s, Block(2 * fd + 1)), run, 2 * fd + 1);
    BlockedUntilItsEvent(s, 2 * fd + 1, run);
  }

  // ---------------------------------------------------------------- a write

  lemma StaysWriting(s: State, a: Action, o: nat)
    requires Inv(s) && Enabled(s, a) && a != WriteDone(o) && o in s.writes
    ensures o in Step(s, a).writes && o !in Woken(s, a) && o !in DispatchedBy(s, a)
  {
    assert s.objs[o].status == WaitEv;
    if a.Event? {
      UnblockWakesAll(s, a.q);
    } else if a.Dispatch? {
      assert s.readyq[0] in s.readyq;
    }
  }

  lemma {:induction false} WriterSleeps(s: State, run: seq<Action>, o: nat)
    requires Inv(s) && o in s.writes && Legal(s, run) && WriteDone(o) !in run
    ensures Inv(Run(s, run)) && o in Run(s, run).writes && SleptThrough(s, run, o, WaitEv)
    decreases |run|
  {
    if run != [] {
      StepKeepsInv(s, run[0]);
      StaysWriting(s, run[0], o);
      WriterSleeps(Step(s, run[0]), run[1..], o);
    }
  }

  /** The blocking part of sherry_write: the writer sleeps until its own write is done. */
  lemma WriterUntilItsWrite(s: State, run: seq<Action>)
    requires Inv(s) && AtCall(s)
    requires Legal(Step(s, Write), run) && WriteDone(s.running) !in run
    ensures SleptThrough(Step(s, Write), run, s.running, WaitEv)
    ensures
      var t := Run(Step(s, Write), run);
      && Closed(t)
      && (t.control == InLoop ==> Enabled(t, WriteDone(s.running)) && WakesNext(t, WriteDone(s.running), s.running))
  {
    var s1, o := Step(s, Write), s.running;
    WriteKeepsInv(s);
    WriterSleeps(s1, run, o);
    var t := Run(s1, run);
    if t.control == InLoop {
      WokenAreQueued(t, WriteDone(o), o);
    }
  }

  // ---------------------------------------------------------------- a message

  /** No message is sent to o in the run. */
  predicate NothingSent(s: State, run: seq<Action>, o: nat)
    requires Legal(s, run)
  {
    Sent(s, run, o) == []
  }

  lemma CallLeavesReceiver(s: State, a: Action, o: nat)
    requires Inv(s) && Enabled(s, a) && o < |s.objs| && s.objs[o].status == WaitMsg && SentTo(s, a, o) == []
    requires !a.Event? && !a.Dispatch? && !a.Spawn?
    ensures o < |Step(s, a).objs| && Step(s, a).objs[o].status == WaitMsg && o !in Woken(s, a)
  {
    hide Without, Occupied, FirstFree;
    assert ActorOk(s, o);
  }

  lemma StaysReceiving(s: State, a: Action, o: nat)
    requires Inv(s) && Enabled(s, a) && o < |s.objs| && s.objs[o].status == WaitMsg && SentTo(s, a, o) == []
    ensures o < |Step(s, a).objs| && Step(s, a).objs[o].status == WaitMsg
    ensures o !in Woken(s, a) && o !in DispatchedBy(s, a)
  {
    hide Without, Occupied, FirstFree;
    assert ActorOk(s, o);
    if a.Event? {
      WaitersAreAsleep(s, a.q);
      UnblockWakesAll(s, a.q);
    } else if a.Dispatch? {
      assert s.readyq[0] in s.readyq;
    } else if a.Spawn? {
      SpawnActors(s, SpawnStep(s));
      assert Step(s, a).objs[o] == Step(s, a).objs[..|s.objs|][o];
    } else {
      CallLeavesReceiver(s, a, o);
    }
  }

  lemma {:induction false} ReceiverSleeps(s: State, run: seq<Action>, o: nat)
    requires Inv(s) && o < |s.objs| && s.objs[o].status == WaitMsg && Legal(s, run) && NothingSent(s, run, o)
    ensures Inv(Run(s, run)) && SleptThrough(s, run, o, WaitMsg)
    decreases |run|
  {
    if run != [] {
      StepKeepsInv(s, run[0]);
      StaysReceiving(s, run[0], o);
      ReceiverSleeps(Step(s, run[0]), run[1..], o);
    }
  }

  /**
   sherry_msg_recv on an empty mailbox: the receiver sleeps until a message is sent to it,
   and the first such message makes it ready.
   */
  lemma ReceiverUntilItsMessage(s: State, run: seq<Action>, a: Action)
    requires Inv(s) && AtCall(s) && s.objs[s.running].mailbox == []
    requires Legal(Step(s, Recv), run) && NothingSent(Step(s, Recv), run, s.running)
    ensures SleptThrough(Step(s, Recv), run, s.running, WaitMsg)
    ensures
      var t := Run(Step(s, Recv), run);
      && Closed(t)
      && (Enabled(t, a) && SentTo(t, a, s.running) != [] ==> WakesNext(t, a, s.running))
  {
    var s1, o := Step(s, Recv), s.running;
    RecvKeepsInv(s);
    ReceiverSleeps(s1, run, o);
    var t := Run(s1, run);
    if Enabled(t, a) && SentTo(t, a, o) != [] {
      WokenAreQueued(t, a, o);
    }
  }
}
