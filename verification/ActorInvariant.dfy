/**
 What every reachable state of the scheduler keeps: each actor sits exactly where its
 status says, the table and the ids agree, and an actor waiting for a message has none.
 */
module ActorInvariant {
  import opened Options
  import opened ActorModel

  /** o is on some descriptor's wait queue. */
  predicate OnWaitq(s: State, o: nat) {
    exists q :: 0 <= q < |s.waitqs| && o in s.waitqs[q]
  }

  predicate QueuesOk(s: State) {
    && NoDup(s.readyq) && NoDup(s.waitingmsg)
    && (forall q :: 0 <= q < |s.waitqs| ==> NoDup(s.waitqs[q]))
    && (forall o :: 0 <= o < |s.objs| ==> (s.objs[o].status == Ready <==> o in s.readyq))
    && (forall o :: 0 <= o < |s.objs| ==> (s.objs[o].status == WaitMsg <==> o in s.waitingmsg))
    && (forall o :: 0 <= o < |s.objs| ==> (s.objs[o].status == WaitEv <==> o in s.writes || OnWaitq(s, o)))
    && (forall o, q :: 0 <= q < |s.waitqs| && o in s.waitqs[q] ==> o !in s.writes)
    && (forall o, p, q :: 0 <= p < |s.waitqs| && 0 <= q < |s.waitqs| && o in s.waitqs[p] && o in s.waitqs[q] ==> p == q)
    && |s.waitqs| % 2 == 0
  }

  predicate ActorOk(s: State, o: nat)
    requires o < |s.objs|
  {
    var v := s.objs[o];
    && v.status in {Ready, Running, WaitMsg, WaitEv}
    && (v.status == Running && Registered(s, o) ==> s.control == InActor && o == s.running)
    && (!Registered(s, o) ==> v.status == Running && !v.inRecv)
    && (v.status == WaitMsg ==> v.inRecv && v.mailbox == [])
    && (v.status != WaitMsg && v.inRecv ==> v.mailbox != [] && v.status != WaitEv)
    && (forall m :: m in v.mailbox ==> m.recver == v.aid)
  }

  function Occupied(t: seq<Option<nat>>): (n: nat) {
    if t == [] then 0 else (if t[0].Some? then 1 else 0) + Occupied(t[1..])
  }

  predicate TableOk(s: State)
    requires Closed(s)
  {
    && (forall i :: 0 <= i < |s.table| && s.table[i].Some? ==> s.objs[s.table[i].value].aid == i)
    && (forall o :: 0 <= o < |s.objs| ==> 0 <= s.objs[o].aid < |s.table|)
    && s.curractors == Occupied(s.table)
  }

  predicate Inv(s: State) {
    && Closed(s)
    && TableOk(s)
    && QueuesOk(s)
    && (forall o :: 0 <= o < |s.objs| ==> ActorOk(s, o))
    && (s.control == InActor ==> s.objs[s.running].status == Running && Registered(s, s.running))
    && Registered(s, MAIN) && s.objs[MAIN].aid == MAIN
  }

  // ---------------------------------------------------------------- the table

  lemma {:induction false} OccupiedUpdate(t: seq<Option<nat>>, k: nat, v: Option<nat>)
    requires k < |t|
    ensures Occupied(t[k := v]) == Occupied(t) + (if v.Some? then 1 else 0) - (if t[k].Some? then 1 else 0)
  {
    if k > 0 {
      OccupiedUpdate(t[1..], k - 1, v);
      assert t[k := v][1..] == t[1..][k - 1 := v];
    } else {
      assert t[k := v][1..] == t[1..];
    }
  }

  lemma {:induction false} OccupiedNones(t: seq<Option<nat>>, n: nat)
    ensures Occupied(t + Nones(n)) == Occupied(t)
    decreases |t| + n
  {
    if t != [] {
      OccupiedNones(t[1..], n);
      assert (t + Nones(n))[1..] == t[1..] + Nones(n);
    } else if n > 0 {
      OccupiedNones([], n - 1);
      assert (t + Nones(n))[1..] == [] + Nones(n - 1);
    }
  }

  lemma {:induction false} OccupiedPositive(t: seq<Option<nat>>, k: nat)
    requires k < |t| && t[k].Some?
    ensures Occupied(t) >= 1
    ensures Occupied(t) == 1 ==> forall i :: 0 <= i < |t| && i != k ==> t[i].None?
  {
    OccupiedUpdate(t, k, None);
    forall i | 0 <= i < |t| && i != k && t[i].Some?
      ensures Occupied(t) >= 2
    {
      var u := t[k := None];
      OccupiedUpdate(u, i, None);
      assert u[i].Some?;
    }
  }

  /**
   reg_actor: the new actor gets the least free id, every other slot is as before, and
   growing the table loses nothing.
   */
  lemma RegisterOk(s: State, o: nat)
    requires Closed(s) && s.curractors == Occupied(s.table) && o < |s.objs|
    ensures
      var t := Register(s, o);
      var id := t.objs[o].aid;
      && Closed(t) && t.curractors == Occupied(t.table)
      && 0 <= id < |t.table| && t.table[id] == Some(o)
      && (forall i :: 0 <= i < id ==> i < |s.table| && s.table[i].Some?)
      && (id < |s.table| ==> s.table[id].None? && |t.table| == |s.table|)
      && (id >= |s.table| ==> id == |s.table| && |t.table| == 2 * |s.table|)
      && (forall i :: 0 <= i < |t.table| && i != id ==> t.table[i] == if i < |s.table| then s.table[i] else None)
  {
    var g := Grown(s.table);
    OccupiedNones(s.table, |s.table|);
    OccupiedUpdate(g, FirstFree(s.table), Some(o));
  }

  // ---------------------------------------------------------------- one step

  lemma SpawnQueues(s: State, t: State)
    requires Inv(s)
    requires |t.objs| == |s.objs| + 1 && t.objs[..|s.objs|] == s.objs && t.objs[|s.objs|].status == Ready
    requires t.readyq == s.readyq + [|s.objs|] && t.waitingmsg == s.waitingmsg
    requires t.waitqs == s.waitqs && t.writes == s.writes
    ensures QueuesOk(t)
  {
    var o := |s.objs|;
    assert o !in s.readyq && o !in s.waitingmsg && o !in s.writes && !OnWaitq(s, o);
    assert forall i :: 0 <= i < o ==> t.objs[i] == s.objs[i];
    assert forall i :: 0 <= i <= o ==> OnWaitq(t, i) == OnWaitq(s, i);
  }

  lemma SpawnActors(s: State, t: State)
    requires Inv(s) && AtCall(s)
    requires t == SpawnStep(s)
    ensures Closed(t) && TableOk(t)
    ensures |t.objs| == |s.objs| + 1 && t.objs[..|s.objs|] == s.objs && t.objs[|s.objs|].status == Ready
    ensures t.readyq == s.readyq + [|s.objs|]
    ensures forall i :: 0 <= i < |s.objs| ==> Registered(t, i) == Registered(s, i)
    ensures ActorOk(t, |s.objs|)
  {
    var o := |s.objs|;
    var s0 := s.(objs := s.objs + [View(-1, Fresh, [], false)]);
    assert Closed(s0);
    RegisterOk(s0, o);
    assert t == SetReady(Register(s0, o), o);
    assert forall i :: 0 <= i < o ==> t.objs[i] == s.objs[i];
  }

  lemma SpawnKeepsInv(s: State)
    requires Inv(s) && AtCall(s)
    ensures Inv(SpawnStep(s))
  {
    var t := SpawnStep(s);
    SpawnActors(s, t);
    SpawnQueues(s, t);
    forall i | 0 <= i < |s.objs|
      ensures ActorOk(t, i)
    {
      assert t.objs[i] == t.objs[..|s.objs|][i];
      assert ActorOk(s, i);
    }
  }

  /** Steps that touch the record of one actor o only, keep its id and leave the table alone. */
  predicate SameElsewhere(s: State, t: State, o: nat) {
    && |t.objs| == |s.objs| && t.table == s.table && t.curractors == s.curractors
    && (forall i :: 0 <= i < |s.objs| ==> t.objs[i].aid == s.objs[i].aid)
    && (forall i :: 0 <= i < |s.objs| && i != o ==> t.objs[i] == s.objs[i])
  }

  /** Steps that change no status and no queue. */
  lemma SameQueues(s: State, t: State)
    requires QueuesOk(s) && |t.objs| == |s.objs|
    requires forall i :: 0 <= i < |s.objs| ==> t.objs[i].status == s.objs[i].status
    requires t.readyq == s.readyq && t.waitingmsg == s.waitingmsg && t.waitqs == s.waitqs && t.writes == s.writes
    ensures QueuesOk(t)
  {
    assert forall i :: 0 <= i < |s.objs| ==> OnWaitq(t, i) == OnWaitq(s, i);
  }

  lemma YieldKeepsInv(s: State)
    requires Inv(s) && AtCall(s)
    ensures Inv(Step(s, Yield))
  {
    var t := Step(s, Yield);
    assert SameElsewhere(s, t, s.running);
    assert forall i :: 0 <= i < |s.objs| ==> OnWaitq(t, i) == OnWaitq(s, i);
    forall i | 0 <= i < |s.objs| ensures ActorOk(t, i) { assert ActorOk(s, i); }
  }

  /** Moving a waiting actor to the ready queue. */
  lemma WakeQueues(s: State, t: State, r: nat)
    requires Closed(s) && QueuesOk(s) && r < |s.objs| && s.objs[r].status == WaitMsg
    requires |t.objs| == |s.objs| && t.objs[r].status == Ready
    requires forall i :: 0 <= i < |s.objs| && i != r ==> t.objs[i] == s.objs[i]
    requires t.readyq == s.readyq + [r] && t.waitingmsg == Without(s.waitingmsg, r)
    requires t.waitqs == s.waitqs && t.writes == s.writes
    ensures QueuesOk(t)
  {
    assert forall i :: 0 <= i < |s.objs| ==> OnWaitq(t, i) == OnWaitq(s, i);
    assert r !in s.readyq;
  }

  lemma SendActors(s: State, t: State, r: nat, m: Msg)
    requires Inv(s) && s.control == InActor && Registered(s, r) && m.recver == s.objs[r].aid
    requires SameElsewhere(s, t, r) && t.running == s.running && t.control == s.control
    requires t.objs[r].mailbox == s.objs[r].mailbox + [m] && t.objs[r].inRecv == s.objs[r].inRecv
    requires t.objs[r].status == if s.objs[r].status == WaitMsg then Ready else s.objs[r].status
    ensures forall i :: 0 <= i < |s.objs| ==> ActorOk(t, i)
  {
    forall i | 0 <= i < |s.objs|
      ensures ActorOk(t, i)
    {
      assert ActorOk(s, i);
      assert Registered(t, i) == Registered(s, i);
    }
  }

  lemma SendKeepsInv(s: State, dst: int, msgtype: int, payload: int)
    requires Inv(s) && Enabled(s, Send(dst, msgtype, payload))
    ensures Inv(SendStep(s, dst, msgtype, payload))
  {
    var t := SendStep(s, dst, msgtype, payload);
    var r := s.table[dst].value;
    assert ActorOk(s, r);
    assert SameElsewhere(s, t, r);
    SendActors(s, t, r, Msg(s.objs[s.running].aid, s.objs[r].aid, msgtype, payload));
    if s.objs[r].status == WaitMsg {
      WakeQueues(s, t, r);
    } else {
      SameQueues(s, t);
    }
  }

  lemma TakeKeepsInv(s: State)
    requires Inv(s) && s.control == InActor
    ensures Inv(TakeStep(s))
  {
    var t := TakeStep(s);
    assert SameElsewhere(s, t, s.running);
    SameQueues(s, t);
    forall i | 0 <= i < |s.objs| ensures ActorOk(t, i) { assert ActorOk(s, i); }
  }

  lemma RecvKeepsInv(s: State)
    requires Inv(s) && AtCall(s)
    ensures Inv(RecvStep(s))
  {
    var t := RecvStep(s);
    if s.objs[s.running].mailbox != [] {
      TakeKeepsInv(s);
    } else {
      assert SameElsewhere(s, t, s.running);
      assert forall i :: 0 <= i < |s.objs| ==> OnWaitq(t, i) == OnWaitq(s, i);
      forall i | 0 <= i < |s.objs| ensures ActorOk(t, i) { assert ActorOk(s, i); }
    }
  }

  lemma NewFdKeepsInv(s: State)
    requires Inv(s) && AtCall(s)
    ensures Inv(Step(s, NewFd))
  {
    var t := Step(s, NewFd);
    forall i | 0 <= i < |s.objs|
      ensures OnWaitq(t, i) == OnWaitq(s, i)
    {
      if OnWaitq(s, i) {
        var q :| 0 <= q < |s.waitqs| && i in s.waitqs[q];
        assert i in t.waitqs[q];
      }
    }
    forall i | 0 <= i < |s.objs| ensures ActorOk(t, i) { assert ActorOk(s, i); }
  }

  /** A running actor goes to the end of wait queue q. */
  lemma BlockQueues(s: State, t: State, q: nat, o: nat)
    requires QueuesOk(s) && q < |s.waitqs| && o < |s.objs| && s.objs[o].status == Running
    requires |t.objs| == |s.objs| && t.objs[o].status == WaitEv
    requires forall i :: 0 <= i < |s.objs| && i != o ==> t.objs[i] == s.objs[i]
    requires t.readyq == s.readyq && t.waitingmsg == s.waitingmsg && t.writes == s.writes
    requires t.waitqs == s.waitqs[q := s.waitqs[q] + [o]]
    ensures QueuesOk(t)
  {
    assert o !in s.writes && !OnWaitq(s, o);
    assert o in t.waitqs[q];
    forall i | 0 <= i < |s.objs| && i != o
      ensures OnWaitq(t, i) == OnWaitq(s, i)
    {
      if OnWaitq(s, i) {
        var p :| 0 <= p < |s.waitqs| && i in s.waitqs[p];
        assert i in t.waitqs[p];
      }
    }
  }

  lemma BlockKeepsInv(s: State, q: nat)
    requires Inv(s) && AtCall(s) && q < |s.waitqs|
    ensures Inv(BlockStep(s, q))
  {
    var t := BlockStep(s, q);
    assert SameElsewhere(s, t, s.running);
    BlockQueues(s, t, q, s.running);
    forall i | 0 <= i < |s.objs| ensures ActorOk(t, i) { assert ActorOk(s, i); }
  }

  lemma WriteKeepsInv(s: State)
    requires Inv(s) && AtCall(s)
    ensures Inv(Step(s, Write))
  {
    var t := Step(s, Write);
    assert SameElsewhere(s, t, s.running);
    assert forall i :: 0 <= i < |s.objs| ==> OnWaitq(t, i) == OnWaitq(s, i);
    assert !OnWaitq(s, s.running);
    forall i | 0 <= i < |s.objs| ensures ActorOk(t, i) { assert ActorOk(s, i); }
  }

  lemma FinishKeepsInv(s: State)
    requires Inv(s) && Enabled(s, Finish)
    ensures Inv(Step(s, Finish))
    ensures !Registered(Step(s, Finish), s.running)
  {
    var t := Step(s, Finish);
    var o := s.running;
    OccupiedUpdate(s.table, s.objs[o].aid, None);
    assert ActorOk(s, o);
    assert forall i :: 0 <= i < |s.objs| && i != o ==> Registered(t, i) == Registered(s, i);
    assert forall i :: 0 <= i < |s.objs| ==> OnWaitq(t, i) == OnWaitq(s, i);
    forall i | 0 <= i < |s.objs| ensures ActorOk(t, i) { assert ActorOk(s, i); }
  }

  lemma DispatchKeepsInv(s: State)
    requires Inv(s) && Enabled(s, Dispatch)
    ensures Inv(DispatchStep(s))
  {
    var t := DispatchStep(s);
    var o := s.readyq[0];
    assert o in s.readyq;
    assert ActorOk(s, o);
    assert SameElsewhere(s, t, o);
    assert forall i :: i in s.readyq <==> i == o || i in t.readyq;
    assert forall i :: 0 <= i < |s.objs| ==> OnWaitq(t, i) == OnWaitq(s, i);
    forall i | 0 <= i < |s.objs| ensures ActorOk(t, i) { assert ActorOk(s, i); }
  }

  lemma WriteDoneKeepsInv(s: State, o: nat)
    requires Inv(s) && Enabled(s, WriteDone(o))
    ensures Inv(Step(s, WriteDone(o)))
  {
    var t := Step(s, WriteDone(o));
    assert SameElsewhere(s, t, o);
    assert forall i :: 0 <= i < |s.objs| ==> OnWaitq(t, i) == OnWaitq(s, i);
    forall i | 0 <= i < |s.objs| ensures ActorOk(t, i) { assert ActorOk(s, i); }
  }

  /** The actor at the head of wait queue q goes to the end of the ready queue. */
  lemma UnblockQueues(s: State, t: State, q: nat, o: nat)
    requires QueuesOk(s) && q < |s.waitqs| && s.waitqs[q] != [] && o == s.waitqs[q][0] < |s.objs|
    requires |t.objs| == |s.objs| && t.objs[o].status == Ready
    requires forall i :: 0 <= i < |s.objs| && i != o ==> t.objs[i] == s.objs[i]
    requires t.readyq == s.readyq + [o] && t.waitingmsg == s.waitingmsg && t.writes == s.writes
    requires t.waitqs == s.waitqs[q := s.waitqs[q][1..]]
    ensures QueuesOk(t)
  {
    assert o in s.waitqs[q] && OnWaitq(s, o);
    assert s.waitqs[q] == [o] + t.waitqs[q];
    assert forall p, i :: 0 <= p < |t.waitqs| && i in t.waitqs[p] ==> i in s.waitqs[p] && i != o;
    forall i | 0 <= i < |s.objs|
      ensures OnWaitq(t, i) <==> OnWaitq(s, i) && i != o
    {
      if OnWaitq(s, i) && i != o {
        var p :| 0 <= p < |s.waitqs| && i in s.waitqs[p];
        assert i in t.waitqs[p];
      }
    }
  }

  lemma UnblockOneKeepsInv(s: State, q: nat)
    requires Inv(s) && s.control == InLoop && q < |s.waitqs| && s.waitqs[q] != []
    ensures Inv(UnblockHead(s, q))
  {
    var o := s.waitqs[q][0];
    assert o in s.waitqs[q] && OnWaitq(s, o) && ActorOk(s, o);
    var t := UnblockHead(s, q);
    assert SameElsewhere(s, t, o);
    UnblockQueues(s, t, q, o);
    assert forall x :: x in t.waitqs[q] ==> x in s.waitqs[q];
    forall i | 0 <= i < |s.objs| ensures ActorOk(t, i) { assert ActorOk(s, i); }
  }

  lemma {:induction false} UnblockInv(s: State, q: nat)
    requires Inv(s) && s.control == InLoop && q < |s.waitqs|
    ensures Inv(Unblock(s, q))
    decreases |s.waitqs[q]|
  {
    if s.waitqs[q] != [] {
      UnblockOneKeepsInv(s, q);
      UnblockInv(UnblockHead(s, q), q);
    }
  }

  /** The actors of `wake` become ready, all others stay as they are. */
  predicate Woke(before: seq<View>, after: seq<View>, wake: seq<nat>) {
    && |after| == |before|
    && (forall o :: 0 <= o < |before| ==>
          after[o] == if o in wake then before[o].(status := Ready) else before[o])
  }

  predicate Asleep(s: State, wake: seq<nat>) {
    NoDup(wake) && InRange(wake, |s.objs|) && forall o :: o in wake ==> s.objs[o].status == WaitEv
  }

  lemma WaitersAreAsleep(s: State, q: nat)
    requires Inv(s) && q < |s.waitqs|
    ensures Asleep(s, s.waitqs[q])
  {
    forall o | o in s.waitqs[q]
      ensures s.objs[o].status == WaitEv
    {
      assert OnWaitq(s, o);
    }
  }

  lemma WakeHead(s: State, q: nat)
    requires q < |s.waitqs| && s.waitqs[q] != [] && Asleep(s, s.waitqs[q])
    ensures
      var o, t := s.waitqs[q][0], UnblockHead(s, q);
      && t == s.(objs := t.objs, readyq := s.readyq + [o], waitqs := s.waitqs[q := s.waitqs[q][1..]])
      && Woke(s.objs, t.objs, [o]) && Asleep(t, t.waitqs[q])
  {
    var o, rest := s.waitqs[q][0], s.waitqs[q][1..];
    assert o in s.waitqs[q];
    assert forall x :: x in rest ==> x in s.waitqs[q] && x != o;
  }

  lemma {:induction false} SleepersWake(s: State, q: nat)
    requires q < |s.waitqs| && Asleep(s, s.waitqs[q])
    ensures
      var t := Unblock(s, q);
      && Woke(s.objs, t.objs, s.waitqs[q])
      && t == s.(objs := t.objs, readyq := s.readyq + s.waitqs[q], waitqs := s.waitqs[q := []])
    decreases |s.waitqs[q]|
  {
    if s.waitqs[q] != [] {
      var o, rest := s.waitqs[q][0], s.waitqs[q][1..];
      assert s.waitqs[q] == [o] + rest;
      var s1 := UnblockHead(s, q);
      WakeHead(s, q);
      SleepersWake(s1, q);
      assert s1.waitqs[q := []] == s.waitqs[q := []];
      assert s1.readyq + rest == s.readyq + s.waitqs[q];
    } else {
      assert s.waitqs == s.waitqs[q := []];
    }
  }

  /** unblock_all makes ready exactly the actors of the queue, once each and in order. */
  lemma UnblockWakesAll(s: State, q: nat)
    requires Inv(s) && q < |s.waitqs|
    ensures
      var t := Unblock(s, q);
      && Woke(s.objs, t.objs, s.waitqs[q])
      && t == s.(objs := t.objs, readyq := s.readyq + s.waitqs[q], waitqs := s.waitqs[q := []])
  {
    WaitersAreAsleep(s, q);
    SleepersWake(s, q);
  }

  /** Every step of every actor, of the scheduler and of the event loop keeps the invariant. */
  lemma StepKeepsInv(s: State, a: Action)
    requires Inv(s) && Enabled(s, a)
    ensures Inv(Step(s, a))
  {
    match a
    case Spawn => SpawnKeepsInv(s);
    case Yield => YieldKeepsInv(s);
    case Send(dst, msgtype, payload) => SendKeepsInv(s, dst, msgtype, payload);
    case Recv => RecvKeepsInv(s);
    case Resume => TakeKeepsInv(s);
    case NewFd => NewFdKeepsInv(s);
    case Block(q) => BlockKeepsInv(s, q);
    case Write => WriteKeepsInv(s);
    case Finish => FinishKeepsInv(s);
    case Dispatch => DispatchKeepsInv(s);
    case Poll | LoopReturn =>
      var t := Step(s, a);
      SameQueues(s, t);
      forall i | 0 <= i < |s.objs| ensures ActorOk(t, i) { assert ActorOk(s, i); }
    case Event(q) => UnblockInv(s, q);
    case WriteDone(o) => WriteDoneKeepsInv(s, o);
  }

  /** After sherry_init the main actor runs with id 0, the other n - 1 slots are free and nobody waits. */
  lemma InitState(n: nat)
    requires n > 0
    ensures
      var s := Init(n);
      && s.objs == [View(0, Running, [], false)] && s.running == 0 && s.control == InActor
      && |s.table| == n && s.table[0] == Some(0) && (forall i :: 0 < i < n ==> s.table[i] == None)
      && s.curractors == 1 && s.readyq == [] && s.waitingmsg == [] && s.waitqs == [] && s.writes == {}
  {
    assert FirstFree(Nones(n)) == 0;
  }

  lemma InitInv(n: nat)
    requires n > 0
    ensures Inv(Init(n))
  {
    var s := Blank(n);
    OccupiedNones([], n);
    assert [] + Nones(n) == Nones(n);
    RegisterOk(s, MAIN);
    var t := Init(n);
    assert !OnWaitq(t, MAIN);
    assert ActorOk(t, MAIN);
  }

  lemma {:induction false} RunKeepsInv(s: State, run: seq<Action>)
    requires Inv(s) && Legal(s, run)
    ensures Inv(Run(s, run))
    decreases |run|
  {
    if run != [] {
      StepKeepsInv(s, run[0]);
      RunKeepsInv(Step(s, run[0]), run[1..]);
    }
  }
}
