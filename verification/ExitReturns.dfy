/**
 When sherry_exit can return, for arbitrary actors: the exact condition on the statuses of
 the actors at any moment of its loop.
 */
module ExitReturns {
  import opened Options
  import opened ActorModel
  import opened ActorInvariant
  import opened ActorRuns
  import opened ActorExit

  /** The main actor is in the loop of sherry_exit, and so not suspended in sherry_msg_recv. */
  predicate InExit(s: State)
    requires Closed(s)
  {
    Exiting(s) && MAIN < |s.objs| && !s.objs[MAIN].inRecv
  }

  /** The condition of the loop is checked and found false. */
  predicate Over(s: State) {
    s.control == InActor && s.running == MAIN && s.curractors == 1
  }

  /** By this run of the other actors sherry_exit returns. */
  ghost predicate ReturnsBy(s: State, run: seq<Action>) {
    Legal(s, run) && MainYields(s, run) && Over(Run(s, run))
  }

  /** By this run everybody but the main actor has finished. */
  ghost predicate EmptiesBy(s: State, run: seq<Action>) {
    Legal(s, run) && MainYields(s, run) && Run(s, run).curractors == 1
  }

  predicate Waits(s: State, o: nat, status: Status) {
    o < |s.objs| && Registered(s, o) && s.objs[o].status == status
  }

  /** An actor other than main that runs or is ready. */
  predicate Active(s: State, o: nat) {
    o < |s.objs| && o != MAIN && Registered(s, o) && s.objs[o].status in {Ready, Running}
  }

  /**
   Nobody waits for an event, and if somebody waits for a message there is an actor left
   that could send it one.
   */
  ghost predicate CanReturn(s: State) {
    && (forall o :: 0 <= o < |s.objs| ==> !Waits(s, o, WaitEv))
    && ((forall o :: 0 <= o < |s.objs| ==> !Waits(s, o, WaitMsg)) || exists o :: Active(s, o))
  }

  // ---------------------------------------------------------------- facts from the invariant

  lemma MainIsActive(s: State)
    requires Inv(s) && InExit(s)
    ensures s.objs[MAIN].status in {Ready, Running}
    ensures s.curractors >= 1 && Registered(s, MAIN)
    ensures s.control == InActor && s.running == MAIN ==> AtCall(s)
    ensures s.control == InScheduler ==> s.readyq != []
  {
    OccupiedPositive(s.table, MAIN);
  }

  /** Whoever else is registered has a slot of its own. */
  lemma MoreThanMain(s: State, o: nat)
    requires Inv(s) && o < |s.objs| && o != MAIN && Registered(s, o)
    ensures s.curractors > 1
  {
    OccupiedPositive(s.table, MAIN);
    assert s.table[s.objs[o].aid] == Some(o);
  }

  lemma {:induction false} SecondSlot(t: seq<Option<nat>>, k: nat) returns (i: nat)
    requires Occupied(t) >= 1 && (k < |t| && t[k].Some? ==> Occupied(t) >= 2)
    ensures i < |t| && i != k && t[i].Some?
  {
    if t[0].Some? && k != 0 {
      i := 0;
    } else if k == 0 {
      i := SomeSlot(t[1..]);
      i := i + 1;
    } else {
      i := SecondSlot(t[1..], k - 1);
      i := i + 1;
    }
  }

  lemma {:induction false} SomeSlot(t: seq<Option<nat>>) returns (i: nat)
    requires Occupied(t) >= 1
    ensures i < |t| && t[i].Some?
  {
    if t[0].Some? {
      i := 0;
    } else {
      i := SomeSlot(t[1..]);
      i := i + 1;
    }
  }

  lemma AnotherActor(s: State) returns (o: nat)
    requires Inv(s) && s.curractors > 1
    ensures o < |s.objs| && o != MAIN && Registered(s, o)
  {
    var i := SecondSlot(s.table, MAIN);
    o := s.table[i].value;
  }

  /** While anybody but main is registered and exit can return, somebody else is active. */
  lemma SomebodyActive(s: State) returns (o: nat)
    requires Inv(s) && InExit(s) && CanReturn(s) && s.curractors > 1
    ensures Active(s, o)
  {
    var p := AnotherActor(s);
    assert ActorOk(s, p);
    if Active(s, p) {
      o := p;
    } else {
      assert Waits(s, p, WaitMsg) || Waits(s, p, WaitEv);
      o :| Active(s, o);
    }
  }

  // ---------------------------------------------------------------- a run on which exit returns

  /**
   What the others should do: an active actor sends a message to everybody who waits for
   one, finishes a receive it was woken from, and returns.
   */
  function NextAction(s: State): Action
    requires Closed(s)
  {
    if s.control != InActor then Dispatch
    else if s.running == MAIN then Yield
    else if s.objs[s.running].inRecv then Resume
    else if s.waitingmsg != [] then
      assert s.waitingmsg[0] in s.waitingmsg;
      Send(s.objs[s.waitingmsg[0]].aid, 0, 0)
    else Finish
  }

  /** The number of steps until an actor other than main is at a call, or until main sees that it is alone. */
  function Phase(s: State): (n: nat)
    requires Closed(s)
  {
    if s.control != InActor then (if s.readyq == [] || s.readyq[0] == MAIN then 4 else 2)
    else if s.running == MAIN then 3
    else if s.objs[s.running].inRecv then 1
    else 0
  }

  predicate Closer(s: State, t: State)
    requires Closed(s) && Closed(t)
  {
    t.curractors < s.curractors ||
    (t.curractors == s.curractors &&
     (|t.waitingmsg| < |s.waitingmsg| || (|t.waitingmsg| == |s.waitingmsg| && Phase(t) < Phase(s))))
  }

  /** Nobody begins to wait, and the active actors stay active. */
  ghost predicate NoWorse(s: State, t: State) {
    && |t.objs| == |s.objs|
    && (forall o :: 0 <= o < |s.objs| ==>
          && (Waits(t, o, WaitEv) ==> Waits(s, o, WaitEv))
          && (Waits(t, o, WaitMsg) ==> Waits(s, o, WaitMsg))
          && (Active(s, o) ==> Active(t, o)))
  }

  lemma NoWorseBut(s: State, t: State, x: nat)
    requires SameElsewhere(s, t, x)
    requires x < |s.objs| && (Active(s, x) ==> Active(t, x))
    requires t.objs[x].status != WaitEv && t.objs[x].status != WaitMsg
    ensures NoWorse(s, t)
  {
    forall o | 0 <= o < |s.objs|
      ensures Registered(t, o) == Registered(s, o) && (o == x || t.objs[o] == s.objs[o])
    {
      assert t.objs[o].aid == s.objs[o].aid;
    }
  }

  lemma StillCanReturn(s: State, t: State)
    requires CanReturn(s) && NoWorse(s, t)
    ensures CanReturn(t)
  {
    if o :| Active(s, o) {
      assert Active(t, o);
    }
  }

  lemma MainYieldsNext(s: State)
    requires Inv(s) && InExit(s) && CanReturn(s) && s.control == InActor && s.running == MAIN && s.curractors > 1
    ensures Enabled(s, Yield)
    ensures var t := YieldStep(s); Closed(t) && NoWorse(s, t) && !t.objs[MAIN].inRecv && Closer(s, t)
  {
    var o := SomebodyActive(s);
    assert ActorOk(s, o);
    assert o in s.readyq && MAIN !in s.readyq;
    assert s.readyq[0] in s.readyq;
    NoWorseBut(s, YieldStep(s), MAIN);
  }

  lemma DispatchNext(s: State)
    requires Inv(s) && InExit(s) && s.control == InScheduler
    ensures Enabled(s, Dispatch)
    ensures var t := DispatchStep(s); Closed(t) && NoWorse(s, t) && !t.objs[MAIN].inRecv && Closer(s, t)
  {
    MainIsActive(s);
    assert s.readyq[0] in s.readyq;
    assert forall o :: o in s.readyq[1..] ==> o in s.readyq;
    NoWorseBut(s, DispatchStep(s), s.readyq[0]);
  }

  lemma ResumeNext(s: State)
    requires Inv(s) && InExit(s) && s.control == InActor && s.running != MAIN && s.objs[s.running].inRecv
    ensures Enabled(s, Resume)
    ensures var t := TakeStep(s); Closed(t) && NoWorse(s, t) && !t.objs[MAIN].inRecv && Closer(s, t)
  {
  }

  lemma SendNext(s: State)
    requires Inv(s) && InExit(s) && s.control == InActor && s.running != MAIN && !s.objs[s.running].inRecv
    requires s.waitingmsg != []
    ensures NextAction(s).Send? && Enabled(s, NextAction(s))
    ensures var t := Step(s, NextAction(s)); Closed(t) && NoWorse(s, t) && !t.objs[MAIN].inRecv && Closer(s, t)
  {
    var r := s.waitingmsg[0];
    assert r in s.waitingmsg && ActorOk(s, r);
    assert s.table[s.objs[r].aid] == Some(r);
    FirstWithout(s.waitingmsg);
  }

  lemma FirstWithout(q: seq<nat>)
    requires q != []
    ensures Without(q, q[0]) == q[1..]
  {
  }

  lemma FinishNext(s: State)
    requires Inv(s) && InExit(s) && CanReturn(s) && s.control == InActor && s.running != MAIN
    requires !s.objs[s.running].inRecv && s.waitingmsg == []
    ensures Enabled(s, Finish)
    ensures var t := FinishStep(s); Closed(t) && CanReturn(t) && !t.objs[MAIN].inRecv && Closer(s, t)
  {
    var t := FinishStep(s);
    forall o | 0 <= o < |t.objs|
      ensures !Waits(t, o, WaitEv) && !Waits(t, o, WaitMsg)
    {
      assert Waits(t, o, WaitEv) ==> Waits(s, o, WaitEv);
    }
  }

  /** The next action brings the end of the loop closer. */
  lemma Advance(s: State)
    requires Inv(s) && InExit(s) && CanReturn(s) && !Over(s)
    ensures Enabled(s, NextAction(s))
    ensures s.control == InActor && s.running == MAIN ==> NextAction(s) == Yield
    ensures
      var t := Step(s, NextAction(s));
      Inv(t) && InExit(t) && CanReturn(t) && Closer(s, t)
  {
    MainIsActive(s);
    var a := NextAction(s);
    if s.control != InActor {
      DispatchNext(s);
      StillCanReturn(s, Step(s, a));
    } else if s.running == MAIN {
      MainYieldsNext(s);
      StillCanReturn(s, Step(s, a));
    } else if s.objs[s.running].inRecv {
      ResumeNext(s);
      StillCanReturn(s, Step(s, a));
    } else if s.waitingmsg != [] {
      SendNext(s);
      StillCanReturn(s, Step(s, a));
    } else {
      FinishNext(s);
    }
    StepKeepsInv(s, a);
    ExitStep(s, a);
  }

  lemma {:induction false} ReturningRun(s: State) returns (run: seq<Action>)
    requires Inv(s) && InExit(s) && CanReturn(s)
    ensures ReturnsBy(s, run)
    decreases s.curractors, |s.waitingmsg|, Phase(s)
  {
    if Over(s) {
      run := [];
    } else {
      Advance(s);
      MainIsActive(s);
      var a := NextAction(s);
      var t := Step(s, a);
      MainIsActive(t);
      var rest := ReturningRun(t);
      run := [a] + rest;
      assert run[1..] == rest;
    }
  }

  // ---------------------------------------------------------------- when it cannot

  /** Nobody but main is active, and somebody waits for a message: nobody will send it. */
  ghost predicate Stuck(s: State, w: nat)
    requires Closed(s)
  {
    && Exiting(s) && Waits(s, w, WaitMsg)
    && (forall o :: 0 <= o < |s.objs| ==> !Active(s, o))
  }

  lemma StuckStep(s: State, a: Action, w: nat)
    requires Inv(s) && Stuck(s, w) && Enabled(s, a)
    requires s.control == InActor && s.running == MAIN ==> a == Yield
    ensures Closed(Step(s, a)) && Stuck(Step(s, a), w)
  {
    ExitStep(s, a);
    StepKeepsInv(s, a);
    var t := Step(s, a);
    if s.control == InActor {
      assert s.running == MAIN by {
        if s.running != MAIN {
          assert Active(s, s.running);
        }
      }
    } else {
      assert a == Dispatch;
      assert s.readyq[0] in s.readyq && ActorOk(s, s.readyq[0]);
      assert s.readyq[0] == MAIN by {
        if s.readyq[0] != MAIN {
          assert Active(s, s.readyq[0]);
        }
      }
    }
    assert MAIN != w;
    assert SameElsewhere(s, t, MAIN);
    forall o | 0 <= o < |t.objs|
      ensures !Active(t, o) && (o == w ==> Waits(t, o, WaitMsg))
    {
      assert t.objs[o].aid == s.objs[o].aid && (o == MAIN || t.objs[o] == s.objs[o]);
      assert !Active(s, o);
    }
  }

  lemma {:induction false} MessageWaiterStopsExit(s: State, run: seq<Action>, w: nat)
    requires Inv(s) && Stuck(s, w) && Legal(s, run) && MainYields(s, run)
    ensures var t := Run(s, run); Waits(t, w, WaitMsg) && t.curractors > 1
    decreases |run|
  {
    if run != [] {
      StepKeepsInv(s, run[0]);
      StuckStep(s, run[0], w);
      MessageWaiterStopsExit(Step(s, run[0]), run[1..], w);
    } else {
      assert w != MAIN by {
        assert s.objs[MAIN].status != WaitMsg;
      }
      MoreThanMain(s, w);
    }
  }

  /** If the condition fails, no run of the other actors empties the system. */
  lemma NeverEmpties(s: State, run: seq<Action>)
    requires Inv(s) && Exiting(s) && !CanReturn(s)
    ensures !EmptiesBy(s, run)
  {
    if Legal(s, run) && MainYields(s, run) {
      if o :| 0 <= o < |s.objs| && Waits(s, o, WaitEv) {
        EventWaiterStopsExit(s, run, o);
      } else {
        var w :| 0 <= w < |s.objs| && Waits(s, w, WaitMsg);
        assert Stuck(s, w);
        MessageWaiterStopsExit(s, run, w);
      }
    }
  }

  /**
   The exact condition: at any moment of the loop of sherry_exit, some behaviour of the
   other actors makes it return exactly when nobody waits for an event and either nobody
   waits for a message or some other actor is ready or running. If the condition fails,
   not even the count of actors ever comes down to one.
   */
  lemma ExitReturnsIff(s: State)
    requires Inv(s) && InExit(s)
    ensures (exists run :: ReturnsBy(s, run)) <==> CanReturn(s)
    ensures (exists run :: EmptiesBy(s, run)) <==> CanReturn(s)
  {
    if CanReturn(s) {
      var run := ReturningRun(s);
      assert ReturnsBy(s, run) && EmptiesBy(s, run);
    } else {
      forall run: seq<Action>
        ensures !ReturnsBy(s, run) && !EmptiesBy(s, run)
      {
        NeverEmpties(s, run);
      }
    }
  }

  /** The main actor is in the loop from its call of sherry_exit on, whatever the others do. */
  lemma CallIsInExit(s: State)
    requires Inv(s) && AtCall(s) && s.running == MAIN
    ensures InExit(s)
  {
  }

  lemma StepStaysInExit(s: State, a: Action)
    requires Inv(s) && InExit(s) && Enabled(s, a)
    requires s.control == InActor && s.running == MAIN ==> a == Yield
    ensures Closed(Step(s, a)) && InExit(Step(s, a))
  {
    ExitStep(s, a);
    if a.Spawn? {
      SpawnActors(s, SpawnStep(s));
      assert Step(s, a).objs[MAIN] == Step(s, a).objs[..|s.objs|][MAIN];
    }
  }

  lemma {:induction false} RunStaysInExit(s: State, run: seq<Action>)
    requires Inv(s) && InExit(s) && Legal(s, run) && MainYields(s, run)
    ensures Closed(Run(s, run)) && Inv(Run(s, run)) && InExit(Run(s, run))
    decreases |run|
  {
    if run != [] {
      StepKeepsInv(s, run[0]);
      StepStaysInExit(s, run[0]);
      RunStaysInExit(Step(s, run[0]), run[1..]);
    }
  }

  /**
   So the condition is exact at every moment of sherry_exit: whether it can still return
   can be read off the statuses then.
   */
  lemma ExitReturnsIffAlways(s: State, past: seq<Action>)
    requires Inv(s) && AtCall(s) && s.running == MAIN && Legal(s, past) && MainYields(s, past)
    ensures (exists run :: ReturnsBy(Run(s, past), run)) <==> CanReturn(Run(s, past))
  {
    CallIsInExit(s);
    RunStaysInExit(s, past);
    ExitReturnsIff(Run(s, past));
  }

  /**
   A reachable state without any event waiter in which sherry_exit can never return: the
   only other actor waits for a message.
   */
  lemma MessageWaiterExample(n: nat)
    requires n > 1
    ensures
      var run := [NewFd, Spawn, Yield, Dispatch];
      && Legal(Init(n), run)
      && (var s := Run(Init(n), run);
          && Closed(s) && Enabled(s, Recv)
          && (var t := Step(s, Recv);
              && Inv(t) && InExit(t) && Waits(t, 1, WaitMsg) && !CanReturn(t)
              && forall o :: 0 <= o < |t.objs| ==> t.objs[o].status != WaitEv))
  {
    ExampleStart(n);
    RecvStrands(Run(Init(n), [NewFd, Spawn, Yield, Dispatch]));
  }

  lemma RecvStrands(s: State)
    requires Inv(s) && AtCall(s) && s.running == 1 && s.objs[1].mailbox == []
    requires s.readyq == [MAIN] && s.waitqs == [[], []] && s.writes == {} && !s.objs[MAIN].inRecv
    ensures
      var t := RecvStep(s);
      && Inv(t) && InExit(t) && Waits(t, 1, WaitMsg) && !CanReturn(t)
      && forall o :: 0 <= o < |t.objs| ==> t.objs[o].status != WaitEv
  {
    var t := RecvStep(s);
    RecvKeepsInv(s);
    assert MAIN in t.readyq;
    assert InExit(t) && Waits(t, 1, WaitMsg);
    forall o | 0 <= o < |t.objs|
      ensures t.objs[o].status != WaitEv && !Active(t, o)
    {
      NobodyElse(t, o);
    }
  }

  lemma NobodyElse(t: State, o: nat)
    requires Inv(t) && t.control == InScheduler && t.readyq == [MAIN] && t.waitqs == [[], []] && t.writes == {}
    requires o < |t.objs|
    ensures t.objs[o].status != WaitEv && !Active(t, o)
  {
    assert ActorOk(t, o) && !OnWaitq(t, o);
    assert o in t.readyq <==> o == MAIN;
  }

  /** A main actor suspended in sherry_msg_recv is not in that loop: it cannot yield at all. */
  lemma SuspendedMainCannotYield(s: State)
    requires Inv(s) && Exiting(s) && s.control == InActor && s.running == MAIN && s.objs[MAIN].inRecv
    ensures forall run :: Legal(s, run) && MainYields(s, run) ==> run == []
  {
  }

  // ---------------------------------------------------------------- does the loop spin?

  /** A run inside the loop of sherry_exit: the main actor yields, and only while it is not alone. */
  predicate InLoopOfExit(s: State, run: seq<Action>)
    requires Legal(s, run)
    decreases |run|
  {
    run == [] ||
    ((s.control == InActor && s.running == MAIN ==> run[0] == Yield && s.curractors > 1) &&
     InLoopOfExit(Step(s, run[0]), run[1..]))
  }

  /** The steps of the run that actors other than main take. */
  function OthersSteps(s: State, run: seq<Action>): (n: nat)
    requires Legal(s, run)
    decreases |run|
  {
    if run == [] then 0
    else (if s.control == InActor && s.running != MAIN then 1 else 0) + OthersSteps(Step(s, run[0]), run[1..])
  }

  /** Whenever main is not alone, somebody else is ready or running. */
  ghost predicate Lively(s: State) {
    s.curractors > 1 ==> exists o :: Active(s, o)
  }

  ghost predicate LivelyAlong(s: State, run: seq<Action>)
    requires Legal(s, run)
    decreases |run|
  {
    Lively(s) && (run == [] || LivelyAlong(Step(s, run[0]), run[1..]))
  }

  /** Nobody waits, for a message or for an event, at any point of the run. */
  ghost predicate NobodyWaitsAlong(s: State, run: seq<Action>)
    requires Legal(s, run)
    decreases |run|
  {
    && (forall o :: 0 <= o < |s.objs| ==> !Waits(s, o, WaitMsg) && !Waits(s, o, WaitEv))
    && (run == [] || NobodyWaitsAlong(Step(s, run[0]), run[1..]))
  }

  lemma {:induction false} LoopYields(s: State, run: seq<Action>)
    requires Legal(s, run) && InLoopOfExit(s, run)
    ensures MainYields(s, run)
    decreases |run|
  {
    if run != [] {
      LoopYields(Step(s, run[0]), run[1..]);
    }
  }

  /** Steps that no other actor takes bring one of their turns closer. */
  lemma PhaseFalls(s: State, a: Action)
    requires Inv(s) && InExit(s) && Lively(s) && Enabled(s, a) && Closed(Step(s, a))
    requires !(s.control == InActor && s.running != MAIN)
    requires s.control == InActor ==> a == Yield && s.curractors > 1
    ensures Phase(Step(s, a)) < Phase(s)
  {
    if s.control == InActor {
      var o :| Active(s, o);
      assert ActorOk(s, o);
      assert o in s.readyq && MAIN !in s.readyq;
      assert s.readyq[0] in s.readyq;
    } else {
      MainIsActive(s);
      DispatchNext(s);
    }
  }

  /**
   The loop of sherry_exit does not spin: as long as somebody else is ready or running
   whenever main is not alone, a run is no longer than a multiple of one plus the number
   of steps the others take.
   */
  lemma {:induction false} StepsAreBounded(s: State, run: seq<Action>)
    requires Inv(s) && InExit(s) && Legal(s, run) && InLoopOfExit(s, run) && LivelyAlong(s, run)
    ensures |run| <= Phase(s) + 5 * OthersSteps(s, run)
    decreases |run|
  {
    if run != [] {
      var t := Step(s, run[0]);
      StepKeepsInv(s, run[0]);
      StepStaysInExit(s, run[0]);
      StepsAreBounded(t, run[1..]);
      if !(s.control == InActor && s.running != MAIN) {
        PhaseFalls(s, run[0]);
      }
      assert Phase(t) <= 4;
    }
  }

  /** In particular when nobody waits along the run. */
  lemma {:induction false} AwakeIsLively(s: State, run: seq<Action>)
    requires Inv(s) && InExit(s) && Legal(s, run) && InLoopOfExit(s, run) && NobodyWaitsAlong(s, run)
    ensures LivelyAlong(s, run)
    decreases |run|
  {
    if s.curractors > 1 {
      var o := SomebodyActive(s);
    }
    if run != [] {
      StepKeepsInv(s, run[0]);
      StepStaysInExit(s, run[0]);
      AwakeIsLively(Step(s, run[0]), run[1..]);
    }
  }

  lemma ExitNeverSpins(s: State, run: seq<Action>)
    requires Inv(s) && InExit(s) && Legal(s, run) && InLoopOfExit(s, run) && NobodyWaitsAlong(s, run)
    ensures |run| <= 5 * (1 + OthersSteps(s, run))
  {
    AwakeIsLively(s, run);
    StepsAreBounded(s, run);
  }

  /** Nobody but main is active although others are registered: they all wait. */
  ghost predicate AllOthersWait(s: State)
    requires Closed(s)
  {
    InExit(s) && s.curractors > 1 && forall o :: 0 <= o < |s.objs| ==> !Active(s, o)
  }

  lemma OnlyMainMoves(s: State)
    requires Inv(s) && AllOthersWait(s)
    ensures
      var a := if s.control == InActor then Yield else Dispatch;
      && Enabled(s, a) && Inv(Step(s, a)) && AllOthersWait(Step(s, a))
      && (s.control == InActor ==> s.running == MAIN)
  {
    MainIsActive(s);
    if s.control == InActor {
      assert s.running == MAIN || Active(s, s.running);
      MainAloneYields(s);
    } else {
      assert s.readyq[0] in s.readyq && ActorOk(s, s.readyq[0]);
      assert s.readyq[0] == MAIN || Active(s, s.readyq[0]);
      MainAloneRuns(s);
    }
  }

  lemma MainAloneYields(s: State)
    requires Inv(s) && AllOthersWait(s) && s.control == InActor && s.running == MAIN
    ensures Enabled(s, Yield) && Inv(YieldStep(s)) && AllOthersWait(YieldStep(s))
  {
    var t := YieldStep(s);
    StepKeepsInv(s, Yield);
    StepStaysInExit(s, Yield);
    StillNobody(s, t);
  }

  lemma MainAloneRuns(s: State)
    requires Inv(s) && AllOthersWait(s) && Enabled(s, Dispatch) && s.readyq[0] == MAIN
    ensures Inv(DispatchStep(s)) && AllOthersWait(DispatchStep(s))
  {
    var t := DispatchStep(s);
    StepKeepsInv(s, Dispatch);
    StepStaysInExit(s, Dispatch);
    StillNobody(s, t);
  }

  lemma StillNobody(s: State, t: State)
    requires Closed(s) && AllOthersWait(s) && SameElsewhere(s, t, MAIN)
    ensures forall o :: 0 <= o < |t.objs| ==> !Active(t, o)
  {
    forall o | 0 <= o < |t.objs|
      ensures !Active(t, o)
    {
      assert t.objs[o].aid == s.objs[o].aid && (o == MAIN || t.objs[o] == s.objs[o]);
      assert !Active(s, o);
    }
  }

  /** Then main yields to itself for ever: the loop spins for any number of steps. */
  lemma {:induction false} SpinningRun(s: State, n: nat) returns (run: seq<Action>)
    requires Inv(s) && AllOthersWait(s)
    ensures Legal(s, run) && InLoopOfExit(s, run) && |run| == n && OthersSteps(s, run) == 0
    decreases n
  {
    if n == 0 {
      run := [];
    } else {
      OnlyMainMoves(s);
      var a := if s.control == InActor then Yield else Dispatch;
      var rest := SpinningRun(Step(s, a), n - 1);
      run := [a] + rest;
      assert run[1..] == rest;
    }
  }

  /** The loop can spin without a step of the others exactly when they all wait. */
  lemma SpinsIff(s: State)
    requires Inv(s) && InExit(s)
    ensures AllOthersWait(s) <==>
              exists run :: Legal(s, run) && InLoopOfExit(s, run) && |run| > 4 && OthersSteps(s, run) == 0
  {
    if AllOthersWait(s) {
      var run := SpinningRun(s, 5);
      assert Legal(s, run) && InLoopOfExit(s, run) && |run| > 4 && OthersSteps(s, run) == 0;
    } else {
      forall run: seq<Action> | Legal(s, run) && InLoopOfExit(s, run) && OthersSteps(s, run) == 0
        ensures |run| <= 4
      {
        QuietRunIsLively(s, run);
        StepsAreBounded(s, run);
      }
    }
  }

  /** Without a step of the others, whoever is active stays active. */
  lemma {:induction false} QuietRunIsLively(s: State, run: seq<Action>)
    requires Inv(s) && InExit(s) && Lively(s)
    requires Legal(s, run) && InLoopOfExit(s, run) && OthersSteps(s, run) == 0
    ensures LivelyAlong(s, run)
    decreases |run|
  {
    if run != [] {
      var t := Step(s, run[0]);
      StepKeepsInv(s, run[0]);
      StepStaysInExit(s, run[0]);
      QuietStep(s, run[0]);
      QuietRunIsLively(t, run[1..]);
    }
  }

  lemma QuietStep(s: State, a: Action)
    requires Inv(s) && InExit(s) && Lively(s) && Enabled(s, a)
    requires s.control == InActor ==> s.running == MAIN && a == Yield
    ensures Lively(Step(s, a))
  {
    var t := Step(s, a);
    MainIsActive(s);
    if s.control == InActor {
      NoWorseBut(s, t, MAIN);
    } else {
      DispatchNext(s);
    }
    if s.curractors > 1 {
      var o :| Active(s, o);
      assert Active(t, o);
    }
  }
}
