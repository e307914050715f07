/**
 sherry_exit: the main actor yields until it is the only one registered. While it does so
 it is always running or ready, so the loop in schdule never finds the ready queue empty
 and never polls libuv.
 */
module ActorExit {
  import opened Sequences
  import opened Options
  import opened ActorModel
  import opened ActorInvariant
  import opened ActorRuns

  // ---------------------------------------------------------------- what exit cannot wait for

  /** The loop of sherry_exit: whenever the main actor has the processor, it yields. */
  predicate MainYields(s: State, run: seq<Action>)
    requires Legal(s, run)
    decreases |run|
  {
    run == [] ||
    ((s.control == InActor && s.running == MAIN ==> run[0] == Yield) && MainYields(Step(s, run[0]), run[1..]))
  }

  /** The main actor is in the loop of sherry_exit: it runs, or it is ready to. */
  predicate Exiting(s: State)
    requires Closed(s)
  {
    s.control != InLoop && ((s.control == InActor && s.running == MAIN) || MAIN in s.readyq)
  }

  predicate OfEventLoop(a: Action) {
    a.Poll? || a.Event? || a.WriteDone? || a.LoopReturn?
  }

  lemma MainStaysReady(s: State, a: Action)
    requires Inv(s) && Enabled(s, a) && MAIN in s.readyq
    ensures MAIN in Step(s, a).readyq || (a.Dispatch? && s.readyq[0] == MAIN)
  {
    StepIsFifo(s, a);
    var t := Step(s, a);
    if a.Dispatch? {
      assert s.readyq == [s.readyq[0]] + t.readyq;
    } else {
      assert t.readyq == s.readyq + Woken(s, a);
    }
  }

  lemma ExitStep(s: State, a: Action)
    requires Inv(s) && Enabled(s, a) && Exiting(s)
    requires s.control == InActor && s.running == MAIN ==> a == Yield
    ensures !OfEventLoop(a)
    ensures Closed(Step(s, a)) && Exiting(Step(s, a))
  {
    StepKeepsInv(s, a);
    if s.control == InActor && s.running == MAIN {
      StepIsFifo(s, a);
      assert Step(s, a).readyq == s.readyq + [MAIN];
    } else {
      MainStaysReady(s, a);
      ControlAfter(s, a);
    }
  }

  /** Outside the event loop the processor is with an actor or with the scheduler. */
  lemma ControlAfter(s: State, a: Action)
    requires Closed(s) && Enabled(s, a) && s.control != InLoop && s.readyq != []
    ensures !OfEventLoop(a)
    ensures Step(s, a).control != InLoop
    ensures a.Dispatch? ==> Step(s, a).control == InActor && Step(s, a).running == s.readyq[0]
    ensures !a.Dispatch? ==> Step(s, a).running == s.running
  {
  }

  lemma StillWaiting(s: State, a: Action, o: nat)
    requires Inv(s) && Enabled(s, a) && !OfEventLoop(a)
    requires o < |s.objs| && s.objs[o].status == WaitEv
    ensures o < |Step(s, a).objs| && Step(s, a).objs[o].status == WaitEv
  {
    assert ActorOk(s, o);
    if a.Spawn? {
      SpawnActors(s, SpawnStep(s));
      assert Step(s, a).objs[o] == Step(s, a).objs[..|s.objs|][o];
    } else if a.Dispatch? {
      assert s.readyq[0] in s.readyq;
    }
  }

  /**
   From the moment the main actor is in the loop of sherry_exit, no step of the event loop
   ever happens, whatever the other actors do.
   */
  lemma {:induction false} ExitNeverPolls(s: State, run: seq<Action>)
    requires Inv(s) && Exiting(s) && Legal(s, run) && MainYields(s, run)
    ensures forall i :: 0 <= i < |run| ==> !OfEventLoop(run[i])
    ensures Closed(Run(s, run)) && Exiting(Run(s, run))
    decreases |run|
  {
    if run != [] {
      StepKeepsInv(s, run[0]);
      ExitStep(s, run[0]);
      ExitNeverPolls(Step(s, run[0]), run[1..]);
      assert forall i :: 0 < i < |run| ==> run[i] == run[1..][i - 1];
    }
  }

  /**
   Hence an actor that waits for a descriptor or a write at any time during sherry_exit
   waits for ever, and the loop condition curractors > 1 never becomes false.
   */
  lemma {:induction false} EventWaiterStopsExit(s: State, run: seq<Action>, o: nat)
    requires Inv(s) && Exiting(s) && Legal(s, run) && MainYields(s, run)
    requires o < |s.objs| && s.objs[o].status == WaitEv
    ensures
      var t := Run(s, run);
      o < |t.objs| && t.objs[o].status == WaitEv && Registered(t, o) && t.curractors > 1
    decreases |run|
  {
    if run != [] {
      StepKeepsInv(s, run[0]);
      ExitStep(s, run[0]);
      StillWaiting(s, run[0], o);
      EventWaiterStopsExit(Step(s, run[0]), run[1..], o);
    } else {
      assert ActorOk(s, o) && ActorOk(s, MAIN);
      assert o != MAIN by {
        assert s.objs[MAIN].status != WaitEv;
      }
      OccupiedPositive(s.table, MAIN);
      assert s.table[s.objs[o].aid] == Some(o);
    }
  }

  /** One spawned actor has just been given the processor by the main actor in sherry_exit. */
  lemma ExampleStart(n: nat)
    requires n > 1
    ensures
      var run := [NewFd, Spawn, Yield, Dispatch];
      && Legal(Init(n), run)
      && (var s := Run(Init(n), run);
          && Inv(s) && s.readyq == [MAIN] && s.running == 1 && AtCall(s)
          && s.waitqs == [[], []] && s.writes == {} && s.objs[1].mailbox == [] && !s.objs[MAIN].inRecv)
  {
    InitInv(n);
    var s0 := Init(n);
    var s1 := Step(s0, NewFd);
    StepKeepsInv(s0, NewFd);
    SpawnActors(s1, SpawnStep(s1));
    var s2 := Step(s1, Spawn);
    StepKeepsInv(s1, Spawn);
    ExampleEnd(s2);
    var run := [NewFd, Spawn, Yield, Dispatch];
    assert run[1..] == [Spawn, Yield, Dispatch] && run[1..][1..] == [Yield, Dispatch];
  }

  lemma ExampleEnd(s2: State)
    requires Inv(s2) && AtCall(s2) && s2.running == MAIN && s2.readyq == [1]
    requires 1 < |s2.objs| && s2.objs[1].mailbox == [] && s2.writes == {}
    ensures
      var run := [Yield, Dispatch];
      && Legal(s2, run)
      && (var s := Run(s2, run);
          && Inv(s) && s.readyq == [MAIN] && s.running == 1 && AtCall(s)
          && s.waitqs == s2.waitqs && s.writes == {} && s.objs[1].mailbox == [] && !s.objs[MAIN].inRecv)
  {
    assert 1 in s2.readyq && ActorOk(s2, 1);
    var s3 := Step(s2, Yield);
    StepKeepsInv(s2, Yield);
    assert s3.readyq == [1, MAIN];
    StepKeepsInv(s3, Dispatch);
    assert Step(s3, Dispatch).readyq == [MAIN];
    assert [Yield, Dispatch][1..] == [Dispatch] && [Dispatch][1..] == [];
  }

  /** It then blocks on a descriptor: a reachable state in which sherry_exit can never return. */
  lemma EventWaiterExample(n: nat)
    requires n > 1
    ensures
      var run := [NewFd, Spawn, Yield, Dispatch];
      && Legal(Init(n), run)
      && (var s := Run(Init(n), run);
          && Closed(s) && Enabled(s, Block(0))
          && (var t := Step(s, Block(0));
              Inv(t) && Exiting(t) && 1 < |t.objs| && t.objs[1].status == WaitEv))
  {
    ExampleStart(n);
    BlockKeepsInv(Run(Init(n), [NewFd, Spawn, Yield, Dispatch]), 0);
  }

  // ---------------------------------------------------------------- yield-only workloads

  /** Does actor o still yield r times or more? */
  predicate Lasts(b: seq<nat>, r: nat, o: nat) {
    o < |b| && b[o] >= r
  }

  /** The actors of `ids` that still have to be dispatched in round r, in the same order. */
  function Alive(ids: seq<nat>, b: seq<nat>, r: nat): seq<nat> {
    if ids == [] then [] else (if Lasts(b, r, ids[0]) then [ids[0]] else []) + Alive(ids[1..], b, r)
  }

  lemma {:induction false} AliveHas(ids: seq<nat>, b: seq<nat>, r: nat, o: nat)
    ensures o in Alive(ids, b, r) <==> o in ids && Lasts(b, r, o)
  {
    if ids != [] {
      AliveHas(ids[1..], b, r, o);
    }
  }

  /** The largest number of yields among the actors of `ids`. */
  function MaxYields(ids: seq<nat>, b: seq<nat>): (m: nat)
    requires InRange(ids, |b|)
    ensures forall o :: o in ids ==> b[o] <= m
    ensures ids != [] ==> exists o :: o in ids && b[o] == m
  {
    if ids == [] then 0
    else
      assert ids[0] in ids && forall o :: o in ids[1..] ==> o in ids;
      var m := MaxYields(ids[1..], b);
      if b[ids[0]] >= m || |ids| == 1 then b[ids[0]] else m
  }

  lemma NobodyBeyond(ids: seq<nat>, b: seq<nat>, r: nat)
    requires InRange(ids, |b|) && Alive(ids, b, r) != []
    ensures r <= MaxYields(ids, b)
  {
    AliveHas(ids, b, r, Alive(ids, b, r)[0]);
  }

  /** The dispatches from round r on: the live actors in spawn order, then the main actor. */
  function Rounds(ids: seq<nat>, b: seq<nat>, r: nat): seq<nat>
    requires InRange(ids, |b|)
    decreases MaxYields(ids, b) + 1 - r
  {
    if Alive(ids, b, r) == [] then []
    else
      NobodyBeyond(ids, b, r);
      Alive(ids, b, r) + [MAIN] + Rounds(ids, b, r + 1)
  }

  lemma {:induction false} CountConcat(s: seq<nat>, t: seq<nat>, o: nat)
    ensures Count(s + t, o) == Count(s, o) + Count(t, o)
  {
    if s == [] {
      assert s + t == t;
    } else {
      CountConcat(s[1..], t, o);
      assert (s + t)[1..] == s[1..] + t;
    }
  }

  lemma {:induction false} CountAlive(ids: seq<nat>, b: seq<nat>, r: nat, o: nat)
    ensures Count(Alive(ids, b, r), o) == if Lasts(b, r, o) then Count(ids, o) else 0
  {
    if ids != [] {
      CountAlive(ids[1..], b, r, o);
      CountConcat(if Lasts(b, r, ids[0]) then [ids[0]] else [], Alive(ids[1..], b, r), o);
    }
  }

  lemma SomeoneAlive(ids: seq<nat>, b: seq<nat>, r: nat, top: nat)
    requires InRange(ids, |b|) && top in ids && forall o :: o in ids ==> b[o] <= b[top]
    ensures Alive(ids, b, r) != [] <==> r <= b[top]
  {
    AliveHas(ids, b, r, top);
    if Alive(ids, b, r) != [] {
      AliveHas(ids, b, r, Alive(ids, b, r)[0]);
    }
  }

  lemma RoundCount(ids: seq<nat>, b: seq<nat>, r: nat, o: nat)
    requires InRange(ids, |b|) && NoDup(ids) && MAIN !in ids && o in ids
    ensures Count(Alive(ids, b, r), o) == if b[o] >= r then 1 else 0
    ensures Count(Alive(ids, b, r), MAIN) == 0
  {
    CountAlive(ids, b, r, o);
    CountOnce(ids, o);
    AliveHas(ids, b, r, MAIN);
    CountNone(Alive(ids, b, r), MAIN);
  }

  lemma Turn(ids: seq<nat>, b: seq<nat>, r: nat, o: nat, top: nat)
    requires InRange(ids, |b|) && NoDup(ids) && MAIN !in ids && o in ids
    requires top in ids && forall x :: x in ids ==> b[x] <= b[top]
    ensures Count(Rounds(ids, b, r), o) ==
              if r > b[top] then 0
              else (if b[o] >= r then 1 else 0) + Count(Rounds(ids, b, r + 1), o)
  {
    SomeoneAlive(ids, b, r, top);
    RoundCount(ids, b, r, o);
    RoundsStep(ids, b, r, o);
  }

  lemma {:induction false} TurnsFrom(ids: seq<nat>, b: seq<nat>, r: nat, o: nat, top: nat)
    requires InRange(ids, |b|) && NoDup(ids) && MAIN !in ids && o in ids
    requires top in ids && forall x :: x in ids ==> b[x] <= b[top]
    ensures Count(Rounds(ids, b, r), o) == if b[o] >= r then b[o] + 1 - r else 0
    decreases b[top] + 1 - r
  {
    if r <= b[top] {
      TurnsFrom(ids, b, r + 1, o, top);
    }
    assert b[o] <= b[top] && o != MAIN;
    Turn(ids, b, r, o, top);
  }

  lemma {:induction false} MainTurnsFrom(ids: seq<nat>, b: seq<nat>, r: nat, top: nat)
    requires InRange(ids, |b|) && NoDup(ids) && MAIN !in ids
    requires top in ids && forall x :: x in ids ==> b[x] <= b[top]
    ensures Count(Rounds(ids, b, r), MAIN) == if b[top] >= r then b[top] + 1 - r else 0
    decreases b[top] + 1 - r
  {
    SomeoneAlive(ids, b, r, top);
    RoundCount(ids, b, r, top);
    RoundsStep(ids, b, r, MAIN);
    if r <= b[top] {
      MainTurnsFrom(ids, b, r + 1, top);
    }
  }

  /**
   Each actor is dispatched once more than it yields, and the main actor once more than
   the longest-living one yields.
   */
  lemma RoundsCount(ids: seq<nat>, b: seq<nat>, o: nat)
    requires InRange(ids, |b|) && NoDup(ids) && MAIN !in ids && o in ids
    ensures Count(Rounds(ids, b, 0), o) == b[o] + 1
    ensures Count(Rounds(ids, b, 0), MAIN) == MaxYields(ids, b) + 1
  {
    var m := MaxYields(ids, b);
    var top :| top in ids && b[top] == m;
    TurnsFrom(ids, b, 0, o, top);
    MainTurnsFrom(ids, b, 0, top);
  }

  lemma RoundsStep(ids: seq<nat>, b: seq<nat>, r: nat, o: nat)
    requires InRange(ids, |b|)
    ensures
      var live := Alive(ids, b, r);
      Count(Rounds(ids, b, r), o) ==
        if live == [] then 0
        else Count(live, o) + (if o == MAIN then 1 else 0) + Count(Rounds(ids, b, r + 1), o)
  {
    CountRound(Alive(ids, b, r), Rounds(ids, b, r + 1), o);
  }

  lemma CountRound(live: seq<nat>, rest: seq<nat>, o: nat)
    ensures Count(live + [MAIN] + rest, o) == Count(live, o) + (if o == MAIN then 1 else 0) + Count(rest, o)
  {
    CountConcat(live + [MAIN], rest, o);
    CountConcat(live, [MAIN], o);
  }

  lemma {:induction false} CountNone(s: seq<nat>, o: nat)
    requires o !in s
    ensures Count(s, o) == 0
  {
    if s != [] {
      CountNone(s[1..], o);
    }
  }

  lemma {:induction false} AliveAppend(s: seq<nat>, t: seq<nat>, b: seq<nat>, r: nat)
    ensures Alive(s + t, b, r) == Alive(s, b, r) + Alive(t, b, r)
  {
    if s == [] {
      assert s + t == t;
    } else {
      assert (s + t)[1..] == s[1..] + t;
      AliveAppend(s[1..], t, b, r);
      Assoc(if Lasts(b, r, s[0]) then [s[0]] else [], Alive(s[1..], b, r), Alive(t, b, r));
    }
  }

  lemma {:induction false} AliveAtFirst(ids: seq<nat>, b: seq<nat>)
    requires InRange(ids, |b|)
    ensures Alive(ids, b, 0) == ids
  {
    if ids != [] {
      assert ids[0] in ids && forall x :: x in ids[1..] ==> x in ids;
      AliveAtFirst(ids[1..], b);
    }
  }

  /** Surviving round r means having survived the rounds before. */
  lemma {:induction false} AliveTwice(ids: seq<nat>, b: seq<nat>, r: nat)
    ensures Alive(Alive(ids, b, r), b, r + 1) == Alive(ids, b, r + 1)
  {
    if ids != [] {
      AliveTwice(ids[1..], b, r);
      AliveAppend(if Lasts(b, r, ids[0]) then [ids[0]] else [], Alive(ids[1..], b, r), b, r + 1);
      AliveOne(ids[0], b, r + 1);
    }
  }

  lemma AliveOne(o: nat, b: seq<nat>, r: nat)
    ensures Alive([o], b, r) == if Lasts(b, r, o) then [o] else []
  {
    assert Alive([o][1..], b, r) == [];
  }

  // ---------------------------------------------------------------- one round of the exit loop

  /** Nobody is suspended inside sherry_msg_recv. */
  predicate Calm(s: State) {
    forall o :: 0 <= o < |s.objs| ==> !s.objs[o].inRecv
  }

  ghost predicate Workload(s: State, ids: seq<nat>, b: seq<nat>) {
    |b| == |s.objs| && InRange(ids, |b|) && MAIN !in ids && Calm(s) && Reachable(s)
  }

  /** The main actor runs, and exactly the actors with r yields or more are left. */
  ghost predicate RoundStart(s: State, ids: seq<nat>, b: seq<nat>, r: nat) {
    && Workload(s, ids, b)
    && s.control == InActor && s.running == MAIN
    && s.readyq == Alive(ids, b, r)
    && s.curractors == 1 + |s.readyq|
  }

  /** The first i of the live actors have had their turn in round r. */
  ghost predicate InRound(s: State, live: seq<nat>, b: seq<nat>, r: nat, i: nat) {
    && Workload(s, live, b) && i <= |live|
    && s.control == InScheduler
    && s.readyq == live[i..] + [MAIN] + Alive(live[..i], b, r + 1)
    && s.curractors == |s.readyq|
  }

  lemma YieldEffect(d: State)
    requires Inv(d) && AtCall(d)
    ensures
      var t := YieldStep(d);
      && t.readyq == d.readyq + [d.running] && t.control == InScheduler
      && t.curractors == d.curractors && |t.objs| == |d.objs| && (Calm(d) ==> Calm(t))
  {
  }

  lemma FinishEffect(d: State)
    requires Inv(d) && Enabled(d, Finish)
    ensures
      var t := FinishStep(d);
      && t.readyq == d.readyq && t.control == InScheduler
      && t.curractors == d.curractors - 1 && t.objs == d.objs
  {
  }

  lemma DispatchEffect(s: State)
    requires Inv(s) && Enabled(s, Dispatch) && Calm(s)
    ensures s.readyq[0] < |s.objs|
    ensures
      var d := DispatchStep(s);
      && Inv(d) && AtCall(d) && Calm(d) && d.running == s.readyq[0] && d.readyq == s.readyq[1..]
      && |d.objs| == |s.objs| && d.curractors == s.curractors
  {
    assert s.readyq[0] in s.readyq;
    DispatchKeepsInv(s);
  }

  lemma BeginRound(s: State, ids: seq<nat>, b: seq<nat>, r: nat)
    requires RoundStart(s, ids, b, r)
    ensures Closed(s)
    ensures InRound(YieldStep(s), Alive(ids, b, r), b, r, 0)
  {
    ReachableInv(s);
    ReachableStep(s, Yield);
    YieldEffect(s);
    var live := Alive(ids, b, r);
    assert live[..0] == [] && live[0..] == live;
  }

  lemma AliveSnoc(live: seq<nat>, b: seq<nat>, r: nat, i: nat)
    requires i < |live|
    ensures Alive(live[..i + 1], b, r) == Alive(live[..i], b, r) + if Lasts(b, r, live[i]) then [live[i]] else []
  {
    Snoc(live, i);
    AliveAppend(live[..i], [live[i]], b, r);
    AliveOne(live[i], b, r);
  }

  lemma TurnQueue(q: seq<nat>, live: seq<nat>, b: seq<nat>, r: nat, i: nat)
    requires i < |live| && q == live[i..] + [MAIN] + Alive(live[..i], b, r)
    ensures q[0] == live[i]
    ensures q[1..] + (if Lasts(b, r, live[i]) then [live[i]] else [])
            == live[i + 1..] + [MAIN] + Alive(live[..i + 1], b, r)
  {
    AliveSnoc(live, b, r, i);
    assert live[i..] == [live[i]] + live[i + 1..];
  }

  /** The next live actor is dispatched. */
  lemma TakeTurn(s: State, live: seq<nat>, b: seq<nat>, r: nat, i: nat)
    requires InRound(s, live, b, r, i)
    ensures Closed(s) && s.readyq != []
    ensures s.readyq[0] == if i < |live| then live[i] else MAIN
    ensures Closed(DispatchStep(s)) && DispatchStep(s).running == s.readyq[0]
    ensures i < |live| ==> live[i] != MAIN && live[i] < |b|
  {
    ReachableInv(s);
    DispatchEffect(s);
    assert i < |live| ==> live[i] in live;
  }

  /** It goes to the end of the queue, or it finishes. */
  lemma EndTurn(s: State, live: seq<nat>, b: seq<nat>, r: nat, i: nat)
    requires InRound(s, live, b, r, i) && i < |live|
    ensures Closed(s) && s.readyq != [] && live[i] < |b|
    ensures
      var d := DispatchStep(s);
      && Closed(d)
      && (b[live[i]] > r ==> InRound(YieldStep(d), live, b, r, i + 1))
      && (b[live[i]] <= r ==> InRound(FinishStep(d), live, b, r, i + 1))
  {
    ReachableInv(s);
    ReachableStep(s, Dispatch);
    DispatchEffect(s);
    assert live[i] in live;
    TurnQueue(s.readyq, live, b, r + 1, i);
    var d := DispatchStep(s);
    if b[live[i]] > r {
      YieldEffect(d);
      ReachableStep(d, Yield);
    } else {
      FinishEffect(d);
      ReachableStep(d, Finish);
    }
  }

  lemma EndRound(s: State, ids: seq<nat>, b: seq<nat>, r: nat)
    requires InRange(ids, |b|) && MAIN !in ids
    requires InRound(s, Alive(ids, b, r), b, r, |Alive(ids, b, r)|)
    ensures Closed(s) && s.readyq != [] && RoundStart(DispatchStep(s), ids, b, r + 1)
  {
    var live := Alive(ids, b, r);
    assert live[..|live|] == live && live[|live|..] == [];
    AliveTwice(ids, b, r);
    assert s.readyq == [MAIN] + Alive(ids, b, r + 1);
    ReachableInv(s);
    ReachableStep(s, Dispatch);
    DispatchEffect(s);
  }
}
