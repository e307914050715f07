/**
 Small programs on the heap scheduler: what examples/test.c does with it, call by call.
 Every object a call creates is fresh, so the next call may be made with what the last one
 left.
 */
module Programs {
  import opened Options
  import opened ActorModel
  import opened ActorInvariant
  import opened ActorRuns
  import opened ActorExit
  import opened ExitScripts
  import opened Runtime
  import SherryExit

  /** All objects of the scheduler that its calls may change are fresh. */
  twostate predicate AllFresh(new sch: Scheduler)
    reads sch, sch.queues, sch.mail
  {
    && fresh(sch) && fresh(sch.actors) && fresh(sch.objs)
    && fresh(sch.queues) && fresh(sch.queues.lists) && fresh(sch.queues.pool)
    && fresh(sch.mail) && fresh(sch.mail.lists) && fresh(sch.mail.pool)
  }

  /** sherry_spawn for one more actor. */
  method SpawnNext(sch: Scheduler, ghost k: nat) returns (aid: int)
    requires sch.Valid() && SpawnedMany(sch.st, k)
    modifies sch`objs, sch`st, sch`actors, sch`curractors, sch.actors
    modifies sch.queues`nodeOf, sch.queues`pool, sch.queues`contents, sch.queues.lists, sch.queues.pool
    modifies sch.mail`lists, sch.mail`contents
    ensures sch.Valid() && SpawnedMany(sch.st, k + 1)
    ensures Closed(old(sch.st)) && sch.st == SpawnStep(old(sch.st)) && aid == FirstFree(old(sch.st).table)
    ensures sch.actors == old(sch.actors) || fresh(sch.actors)
    ensures OneMore(old(sch.objs), sch.objs) && fresh(sch.objs[old(|sch.objs|)])
    ensures fresh(sch.queues.pool - old(sch.queues.pool))
    ensures OneMore(old(sch.mail.lists), sch.mail.lists) && fresh(sch.mail.lists[old(|sch.mail.lists|)])
  {
    hide Scheduler.Valid;
    OneMoreSpawn(sch.st, k);
    aid := sch.Spawn();
  }

  /** sherry_init, and k actors spawned. */
  method SpawnAll(n: nat, k: nat) returns (sch: Scheduler)
    requires n > 0
    ensures AllFresh(sch) && sch.Valid() && SpawnedMany(sch.st, k)
  {
    hide Scheduler.Valid, SpawnedMany, Init;
    InitIsAlone(n);
    sch := Scheduler.SherryInit(n);
    SpawnMore(sch, k);
  }

  /** The calls of sherry_spawn, k times. */
  method SpawnMore(sch: Scheduler, k: nat)
    requires sch.Valid() && SpawnedMany(sch.st, 0)
    modifies sch`objs, sch`st, sch`actors, sch`curractors, sch.actors
    modifies sch.queues`nodeOf, sch.queues`pool, sch.queues`contents, sch.queues.lists, sch.queues.pool
    modifies sch.mail`lists, sch.mail`contents
    ensures sch.Valid() && SpawnedMany(sch.st, k)
    ensures Grown(sch)
  {
    hide Scheduler.Valid, SpawnedMany, OneMore, SpawnStep, FirstFree, Closed;
    var i := 0;
    while i < k
      invariant i <= k
      invariant sch.Valid() && SpawnedMany(sch.st, i)
      invariant Grown(sch)
    {
      ghost var objs, boxes := sch.objs, sch.mail.lists;
      var _ := SpawnNext(sch, i);
      PrefixGrows(old(sch.objs), objs, sch.objs);
      PrefixGrows(old(sch.mail.lists), boxes, sch.mail.lists);
      i := i + 1;
    }
  }

  lemma PrefixGrows<T>(a: seq<T>, b: seq<T>, c: seq<T>)
    requires a <= b && OneMore(b, c)
    ensures a <= c && |c| == |b| + 1 && forall i :: 0 <= i < |b| ==> c[i] == b[i]
  {
  }

  /** What there was is still there, and what has been added is fresh. */
  twostate predicate Grown(sch: Scheduler)
    reads sch, sch.queues, sch.mail
  {
    && (sch.actors == old(sch.actors) || fresh(sch.actors))
    && old(sch.objs) <= sch.objs && (forall i :: old(|sch.objs|) <= i < |sch.objs| ==> fresh(sch.objs[i]))
    && (forall n :: n in sch.queues.pool ==> n in old(sch.queues.pool) || fresh(n))
    && old(sch.mail.lists) <= sch.mail.lists
    && (forall i :: old(|sch.mail.lists|) <= i < |sch.mail.lists| ==> fresh(sch.mail.lists[i]))
  }

  /**
   test_simple of examples/test.c, for any number of actors and rounds: the dispatches are
   the plan, main yields one time more than the longest-living actor, and it is alone then.
   */
  method TestSimple(n: nat, rounds: seq<nat>) returns (sch: Scheduler, times: nat, log: seq<nat>)
    requires n > 0
    ensures AllFresh(sch) && sch.Valid() && LoopEnds(sch.st) && sch.curractors == 1
    ensures log == Plan(rounds)
    ensures times == if rounds == [] then 0 else 1 + MaxYields(Numbers(|rounds|), Script(rounds))
  {
    hide Scheduler.Valid, SpawnedMany, LoopEnds, Plan, MaxYields, Numbers, Script;
    sch := SpawnAll(n, |rounds|);
    times, log := ExitToPlan(sch, rounds);
  }

  /** sherry_exit after the spawns. */
  method ExitToPlan(sch: Scheduler, rounds: seq<nat>) returns (times: nat, log: seq<nat>)
    requires sch.Valid() && SpawnedMany(sch.st, |rounds|)
    modifies sch`st, sch`running, sch`curractors, sch.actors, sch.objs
    modifies sch.queues`contents, sch.queues.lists, sch.queues.pool
    ensures sch.Valid() && LoopEnds(sch.st) && sch.curractors == 1
    ensures log == Plan(rounds)
    ensures times == if rounds == [] then 0 else 1 + MaxYields(Numbers(|rounds|), Script(rounds))
  {
    hide Scheduler.Valid, SpawnedMany, Spawned, LoopEnds, Plan, Rounds, MaxYields;
    SpawnedReady(sch.st, rounds);
    times, log := SherryExit.Exit(sch, Script(rounds));
  }

  lemma SpawnedReady(s: State, rounds: seq<nat>)
    requires SpawnedMany(s, |rounds|)
    ensures Spawned(s, Script(rounds)) && s.readyq == Numbers(|rounds|)
    ensures Rounds(s.readyq, Script(rounds), 0) == Plan(rounds)
  {
    ManyAreSpawned(s, rounds);
  }

  // ---------------------------------------------------------------- test_message

  const PONG: nat := 1
  const PING: nat := 2
  const MSG_PING: int := 100

  /** Main, pong with id sid and ping are the actors; only pong has to do with messages. */
  ghost predicate Cast(s: State, sid: int) {
    && Reachable(s) && Closed(s) && |s.objs| == 3
    && 0 <= sid < |s.table| && s.table[sid] == Some(PONG) && s.objs[PONG].aid == sid
    && !s.objs[MAIN].inRecv && !s.objs[PING].inRecv
  }

  /** Who is where, what is in the mailbox of pong, and whether pong is inside sherry_msg_recv. */
  ghost predicate Scene(s: State, sid: int, readyq: seq<nat>, box: seq<Msg>, receiving: bool, n: int) {
    && Cast(s, sid) && s.readyq == readyq && s.curractors == n
    && s.objs[PONG].mailbox == box && s.objs[PONG].inRecv == receiving
  }

  ghost predicate Acts(s: State, o: nat) {
    s.control == InActor && s.running == o
  }

  lemma YieldScene(s: State, sid: int, readyq: seq<nat>, box: seq<Msg>, receiving: bool, n: int)
    requires Scene(s, sid, readyq, box, receiving, n) && Acts(s, MAIN)
    ensures Enabled(s, Yield)
    ensures
      var t := Step(s, Yield);
      Scene(t, sid, readyq + [MAIN], box, receiving, n) && t.control == InScheduler
  {
    ReachableInv(s);
    StepStaysReachable(s, Yield);
  }

  lemma DispatchScene(s: State, sid: int, readyq: seq<nat>, box: seq<Msg>, receiving: bool, n: int)
    requires Scene(s, sid, readyq, box, receiving, n) && s.control == InScheduler && readyq != []
    ensures Enabled(s, Dispatch)
    ensures
      var t := Scheduled(s);
      Scene(t, sid, readyq[1..], box, receiving, n) && Acts(t, readyq[0])
  {
    ReachableInv(s);
    assert s.readyq[0] in s.readyq;
    StepStaysReachable(s, Dispatch);
  }

  lemma RecvScene(s: State, sid: int, readyq: seq<nat>, n: int)
    requires Scene(s, sid, readyq, [], false, n) && Acts(s, PONG)
    ensures Enabled(s, Recv) && !Returns(s, Recv)
    ensures
      var t := Step(s, Recv);
      Scene(t, sid, readyq, [], true, n) && t.control == InScheduler
  {
    ReachableInv(s);
    StepStaysReachable(s, Recv);
  }

  /** What ping sends; it wakes pong exactly when it is the first message. */
  lemma SendScene(s: State, sid: int, readyq: seq<nat>, box: seq<Msg>, n: int)
    requires Scene(s, sid, readyq, box, true, n) && Acts(s, PING)
    ensures Enabled(s, Send(sid, MSG_PING, 0))
    ensures
      var t := Step(s, Send(sid, MSG_PING, 0));
      && Scene(t, sid, if box == [] then readyq + [PONG] else readyq,
               box + [Msg(s.objs[PING].aid, sid, MSG_PING, 0)], true, n)
      && Acts(t, PING) && t.objs[PING].aid == s.objs[PING].aid
  {
    ReachableInv(s);
    assert ActorOk(s, PONG);
    StepStaysReachable(s, Send(sid, MSG_PING, 0));
  }

  lemma FinishScene(s: State, sid: int, readyq: seq<nat>, box: seq<Msg>, receiving: bool, n: int)
    requires Scene(s, sid, readyq, box, receiving, n) && (Acts(s, PING) || (Acts(s, PONG) && !receiving))
    ensures Enabled(s, Finish)
    ensures
      var t := Step(s, Finish);
      && t.readyq == readyq && t.curractors == n - 1 && t.control == InScheduler
      && t.objs == s.objs && Reachable(t) && Closed(t)
      && (Acts(s, PING) ==> Scene(t, sid, readyq, box, receiving, n - 1))
  {
    ReachableInv(s);
    StepStaysReachable(s, Finish);
  }

  lemma ResumeScene(s: State, sid: int, readyq: seq<nat>, box: seq<Msg>, n: int)
    requires Scene(s, sid, readyq, box, true, n) && Acts(s, PONG) && box != []
    ensures Enabled(s, Resume) && Returned(s, Resume) == Some(box[0])
    ensures
      var t := Step(s, Resume);
      Scene(t, sid, readyq, box[1..], false, n) && Acts(t, PONG)
  {
    ReachableInv(s);
    StepStaysReachable(s, Resume);
  }

  /** The state after sherry_init and the two spawns. */
  lemma FirstScene(n: nat)
    requires n > 0
    ensures SpawnedMany(Init(n), 0)
    ensures
      var s1 := SpawnStep(Init(n));
      && SpawnedMany(s1, 1) && Closed(s1)
      && Scene(SpawnStep(s1), FirstFree(Init(n).table), [PONG, PING], [], false, 3)
      && Acts(SpawnStep(s1), MAIN)
  {
    var s0 := Init(n);
    InitIsAlone(n);
    OneMoreSpawn(s0, 0);
    var s1 := SpawnStep(s0);
    PongIsSpawned(s0);
    OneMoreSpawn(s1, 1);
    PingIsSpawned(s1, FirstFree(s0.table));
  }

  lemma PongIsSpawned(s: State)
    requires SpawnedMany(s, 0) && Closed(s)
    ensures
      var t, sid := SpawnStep(s), FirstFree(s.table);
      |t.objs| == 2 && t.objs[PONG].mailbox == [] && t.objs[PONG].aid == sid
      && sid < |t.table| && t.table[sid] == Some(PONG)
  {
    ReachableInv(s);
    RegisterOk(s.(objs := s.objs + [View(-1, Fresh, [], false)]), PONG);
  }

  lemma ReachableIsClosed(s: State)
    requires Reachable(s)
    ensures Closed(s)
  {
    ReachableInv(s);
  }

  lemma PingKeepsPong(s: State, sid: nat)
    requires SpawnedMany(s, 1) && Closed(s)
    requires s.objs[PONG].aid == sid < |s.table| && s.table[sid] == Some(PONG)
    ensures
      var t := SpawnStep(s);
      |t.objs| == 3 && t.objs[PONG] == s.objs[PONG] && sid < |t.table| && t.table[sid] == Some(PONG)
  {
    ReachableInv(s);
    var s0 := s.(objs := s.objs + [View(-1, Fresh, [], false)]);
    RegisterOk(s0, PING);
    assert s0.objs[PONG] == s.objs[PONG];
  }

  lemma PingIsSpawned(s: State, sid: nat)
    requires SpawnedMany(s, 1) && Closed(s) && SpawnedMany(SpawnStep(s), 2)
    requires s.objs[PONG].mailbox == [] && s.objs[PONG].aid == sid < |s.table| && s.table[sid] == Some(PONG)
    ensures Scene(SpawnStep(s), sid, [PONG, PING], [], false, 3)
  {
    var t := SpawnStep(s);
    PingKeepsPong(s, sid);
    ReachableIsClosed(t);
    hide SpawnStep, Reachable;
    assert Numbers(1) == [1] && Numbers(2) == [1] + [2];
  }

  /** Main waits in sherry_exit, pong is dispatched and waits for a message. */
  method PongWaits(sch: Scheduler, ghost sid: int)
    requires sch.Valid() && Scene(sch.st, sid, [PONG, PING], [], false, 3) && Acts(sch.st, MAIN)
    modifies sch`st, sch`running, sch.objs, sch.queues`contents, sch.queues.lists, sch.queues.pool
    modifies sch.mail`contents, sch.mail.lists, sch.mail.pool
    ensures sch.Valid() && Scene(sch.st, sid, [PING, MAIN], [], true, 3) && sch.st.control == InScheduler
  {
    hide Scheduler.Valid, Scene, Step, Scheduled;
    MainYields(sch, sid, [PONG, PING], [], false, 3);
    assert [PONG, PING] + [MAIN] == [PONG] + [PING, MAIN];
    NextActs(sch, sid, PONG, [PING, MAIN], [], false, 3);
    RecvScene(sch.st, sid, [PING, MAIN], 3);
    var _, _ := sch.MsgRecv();
  }

  /** Ping sends one message. */
  method SendPing(sch: Scheduler, sid: int, ghost readyq: seq<nat>, ghost box: seq<Msg>,
                  ghost readyq': seq<nat>, ghost box': seq<Msg>, ghost ping: int)
    requires sch.Valid() && Scene(sch.st, sid, readyq, box, true, 3) && Acts(sch.st, PING)
    requires |sch.st.objs| == 3 && sch.st.objs[PING].aid == ping
    requires readyq' == (if box == [] then readyq + [PONG] else readyq) && box' == box + [Msg(ping, sid, MSG_PING, 0)]
    modifies sch`st, sch.objs, sch.queues`contents, sch.queues.lists, sch.queues.pool
    modifies sch.mail, sch.mail.lists, sch.mail.pool
    ensures sch.mail.lists == old(sch.mail.lists) && fresh(sch.mail.pool - old(sch.mail.pool))
    ensures sch.Valid() && Acts(sch.st, PING) && Scene(sch.st, sid, readyq', box', true, 3)
    ensures |sch.st.objs| == 3 && sch.st.objs[PING].aid == ping
  {
    hide Scheduler.Valid, Scene, Step;
    SendScene(sch.st, sid, readyq, box, 3);
    sch.MsgSend(sid, MSG_PING, 0);
    PingId(sch.st, sid, readyq', box', true, 3);
  }

  /** Ping sends two messages, of which the first wakes pong, and returns. */
  method PingSends(sch: Scheduler, sid: int) returns (ghost ping: int)
    requires sch.Valid() && Scene(sch.st, sid, [PING, MAIN], [], true, 3) && sch.st.control == InScheduler
    modifies sch`st, sch`running, sch`curractors, sch.actors, sch.objs
    modifies sch.queues`contents, sch.queues.lists, sch.queues.pool, sch.mail, sch.mail.lists, sch.mail.pool
    ensures sch.mail.lists == old(sch.mail.lists) && fresh(sch.mail.pool - old(sch.mail.pool))
    ensures
      var m := Msg(ping, sid, MSG_PING, 0);
      sch.Valid() && Scene(sch.st, sid, [MAIN, PONG], [m, m], true, 2) && sch.st.control == InScheduler
  {
    hide Scheduler.Valid, Scene, Step, Scheduled, Acts;
    assert [PING, MAIN] == [PING] + [MAIN];
    NextActs(sch, sid, PING, [MAIN], [], true, 3);
    ping := SendTwice(sch, sid);
    ghost var m := Msg(ping, sid, MSG_PING, 0);
    PingEnds(sch, sid, [MAIN, PONG], [m, m]);
  }

  method PingEnds(sch: Scheduler, ghost sid: int, ghost readyq: seq<nat>, ghost box: seq<Msg>)
    requires sch.Valid() && Scene(sch.st, sid, readyq, box, true, 3) && Acts(sch.st, PING)
    modifies sch`st, sch`curractors, sch.actors
    ensures sch.Valid() && Scene(sch.st, sid, readyq, box, true, 2) && sch.st.control == InScheduler
  {
    hide Scheduler.Valid, Scene, Step;
    FinishScene(sch.st, sid, readyq, box, true, 3);
    sch.Finish();
  }

  method SendTwice(sch: Scheduler, sid: int) returns (ghost ping: int)
    requires sch.Valid() && Scene(sch.st, sid, [MAIN], [], true, 3) && Acts(sch.st, PING)
    modifies sch`st, sch.objs, sch.queues`contents, sch.queues.lists, sch.queues.pool
    modifies sch.mail, sch.mail.lists, sch.mail.pool
    ensures sch.mail.lists == old(sch.mail.lists) && fresh(sch.mail.pool - old(sch.mail.pool))
    ensures
      var m := Msg(ping, sid, MSG_PING, 0);
      sch.Valid() && Scene(sch.st, sid, [MAIN, PONG], [m, m], true, 3) && Acts(sch.st, PING)
  {
    hide Scheduler.Valid, Scene, Acts;
    PingId(sch.st, sid, [MAIN], [], true, 3);
    ping := sch.st.objs[PING].aid;
    ghost var m := Msg(ping, sid, MSG_PING, 0);
    SendPing(sch, sid, [MAIN], [], [MAIN, PONG], [m], ping);
    SendPing(sch, sid, [MAIN, PONG], [m], [MAIN, PONG], [m, m], ping);
  }

  /** schdule gives the processor to actor o. */
  method NextActs(sch: Scheduler, ghost sid: int, ghost o: nat, ghost rest: seq<nat>,
                  ghost box: seq<Msg>, ghost receiving: bool, ghost n: int)
    requires sch.Valid() && Scene(sch.st, sid, [o] + rest, box, receiving, n) && sch.st.control == InScheduler
    modifies sch`st, sch`running, sch.objs, sch.queues`contents, sch.queues.lists, sch.queues.pool
    ensures sch.Valid() && Scene(sch.st, sid, rest, box, receiving, n) && Acts(sch.st, o)
  {
    hide Scheduler.Valid, Scene, Step, Scheduled;
    DispatchScene(sch.st, sid, [o] + rest, box, receiving, n);
    assert ([o] + rest)[1..] == rest;
    var _ := sch.DispatchNext();
  }

  /** Main, in sherry_exit, yields. */
  method MainYields(sch: Scheduler, ghost sid: int, ghost readyq: seq<nat>,
                    ghost box: seq<Msg>, ghost receiving: bool, ghost n: int)
    requires sch.Valid() && Scene(sch.st, sid, readyq, box, receiving, n) && Acts(sch.st, MAIN)
    modifies sch`st, sch.objs, sch.queues`contents, sch.queues.lists, sch.queues.pool
    ensures sch.Valid() && Scene(sch.st, sid, readyq + [MAIN], box, receiving, n) && sch.st.control == InScheduler
  {
    hide Scheduler.Valid, Scene, Step;
    YieldScene(sch.st, sid, readyq, box, receiving, n);
    sch.Yield();
  }

  lemma PingId(s: State, sid: int, readyq: seq<nat>, box: seq<Msg>, receiving: bool, n: int)
    requires Scene(s, sid, readyq, box, receiving, n)
    ensures |s.objs| == 3
  {
  }

  /** Main yields again, pong gets the first message and returns, and main is alone. */
  method PongReturns(sch: Scheduler, ghost sid: int, ghost box: seq<Msg>) returns (m: Option<Msg>)
    requires sch.Valid() && Scene(sch.st, sid, [MAIN, PONG], box, true, 2) && sch.st.control == InScheduler
    requires box != []
    modifies sch`st, sch`running, sch`curractors, sch.actors, sch.objs
    modifies sch.queues`contents, sch.queues.lists, sch.queues.pool
    modifies sch.mail`contents, sch.mail.lists, sch.mail.pool
    ensures sch.Valid() && LoopEnds(sch.st) && sch.st.curractors == 1
    ensures m == Some(box[0]) && Mailbox(sch.st, PONG) == box[1..]
  {
    hide Scheduler.Valid, Scene, Step, Scheduled;
    assert [MAIN, PONG] == [MAIN] + [PONG] && [PONG, MAIN] == [PONG] + [MAIN];
    NextActs(sch, sid, MAIN, [PONG], box, true, 2);
    MainYields(sch, sid, [PONG], box, true, 2);
    NextActs(sch, sid, PONG, [MAIN], box, true, 2);
    ResumeScene(sch.st, sid, [MAIN], box, 2);
    m := sch.MsgRecvResume();
    PongEnds(sch, sid, box[1..]);
  }

  /** Pong returns, and main finds itself alone. */
  method PongEnds(sch: Scheduler, ghost sid: int, ghost box: seq<Msg>)
    requires sch.Valid() && Scene(sch.st, sid, [MAIN], box, false, 2) && Acts(sch.st, PONG)
    modifies sch`st, sch`running, sch`curractors, sch.actors, sch.objs
    modifies sch.queues`contents, sch.queues.lists, sch.queues.pool
    ensures sch.Valid() && LoopEnds(sch.st) && sch.st.curractors == 1
    ensures Mailbox(sch.st, PONG) == box
  {
    hide Scheduler.Valid, Scene, Step, Scheduled;
    FinishScene(sch.st, sid, [MAIN], box, false, 2);
    LastScene(sch.st, sid, [MAIN], box, 2);
    sch.Finish();
    var _ := sch.DispatchNext();
  }

  lemma LastScene(s: State, sid: int, readyq: seq<nat>, box: seq<Msg>, n: int)
    requires Scene(s, sid, readyq, box, false, n) && Acts(s, PONG) && readyq == [MAIN]
    ensures
      var t := Step(s, Finish);
      && Closed(t) && t.control == InScheduler && t.readyq == [MAIN]
      && (var u := Scheduled(t);
          Acts(u, MAIN) && u.curractors == n - 1 && Mailbox(u, PONG) == box)
  {
    FinishScene(s, sid, readyq, box, false, n);
  }

  /**
   test_message of examples/test.c: pong waits and gets the first of the two messages that
   ping sends it, the second stays in the mailbox of the finished actor, and sherry_exit
   ends.
   */
  method TestMessage(n: nat) returns (sch: Scheduler, sid: int, m: Option<Msg>)
    requires n > 0
    ensures AllFresh(sch) && sch.Valid() && LoopEnds(sch.st) && sch.st.curractors == 1
    ensures m.Some? && m.value.recver == sid && m.value.msgtype == MSG_PING
    ensures Mailbox(sch.st, PONG) == [m.value]
  {
    hide Scheduler.Valid, Scene, LoopEnds;
    sch, sid := PongAndPing(n);
    PongWaits(sch, sid);
    ghost var ping := PingSends(sch, sid);
    ghost var sent := Msg(ping, sid, MSG_PING, 0);
    m := PongReturns(sch, sid, [sent, sent]);
  }

  /** sherry_init and the two spawns. */
  method PongAndPing(n: nat) returns (sch: Scheduler, sid: int)
    requires n > 0
    ensures AllFresh(sch) && sch.Valid() && Scene(sch.st, sid, [PONG, PING], [], false, 3) && Acts(sch.st, MAIN)
  {
    hide Scheduler.Valid, Scene, SpawnedMany, Init, SpawnStep;
    FirstScene(n);
    sch := Scheduler.SherryInit(n);
    sid := SpawnNext(sch, 0);
    assert AllFresh(sch);
    var _ := SpawnNext(sch, 1);
  }

  // ---------------------------------------------------------------- waiting for a descriptor

  /** Main is the only actor; this is where it is. */
  ghost predicate Alone(s: State, control: Control, readyq: seq<nat>, waitqs: seq<seq<nat>>) {
    && Reachable(s) && Closed(s) && |s.objs| == 1 && !s.objs[MAIN].inRecv
    && s.control == control && s.running == MAIN && s.readyq == readyq && s.waitqs == waitqs
  }

  lemma InitAlone(n: nat)
    requires n > 0
    ensures Alone(Init(n), InActor, [], [])
  {
    InitInv(n);
    assert ReachedBy(Init(n), n, []);
  }

  lemma NewFdAlone(s: State, qs: seq<seq<nat>>)
    requires Alone(s, InActor, [], qs)
    ensures Enabled(s, NewFd) && Alone(Step(s, NewFd), InActor, [], qs + [[], []])
  {
    StepStaysReachable(s, NewFd);
  }

  lemma BlockAlone(s: State, qs: seq<seq<nat>>, q: nat)
    requires Alone(s, InActor, [], qs) && q < |qs| && qs[q] == []
    ensures Enabled(s, Block(q)) && Alone(Step(s, Block(q)), InScheduler, [], qs[q := [MAIN]])
  {
    StepStaysReachable(s, Block(q));
    assert [] + [MAIN] == [MAIN];
  }

  lemma PollAlone(s: State, qs: seq<seq<nat>>)
    requires Alone(s, InScheduler, [], qs)
    ensures Alone(Scheduled(s), InLoop, [], qs)
  {
    StepStaysReachable(s, Poll);
  }

  /** An event makes main ready if main waits on its queue, and does nothing otherwise. */
  lemma EventAlone(s: State, qs: seq<seq<nat>>, q: nat)
    requires Alone(s, InLoop, [], qs) && q < |qs| && q % 2 == 0 && (qs[q] == [] || qs[q] == [MAIN])
    ensures Enabled(s, Event(q)) && Alone(Step(s, Event(q)), InLoop, qs[q], qs[q := []])
  {
    StepStaysReachable(s, Event(q));
    ReachableInv(s);
    UnblockWakesAll(s, q);
    assert [] + qs[q] == qs[q];
  }

  lemma ReturnAlone(s: State, readyq: seq<nat>, qs: seq<seq<nat>>)
    requires Alone(s, InLoop, readyq, qs)
    ensures Enabled(s, LoopReturn) && Alone(Step(s, LoopReturn), InScheduler, readyq, qs)
  {
    StepStaysReachable(s, LoopReturn);
  }

  lemma RunAlone(s: State, qs: seq<seq<nat>>)
    requires Alone(s, InScheduler, [MAIN], qs)
    ensures Alone(Scheduled(s), InActor, [], qs)
  {
    StepStaysReachable(s, Dispatch);
  }

  /**
   Main opens two descriptors and waits on the second. An event of the first one leaves it
   asleep; the event of the second one makes it ready, and the scheduler loop resumes it.
   */
  method WaitForEvent(n: nat) returns (sch: Scheduler)
    requires n > 0
    ensures AllFresh(sch) && sch.Valid() && Alone(sch.st, InActor, [], [[], [], [], []])
  {
    hide Scheduler.Valid, Step, Scheduled, Init;
    sch := WaitOnSecondFd(n);
    PollOnce(sch, 0);
    PollOnce(sch, 2);
    RunAlone(sch.st, [[], [], [], []]);
    var _ := sch.DispatchNext();
  }

  /** sherry_init, two calls of fdnew and a block_fd. */
  method WaitOnSecondFd(n: nat) returns (sch: Scheduler)
    requires n > 0
    ensures AllFresh(sch) && sch.Valid() && Alone(sch.st, InScheduler, [], [[], [], [MAIN], []])
  {
    hide Scheduler.Valid, Alone, Step, Init;
    ghost var none: seq<seq<nat>> := [];
    InitAlone(n);
    sch := Scheduler.SherryInit(n);
    NewFdAlone(sch.st, none);
    var _ := sch.FdNew();
    assert AllFresh(sch);
    assert none + [[], []] == [[], []];
    NewFdAlone(sch.st, [[], []]);
    var _ := sch.FdNew();
    ghost var four: seq<seq<nat>> := [[], [], [], []];
    assert none + [[], []] + [[], []] == four;
    BlockAlone(sch.st, four, 2);
    assert four[2 := [MAIN]] == [[], [], [MAIN], []];
    sch.BlockFd(2);
  }

  /** The scheduler polls, the event of queue q occurs, and uv_run returns. */
  method PollOnce(sch: Scheduler, q: nat)
    requires sch.Valid() && Alone(sch.st, InScheduler, [], [[], [], [MAIN], []]) && (q == 0 || q == 2)
    modifies sch`st, sch`running, sch.objs, sch.queues`contents, sch.queues.lists, sch.queues.pool
    ensures sch.Valid()
    ensures q == 0 ==> Alone(sch.st, InScheduler, [], [[], [], [MAIN], []])
    ensures q == 2 ==> Alone(sch.st, InScheduler, [MAIN], [[], [], [], []])
  {
    hide Scheduler.Valid, Step, Scheduled;
    var qs: seq<seq<nat>> := [[], [], [MAIN], []];
    PollAlone(sch.st, qs);
    var polled := sch.DispatchNext();
    EventAlone(sch.st, qs, q);
    sch.ReadableCb(q);
    ReturnAlone(sch.st, qs[q], qs[q := []]);
    sch.LoopReturns();
  }
}
