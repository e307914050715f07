/**
 The loop of sherry_exit together with the loop of schdule, on the heap: the methods of
 Runtime.Scheduler are called as the main actor, the scheduler and actors that only call
 sherry_yield a number of times and return would call them.
 */
module SherryExit {
  import opened Sequences
  import opened ActorModel
  import opened ActorInvariant
  import opened ActorRuns
  import opened ActorExit
  import opened ExitScripts
  import opened Runtime

  /** s leads to t by a legal run of the script b in which the actors `log` are dispatched, in this order. */
  ghost predicate Leads(s: State, b: seq<nat>, t: State, left: seq<nat>, log: seq<nat>) {
    exists run: seq<Action> :: Via(s, b, run, t, left, log)
  }

  ghost predicate Via(s: State, b: seq<nat>, run: seq<Action>, t: State, left: seq<nat>, log: seq<nat>) {
    && Legal(s, run) && Scripted(s, run, b)
    && Run(s, run) == t && LeftAfter(s, run, b) == left && Dispatched(s, run) == log
  }

  lemma LeadsHere(s: State, b: seq<nat>)
    ensures Leads(s, b, s, b, [])
  {
    assert Via(s, b, [], s, b, []);
  }

  lemma LeadsOn(s: State, b: seq<nat>, t: State, left: seq<nat>, log: seq<nat>, a: Action)
    requires Leads(s, b, t, left, log) && Closed(t) && Enabled(t, a) && Follows(t, a, left)
    ensures Leads(s, b, Step(t, a), Less(t, left), log + DispatchedBy(t, a))
  {
    var run: seq<Action> :| Via(s, b, run, t, left, log);
    RunSnoc(s, run, a);
    DispatchedSnoc(s, run, a);
    ScriptedSnoc(s, run, b, a);
    assert Via(s, b, run + [a], Step(t, a), Less(t, left), log + DispatchedBy(t, a));
  }

  lemma DispatchLeads(start: State, b: seq<nat>, s: State, left: seq<nat>, log: seq<nat>)
    requires Reachable(s) && Calm(s) && s.control == InScheduler && s.readyq != [] && Leads(start, b, s, left, log)
    ensures Closed(s) && Closed(DispatchStep(s)) && AtCall(DispatchStep(s))
    ensures Leads(start, b, DispatchStep(s), left, log + [s.readyq[0]])
  {
    ReachableInv(s);
    DispatchEffect(s);
    LeadsOn(start, b, s, left, log, Dispatch);
  }

  /** The dispatched actor yields if it has yields left, and returns otherwise. */
  lemma ActorLeads(start: State, b: seq<nat>, d: State, left: seq<nat>, log: seq<nat>)
    requires Closed(d) && AtCall(d) && d.running != MAIN && d.running < |left| && Leads(start, b, d, left, log)
    ensures Leads(start, b, if left[d.running] > 0 then YieldStep(d) else FinishStep(d), Less(d, left), log)
  {
    LeadsOn(start, b, d, left, log, if left[d.running] > 0 then Yield else Finish);
    assert log + [] == log;
  }

  lemma MainLeads(start: State, b: seq<nat>, s: State, left: seq<nat>, log: seq<nat>)
    requires Leads(start, b, s, left, log) && Closed(s) && AtCall(s) && s.running == MAIN && s.curractors > 1
    ensures Leads(start, b, YieldStep(s), left, log)
  {
    LeadsOn(start, b, s, left, log, Yield);
    assert log + [] == log;
  }

  // ---------------------------------------------------------------- the two loops

  /** The function of the running actor goes on: it yields if it has yields left, and returns otherwise. */
  method GoOn(sch: Scheduler, left: seq<nat>) returns (left': seq<nat>)
    requires sch.Valid() && Closed(sch.st) && AtCall(sch.st)
    requires sch.st.running != MAIN && sch.st.running < |left|
    modifies sch`st, sch`curractors, sch.actors, sch.objs
    modifies sch.queues`contents, sch.queues.lists, sch.queues.pool
    ensures sch.Valid() && left' == Less(old(sch.st), left)
    ensures
      var d := old(sch.st);
      sch.st == if left[d.running] > 0 then YieldStep(d) else FinishStep(d)
  {
    hide Scheduler.Valid;
    sch.Represents();
    var o := sch.running.box;
    left' := left;
    if left[o] > 0 {
      left' := left[o := left[o] - 1];
      sch.Yield();
    } else {
      sch.Finish();
    }
  }

  /** The next dispatch of round r leads to the i-th live actor, or back to main. */
  lemma TurnBegins(s: State, left: seq<nat>, ids: seq<nat>, b: seq<nat>, r: nat, i: nat,
                   start: State, b0: seq<nat>, log: seq<nat>)
    requires AtStage(s, left, ids, b, Choosing(r, i)) && Leads(start, b0, s, left, log)
    ensures Closed(s) && s.control == InScheduler && s.readyq != [] && i <= |Alive(ids, b, r)|
    ensures
      var live, d := Alive(ids, b, r), DispatchStep(s);
      && Leads(start, b0, d, left, log + [d.running])
      && (if i < |live| then d.running == live[i] != MAIN && AtStage(d, left, ids, b, ActorRuns(r, i, s))
          else d.running == MAIN && AtStage(d, left, ids, b, MainRuns(r + 1)))
  {
    if i < |Alive(ids, b, r)| {
      NextTurn(s, left, ids, b, r, i);
      ActorStep(DispatchStep(s), left, ids, b, r, i, s);
    } else {
      LastTurn(s, left, ids, b, r);
    }
    DispatchLeads(start, b0, s, left, log);
  }

  /** The dispatched actor takes its one step of this round. */
  lemma TurnEnds(d: State, left: seq<nat>, ids: seq<nat>, b: seq<nat>, r: nat, i: nat, before: State,
                 start: State, b0: seq<nat>, log: seq<nat>)
    requires AtStage(d, left, ids, b, ActorRuns(r, i, before)) && Leads(start, b0, d, left, log)
    ensures Closed(d) && AtCall(d) && d.running != MAIN && d.running < |left|
    ensures
      var t := if left[d.running] > 0 then YieldStep(d) else FinishStep(d);
      AtStage(t, Less(d, left), ids, b, Choosing(r, i + 1)) && Leads(start, b0, t, Less(d, left), log)
  {
    ActorStep(d, left, ids, b, r, i, before);
    ActorAtCall(d, left, ids, b, r, i, before);
    ActorLeads(start, b0, d, left, log);
  }

  /** One turn of the loop in schdule: somebody is dispatched and runs to its next switch; true for main. */
  method Turn(sch: Scheduler, left: seq<nat>, ghost ids: seq<nat>, ghost b: seq<nat>, ghost r: nat, ghost i: nat,
              ghost start: State, ghost b0: seq<nat>, ghost log: seq<nat>)
    returns (main: bool, o: nat, left': seq<nat>)
    requires sch.Valid()
    requires AtStage(sch.st, left, ids, b, Choosing(r, i)) && Leads(start, b0, sch.st, left, log)
    modifies sch`st, sch`running, sch`curractors, sch.actors, sch.objs
    modifies sch.queues`contents, sch.queues.lists, sch.queues.pool
    ensures sch.Valid() && i <= |Alive(ids, b, r)|
    ensures main <==> i == |Alive(ids, b, r)|
    ensures o == if main then MAIN else Alive(ids, b, r)[i]
    ensures AtStage(sch.st, left', ids, b, if main then MainRuns(r + 1) else Choosing(r, i + 1))
    ensures Leads(start, b0, sch.st, left', log + [o])
  {
    hide Scheduler.Valid, AtStage, Leads;
    ghost var s := sch.st;
    TurnBegins(s, left, ids, b, r, i, start, b0, log);
    var _ := sch.DispatchNext();
    sch.Represents();
    o, main, left' := sch.running.box, sch.running == sch.main, left;
    if !main {
      TurnEnds(sch.st, left, ids, b, r, i, s, start, b0, log + [o]);
      left' := GoOn(sch, left);
    }
  }

  /** sherry_yield of the main actor, until schdule dispatches it again. */
  method YieldRound(sch: Scheduler, left0: seq<nat>, ghost ids: seq<nat>, ghost b: seq<nat>, ghost r: nat,
                    ghost start: State, ghost b0: seq<nat>, ghost past: seq<nat>)
    returns (left: seq<nat>, log: seq<nat>)
    requires sch.Valid() && sch.st.curractors > 1
    requires AtStage(sch.st, left0, ids, b, MainRuns(r)) && Leads(start, b0, sch.st, left0, past)
    modifies sch`st, sch`running, sch`curractors, sch.actors, sch.objs
    modifies sch.queues`contents, sch.queues.lists, sch.queues.pool
    ensures sch.Valid()
    ensures AtStage(sch.st, left, ids, b, MainRuns(r + 1)) && Leads(start, b0, sch.st, left, past + log)
    ensures log == Alive(ids, b, r) + [MAIN]
  {
    hide Scheduler.Valid, AtStage, Leads, Rounds, Alive;
    ghost var live := Alive(ids, b, r);
    MainStep(sch.st, left0, ids, b, r);
    MainLeads(start, b0, sch.st, left0, past);
    sch.Yield();
    left, log := left0, [];
    assert past + [] == past && live[..0] == [];
    ghost var i := 0;
    var back := false;
    while !back
      invariant sch.Valid() && i <= |live|
      invariant log == if back then live + [MAIN] else live[..i]
      invariant AtStage(sch.st, left, ids, b, if back then MainRuns(r + 1) else Choosing(r, i))
      invariant Leads(start, b0, sch.st, left, past + log)
      decreases |live| - i, !back
    {
      var o;
      ghost var before := past + log;
      back, o, left := Turn(sch, left, ids, b, r, i, start, b0, before);
      Assoc(past, log, [o]);
      if back {
        TakeAll(live);
      } else {
        Snoc(live, i);
        i := i + 1;
      }
      log := log + [o];
    }
  }

  /**
   sherry_exit with the actors of the ready queue freshly spawned and nobody else
   registered, where actor o yields b[o] times and returns. The main actor yields once
   more than the longest-living actor, the dispatches are the live actors in spawn order
   round after round, and in the end only the main actor is registered. All this happens
   in a legal run that follows the script; ExitScripts.EveryScriptedRun and OneEnd say that
   every such run is like this one.
   */
  method Exit(sch: Scheduler, b: seq<nat>) returns (rounds: nat, log: seq<nat>)
    requires sch.Valid() && Spawned(sch.st, b)
    modifies sch`st, sch`running, sch`curractors, sch.actors, sch.objs
    modifies sch.queues`contents, sch.queues.lists, sch.queues.pool
    ensures sch.Valid() && LoopEnds(sch.st)
    ensures sch.curractors == sch.st.curractors == 1 && sch.st.readyq == []
    ensures
      var ids := old(sch.st).readyq;
      && rounds == (if ids == [] then 0 else 1 + MaxYields(ids, b))
      && log == Rounds(ids, b, 0)
    ensures exists left :: Leads(old(sch.st), b, sch.st, left, log)
  {
    hide Scheduler.Valid, AtStage, Leads, Rounds, Alive, MaxYields;
    ghost var start, ids := sch.st, sch.st.readyq;
    SpawnedStage(start, b);
    LeadsHere(start, b);
    rounds, log := 0, [];
    var left := b;
    sch.Represents();
    assert [] + Rounds(ids, b, 0) == Rounds(ids, b, 0);
    hide Spawned;
    while sch.curractors > 1
      invariant sch.Valid() && sch.curractors == sch.st.curractors
      invariant AtStage(sch.st, left, ids, b, MainRuns(rounds))
      invariant log + Rounds(ids, b, rounds) == Rounds(ids, b, 0) && Leads(start, b, sch.st, left, log)
      invariant rounds <= if ids == [] then 0 else 1 + MaxYields(ids, b)
      decreases MaxYields(ids, b) + 1 - rounds
    {
      MainStep(sch.st, left, ids, b, rounds);
      SomeoneLeft(ids, b, rounds);
      OneRound(ids, b, rounds);
      ghost var rest := Rounds(ids, b, rounds + 1);
      var turns;
      left, turns := YieldRound(sch, left, ids, b, rounds, start, b, log);
      sch.Represents();
      Assoc(log, turns, rest);
      rounds, log := rounds + 1, log + turns;
    }
    AllRoundsDone(sch.st, left, ids, b, rounds);
    SomeoneLeft(ids, b, rounds);
    assert log + [] == log;
  }

  lemma OneRound(ids: seq<nat>, b: seq<nat>, r: nat)
    requires InRange(ids, |b|) && Alive(ids, b, r) != []
    ensures Rounds(ids, b, r) == (Alive(ids, b, r) + [MAIN]) + Rounds(ids, b, r + 1)
  {
  }

  lemma AllRoundsDone(s: State, left: seq<nat>, ids: seq<nat>, b: seq<nat>, r: nat)
    requires AtStage(s, left, ids, b, MainRuns(r)) && s.curractors <= 1
    ensures LoopEnds(s) && s.curractors == 1 && s.readyq == []
    ensures InRange(ids, |b|) && Alive(ids, b, r) == [] == Rounds(ids, b, r)
  {
    StageEnds(s, left, ids, b, MainRuns(r));
  }

  lemma SomeoneLeft(ids: seq<nat>, b: seq<nat>, r: nat)
    requires InRange(ids, |b|)
    ensures ids != [] ==> (Alive(ids, b, r) != [] <==> r <= MaxYields(ids, b))
    ensures ids == [] ==> Alive(ids, b, r) == []
  {
    if ids != [] {
      var m := MaxYields(ids, b);
      var top :| top in ids && b[top] == m;
      SomeoneAlive(ids, b, r, top);
    }
  }
}
