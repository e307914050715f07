/**
 Actors that only call sherry_yield a number of times and return, as in examples/test.c,
 while the main actor is in sherry_exit. Such a script leaves the machine no choice, and
 every run that follows it dispatches the predicted rounds.
 */
module ExitScripts {
  import opened Sequences
  import opened ActorModel
  import opened ActorInvariant
  import opened ActorRuns
  import opened ActorExit

  // ---------------------------------------------------------------- scripts

  /**
   The main actor yields as long as somebody else is registered; actor o yields left[o]
   more times and then returns.
   */
  predicate Follows(s: State, a: Action, left: seq<nat>)
    requires Closed(s) && Enabled(s, a)
  {
    s.control == InActor ==>
      if s.running == MAIN then s.curractors > 1 && a == Yield
      else s.running < |left| && a == (if left[s.running] > 0 then Yield else Finish)
  }

  /** The yields that are left after the next step. */
  function Less(s: State, left: seq<nat>): (r: seq<nat>)
    ensures |r| == |left|
  {
    if s.control == InActor && s.running != MAIN && s.running < |left| && left[s.running] > 0 then
      left[s.running := left[s.running] - 1]
    else left
  }

  predicate Scripted(s: State, run: seq<Action>, left: seq<nat>)
    requires Legal(s, run)
    decreases |run|
  {
    run == [] || (Follows(s, run[0], left) && Scripted(Step(s, run[0]), run[1..], Less(s, left)))
  }

  function LeftAfter(s: State, run: seq<Action>, left: seq<nat>): seq<nat>
    requires Legal(s, run)
    decreases |run|
  {
    if run == [] then left else LeftAfter(Step(s, run[0]), run[1..], Less(s, left))
  }

  lemma {:induction false} ScriptedSnoc(s: State, run: seq<Action>, left: seq<nat>, a: Action)
    requires Legal(s, run) && Scripted(s, run, left)
    requires Closed(Run(s, run)) && Enabled(Run(s, run), a) && Follows(Run(s, run), a, LeftAfter(s, run, left))
    ensures Legal(s, run + [a]) && Scripted(s, run + [a], left)
    ensures LeftAfter(s, run + [a], left) == Less(Run(s, run), LeftAfter(s, run, left))
    decreases |run|
  {
    RunSnoc(s, run, a);
    if run == [] {
      assert run + [a] == [a] && [a][1..] == [];
    } else {
      ScriptedSnoc(Step(s, run[0]), run[1..], Less(s, left), a);
      assert (run + [a])[1..] == run[1..] + [a];
    }
  }

  /**
   How many times each actor will still yield, when the first i actors of `live` have had
   their turn in round r.
   */
  ghost predicate Remaining(left: seq<nat>, live: seq<nat>, b: seq<nat>, r: nat, i: nat) {
    && |left| == |b| && (forall k :: 0 <= k < |live| ==> live[k] < |b|)
    && (forall k :: 0 <= k < i && k < |live| && b[live[k]] > r ==> left[live[k]] == b[live[k]] - r - 1)
    && (forall k :: i <= k < |live| ==> b[live[k]] >= r && left[live[k]] == b[live[k]] - r)
  }

  lemma FirstRemaining(ids: seq<nat>, b: seq<nat>)
    requires InRange(ids, |b|)
    ensures Alive(ids, b, 0) == ids && Remaining(b, ids, b, 0, 0)
    ensures [] + Rounds(ids, b, 0) == Rounds(ids, b, 0)
  {
    AliveAtFirst(ids, b);
    forall k | 0 <= k < |ids| ensures ids[k] < |b| { assert ids[k] in ids; }
  }

  lemma NextRemaining(left: seq<nat>, ids: seq<nat>, b: seq<nat>, r: nat)
    requires InRange(ids, |b|)
    requires var live := Alive(ids, b, r); Remaining(left, live, b, r, |live|)
    ensures Remaining(left, Alive(ids, b, r + 1), b, r + 1, 0)
  {
    var live, next := Alive(ids, b, r), Alive(ids, b, r + 1);
    forall k | 0 <= k < |next|
      ensures next[k] < |b| && b[next[k]] >= r + 1 && left[next[k]] == b[next[k]] - (r + 1)
    {
      AliveHas(ids, b, r, next[k]);
      AliveHas(ids, b, r + 1, next[k]);
      var j :| 0 <= j < |live| && live[j] == next[k];
    }
  }

  lemma {:induction false} AliveNoDup(ids: seq<nat>, b: seq<nat>, r: nat)
    requires NoDup(ids)
    ensures NoDup(Alive(ids, b, r))
  {
    if ids != [] {
      AliveNoDup(ids[1..], b, r);
      AliveHas(ids[1..], b, r, ids[0]);
    }
  }

  // ---------------------------------------------------------------- stages of the loop

  /**
   Where the loops of sherry_exit and schdule are: the main actor runs at the start of
   round r, the i-th live actor of round r is to be dispatched, or it runs, dispatched in
   state `before`.
   */
  datatype Stage = MainRuns(r: nat) | Choosing(r: nat, i: nat) | ActorRuns(r: nat, i: nat, before: State)

  ghost predicate InTurn(s: State, left: seq<nat>, live: seq<nat>, b: seq<nat>, r: nat, i: nat) {
    i <= |live| && NoDup(live) && InRound(s, live, b, r, i) && Remaining(left, live, b, r, i)
  }

  ghost predicate AtStage(s: State, left: seq<nat>, ids: seq<nat>, b: seq<nat>, g: Stage)
  {
    && NoDup(ids) && InRange(ids, |b|) && MAIN !in ids
    && match g
       case MainRuns(r) => RoundStart(s, ids, b, r) && Remaining(left, Alive(ids, b, r), b, r, 0)
       case Choosing(r, i) => InTurn(s, left, Alive(ids, b, r), b, r, i)
       case ActorRuns(r, i, before) =>
         && i < |Alive(ids, b, r)| && InTurn(before, left, Alive(ids, b, r), b, r, i)
         && Closed(before) && before.readyq != [] && s == DispatchStep(before)
  }

  /** The dispatches still to come. */
  ghost function Future(ids: seq<nat>, b: seq<nat>, g: Stage): seq<nat>
    requires InRange(ids, |b|)
  {
    match g
    case MainRuns(r) => Rounds(ids, b, r)
    case Choosing(r, i) => FromTurn(Alive(ids, b, r), i, Rounds(ids, b, r + 1))
    case ActorRuns(r, i, _) => FromTurn(Alive(ids, b, r), i + 1, Rounds(ids, b, r + 1))
  }

  /** The rest of a round from turn i on, and the rounds after it. */
  ghost function FromTurn(live: seq<nat>, i: nat, later: seq<nat>): seq<nat> {
    (if i < |live| then live[i..] else []) + ([MAIN] + later)
  }

  lemma FromTurnStep(live: seq<nat>, i: nat, later: seq<nat>)
    requires i < |live|
    ensures [live[i]] + FromTurn(live, i + 1, later) == FromTurn(live, i, later)
  {
    var rest := if i + 1 < |live| then live[i + 1..] else [];
    assert live[i..] == [live[i]] + rest;
    Assoc([live[i]], rest, [MAIN] + later);
  }

  lemma FutureOfMain(ids: seq<nat>, b: seq<nat>, r: nat)
    requires InRange(ids, |b|) && Alive(ids, b, r) != []
    ensures Future(ids, b, MainRuns(r)) == Future(ids, b, Choosing(r, 0))
  {
    hide FromTurn;
    FromTurnStarts(Alive(ids, b, r), Rounds(ids, b, r + 1));
  }

  lemma FromTurnStarts(live: seq<nat>, later: seq<nat>)
    requires live != []
    ensures FromTurn(live, 0, later) == live + [MAIN] + later
  {
    assert live[0..] == live;
    Assoc(live, [MAIN], later);
  }

  lemma FutureOfLast(live: seq<nat>, i: nat, later: seq<nat>)
    requires i >= |live|
    ensures [MAIN] + later == FromTurn(live, i, later)
  {
  }

  lemma MainStep(s: State, left: seq<nat>, ids: seq<nat>, b: seq<nat>, r: nat)
    requires AtStage(s, left, ids, b, MainRuns(r)) && s.curractors > 1
    ensures Closed(s) && AtCall(s) && s.running == MAIN && Alive(ids, b, r) != []
    ensures AtStage(YieldStep(s), left, ids, b, Choosing(r, 0))
  {
    ReachableInv(s);
    BeginRound(s, ids, b, r);
    AliveNoDup(ids, b, r);
  }

  lemma NextTurn(s: State, left: seq<nat>, ids: seq<nat>, b: seq<nat>, r: nat, i: nat)
    requires AtStage(s, left, ids, b, Choosing(r, i)) && i < |Alive(ids, b, r)|
    ensures Closed(s) && s.control == InScheduler && s.readyq != [] && s.readyq[0] == Alive(ids, b, r)[i]
    ensures AtStage(DispatchStep(s), left, ids, b, ActorRuns(r, i, s))
  {
    TakeTurn(s, Alive(ids, b, r), b, r, i);
  }

  lemma LastTurn(s: State, left: seq<nat>, ids: seq<nat>, b: seq<nat>, r: nat)
    requires AtStage(s, left, ids, b, Choosing(r, |Alive(ids, b, r)|))
    ensures Closed(s) && s.control == InScheduler && s.readyq != [] && s.readyq[0] == MAIN
    ensures AtStage(DispatchStep(s), left, ids, b, MainRuns(r + 1))
  {
    var live := Alive(ids, b, r);
    TakeTurn(s, live, b, r, |live|);
    EndRound(s, ids, b, r);
    NextRemaining(left, ids, b, r);
  }

  lemma ActorStep(s: State, left: seq<nat>, ids: seq<nat>, b: seq<nat>, r: nat, i: nat, before: State)
    requires AtStage(s, left, ids, b, ActorRuns(r, i, before))
    ensures Closed(s) && s.control == InActor && s.running != MAIN && s.running < |left|
    ensures
      var t := if left[s.running] > 0 then YieldStep(s) else FinishStep(s);
      AtStage(t, Less(s, left), ids, b, Choosing(r, i + 1))
  {
    var live := Alive(ids, b, r);
    TakeTurn(before, live, b, r, i);
    EndTurn(before, live, b, r, i);
    TurnRemaining(left, Less(s, left), live, b, r, i);
  }

  /** One yield less for the actor whose turn it was, or none left. */
  lemma TurnRemaining(left: seq<nat>, left': seq<nat>, live: seq<nat>, b: seq<nat>, r: nat, i: nat)
    requires NoDup(live) && i < |live| && Remaining(left, live, b, r, i)
    requires left' == if left[live[i]] > 0 then left[live[i] := left[live[i]] - 1] else left
    ensures Remaining(left', live, b, r, i + 1)
  {
  }

  function NextStage(s: State, ids: seq<nat>, b: seq<nat>, g: Stage): Stage {
    match g
    case MainRuns(r) => Choosing(r, 0)
    case Choosing(r, i) => if i < |Alive(ids, b, r)| then ActorRuns(r, i, s) else MainRuns(r + 1)
    case ActorRuns(r, i, _) => Choosing(r, i + 1)
  }

  /** The actor dispatched next, if the scheduler loop is about to dispatch one. */
  function Chosen(ids: seq<nat>, b: seq<nat>, g: Stage): seq<nat> {
    match g
    case Choosing(r, i) => [if i < |Alive(ids, b, r)| then Alive(ids, b, r)[i] else MAIN]
    case _ => []
  }

  lemma StageAdvances(s: State, a: Action, left: seq<nat>, ids: seq<nat>, b: seq<nat>, g: Stage)
    requires AtStage(s, left, ids, b, g) && Closed(s) && Enabled(s, a) && Follows(s, a, left)
    ensures AtStage(Step(s, a), Less(s, left), ids, b, NextStage(s, ids, b, g))
    ensures DispatchedBy(s, a) == Chosen(ids, b, g)
    ensures g.MainRuns? ==> Alive(ids, b, g.r) != []
  {
    hide AtStage;
    match g
    case MainRuns(r) => MainAdvances(s, a, left, ids, b, r);
    case Choosing(r, i) => TurnAdvances(s, a, left, ids, b, r, i);
    case ActorRuns(r, i, before) => ActorAdvances(s, a, left, ids, b, r, i, before);
  }

  lemma MainAdvances(s: State, a: Action, left: seq<nat>, ids: seq<nat>, b: seq<nat>, r: nat)
    requires AtStage(s, left, ids, b, MainRuns(r)) && Closed(s) && Enabled(s, a) && Follows(s, a, left)
    ensures a == Yield && Alive(ids, b, r) != []
    ensures AtStage(Step(s, a), Less(s, left), ids, b, Choosing(r, 0))
  {
    MainStep(s, left, ids, b, r);
  }

  lemma TurnAdvances(s: State, a: Action, left: seq<nat>, ids: seq<nat>, b: seq<nat>, r: nat, i: nat)
    requires AtStage(s, left, ids, b, Choosing(r, i)) && Closed(s) && Enabled(s, a) && Follows(s, a, left)
    ensures
      var live := Alive(ids, b, r);
      && DispatchedBy(s, a) == [if i < |live| then live[i] else MAIN]
      && AtStage(Step(s, a), Less(s, left), ids, b, if i < |live| then ActorRuns(r, i, s) else MainRuns(r + 1))
  {
    if i < |Alive(ids, b, r)| {
      NextTurn(s, left, ids, b, r, i);
    } else {
      LastTurn(s, left, ids, b, r);
    }
  }

  lemma ActorAdvances(s: State, a: Action, left: seq<nat>, ids: seq<nat>, b: seq<nat>, r: nat, i: nat, before: State)
    requires AtStage(s, left, ids, b, ActorRuns(r, i, before)) && Closed(s) && Enabled(s, a) && Follows(s, a, left)
    ensures a.Yield? || a.Finish?
    ensures AtStage(Step(s, a), Less(s, left), ids, b, Choosing(r, i + 1))
  {
    ActorStep(s, left, ids, b, r, i, before);
  }

  /** A step that follows the script leads to the next stage; only dispatches use up the future. */
  lemma StageStep(s: State, a: Action, left: seq<nat>, ids: seq<nat>, b: seq<nat>, g: Stage) returns (g': Stage)
    requires AtStage(s, left, ids, b, g) && Closed(s) && Enabled(s, a) && Follows(s, a, left)
    requires InRange(ids, |b|)
    ensures AtStage(Step(s, a), Less(s, left), ids, b, g')
    ensures DispatchedBy(s, a) + Future(ids, b, g') == Future(ids, b, g)
  {
    hide AtStage, DispatchedBy, Follows, Less, Rounds, FromTurn, Alive, Step;
    StageAdvances(s, a, left, ids, b, g);
    g' := NextStage(s, ids, b, g);
    FutureStep(s, ids, b, g);
  }

  lemma FutureStep(s: State, ids: seq<nat>, b: seq<nat>, g: Stage)
    requires InRange(ids, |b|) && (g.MainRuns? ==> Alive(ids, b, g.r) != [])
    ensures Chosen(ids, b, g) + Future(ids, b, NextStage(s, ids, b, g)) == Future(ids, b, g)
  {
    hide Rounds, FromTurn;
    var f := Future(ids, b, NextStage(s, ids, b, g));
    assert [] + f == f;
    match g
    case MainRuns(r) => FutureOfMain(ids, b, r);
    case Choosing(r, i) =>
      if i < |Alive(ids, b, r)| {
        FromTurnStep(Alive(ids, b, r), i, Rounds(ids, b, r + 1));
      } else {
        FutureOfLast(Alive(ids, b, r), i, Rounds(ids, b, r + 1));
      }
    case ActorRuns(_, _, _) =>
  }

  lemma {:induction false} StagesOf(s: State, run: seq<Action>, left: seq<nat>, ids: seq<nat>, b: seq<nat>, g: Stage)
    returns (g': Stage)
    requires AtStage(s, left, ids, b, g) && Legal(s, run) && Scripted(s, run, left)
    ensures AtStage(Run(s, run), LeftAfter(s, run, left), ids, b, g')
    ensures Dispatched(s, run) + Future(ids, b, g') == Future(ids, b, g)
    decreases |run|
  {
    if run == [] {
      g' := g;
      assert [] + Future(ids, b, g') == Future(ids, b, g');
    } else {
      var g1 := StageStep(s, run[0], left, ids, b, g);
      var t := Step(s, run[0]);
      g' := StagesOf(t, run[1..], Less(s, left), ids, b, g1);
      Assoc(DispatchedBy(s, run[0]), Dispatched(t, run[1..]), Future(ids, b, g'));
    }
  }

  // ---------------------------------------------------------------- every run of the workload

  /** Freshly spawned actors, nobody else registered, and the main actor about to call sherry_exit. */
  ghost predicate Spawned(s: State, b: seq<nat>) {
    && Reachable(s) && Calm(s) && |b| == |s.objs| && InRange(s.readyq, |b|)
    && s.control == InActor && s.running == MAIN
    && s.curractors == 1 + |s.readyq|
  }

  lemma SpawnedStage(s: State, b: seq<nat>)
    requires Spawned(s, b)
    ensures AtStage(s, b, s.readyq, b, MainRuns(0))
  {
    ReachableInv(s);
    AliveAtFirst(s.readyq, b);
    FirstRemaining(s.readyq, b);
  }

  /** The loop of sherry_exit ends. */
  predicate LoopEnds(s: State) {
    s.control == InActor && s.running == MAIN && s.curractors <= 1
  }

  lemma StageEnds(s: State, left: seq<nat>, ids: seq<nat>, b: seq<nat>, g: Stage)
    requires AtStage(s, left, ids, b, g)
    ensures LoopEnds(s) <==> Future(ids, b, g) == []
    ensures LoopEnds(s) ==> s.curractors == 1 && s.readyq == []
    ensures !LoopEnds(s) ==> Closed(s) && exists a :: Enabled(s, a) && Follows(s, a, left)
  {
    match g
    case MainRuns(r) =>
      ReachableInv(s);
      if s.curractors > 1 {
        MainStep(s, left, ids, b, r);
        assert Enabled(s, Yield) && Follows(s, Yield, left);
      }
    case Choosing(r, i) =>
      TakeTurn(s, Alive(ids, b, r), b, r, i);
      assert Enabled(s, Dispatch) && Follows(s, Dispatch, left);
    case ActorRuns(r, i, before) =>
      ActorStep(s, left, ids, b, r, i, before);
      ActorAtCall(s, left, ids, b, r, i, before);
      var a := if left[s.running] > 0 then Yield else Finish;
      assert Enabled(s, a) && Follows(s, a, left);
  }

  lemma ActorAtCall(s: State, left: seq<nat>, ids: seq<nat>, b: seq<nat>, r: nat, i: nat, before: State)
    requires AtStage(s, left, ids, b, ActorRuns(r, i, before))
    ensures Closed(s) && AtCall(s)
  {
    ReachableInv(before);
    DispatchEffect(before);
  }

  /**
   Every run in which the main actor only yields and actor o yields b[o] times and returns
   dispatches a first part of the predicted rounds. It can go on until the loop of
   sherry_exit ends, it ends exactly when all rounds have been dispatched, and then only
   the main actor is left.
   */
  lemma EveryScriptedRun(s: State, run: seq<Action>, b: seq<nat>)
    requires Spawned(s, b) && Legal(s, run) && Scripted(s, run, b)
    ensures
      var t, all := Run(s, run), Rounds(s.readyq, b, 0);
      && Dispatched(s, run) <= all
      && (LoopEnds(t) <==> Dispatched(s, run) == all)
      && (LoopEnds(t) ==> t.curractors == 1 && t.readyq == [])
      && (!LoopEnds(t) ==> Closed(t) && exists a :: Enabled(t, a) && Follows(t, a, LeftAfter(s, run, b)))
  {
    SpawnedStage(s, b);
    var g := StagesOf(s, run, b, s.readyq, b, MainRuns(0));
    StageEnds(Run(s, run), LeftAfter(s, run, b), s.readyq, b, g);
    var d, f, all := Dispatched(s, run), Future(s.readyq, b, g), Rounds(s.readyq, b, 0);
    assert d + f == all;
    assert f == [] <==> d == all by {
      assert |d| + |f| == |all|;
    }
  }

  /** Between two dispatches there is one step, so no such run is longer than this. */
  lemma {:induction false} StepsAlternate(s: State, run: seq<Action>, left: seq<nat>,
                                          ids: seq<nat>, b: seq<nat>, g: Stage)
    requires AtStage(s, left, ids, b, g) && Legal(s, run) && Scripted(s, run, left)
    ensures |run| <= 2 * |Dispatched(s, run)| + (if s.control == InActor then 1 else 0)
    decreases |run|
  {
    if run != [] {
      var g1 := StageStep(s, run[0], left, ids, b, g);
      var t := Step(s, run[0]);
      StepsAlternate(t, run[1..], Less(s, left), ids, b, g1);
      SwitchEachStep(s, run[0], left, ids, b, g);
    }
  }

  lemma SwitchEachStep(s: State, a: Action, left: seq<nat>, ids: seq<nat>, b: seq<nat>, g: Stage)
    requires AtStage(s, left, ids, b, g) && Closed(s) && Enabled(s, a) && Follows(s, a, left)
    ensures s.control == InActor ==> Step(s, a).control == InScheduler
    ensures s.control != InActor ==> a.Dispatch?
  {
    match g
    case MainRuns(r) => MainStep(s, left, ids, b, r);
    case Choosing(r, i) => TakeTurn(s, Alive(ids, b, r), b, r, i);
    case ActorRuns(r, i, before) => ActorStep(s, left, ids, b, r, i, before);
  }

  lemma OneChoice(s: State, a: Action, a': Action, left: seq<nat>, ids: seq<nat>, b: seq<nat>, g: Stage)
    requires AtStage(s, left, ids, b, g) && Closed(s)
    requires Enabled(s, a) && Follows(s, a, left) && Enabled(s, a') && Follows(s, a', left)
    ensures a == a' && InRange(ids, |b|)
  {
    SwitchEachStep(s, a, left, ids, b, g);
    SwitchEachStep(s, a', left, ids, b, g);
  }

  lemma {:induction false} OneRunToTheEnd(s: State, run: seq<Action>, run': seq<Action>, left: seq<nat>,
                                          ids: seq<nat>, b: seq<nat>, g: Stage)
    requires AtStage(s, left, ids, b, g)
    requires Legal(s, run) && Scripted(s, run, left) && LoopEnds(Run(s, run))
    requires Legal(s, run') && Scripted(s, run', left) && LoopEnds(Run(s, run'))
    ensures run == run'
    decreases |run|
  {
    hide AtStage, Future;
    if run != [] && run' != [] {
      OneChoice(s, run[0], run'[0], left, ids, b, g);
      var g1 := StageStep(s, run[0], left, ids, b, g);
      OneRunToTheEnd(Step(s, run[0]), run[1..], run'[1..], Less(s, left), ids, b, g1);
      assert run == [run[0]] + run[1..] && run' == [run'[0]] + run'[1..];
    }
  }

  /** The script leaves no choice: there is one run to the end of the loop, and one state it ends in. */
  lemma OneEnd(s: State, run: seq<Action>, run': seq<Action>, b: seq<nat>)
    requires Spawned(s, b)
    requires Legal(s, run) && Scripted(s, run, b) && LoopEnds(Run(s, run))
    requires Legal(s, run') && Scripted(s, run', b) && LoopEnds(Run(s, run'))
    ensures run == run' && Run(s, run) == Run(s, run')
  {
    SpawnedStage(s, b);
    OneRunToTheEnd(s, run, run', b, s.readyq, b, MainRuns(0));
  }

  /** sherry_exit ends on this workload: no run is longer than two steps per dispatch and one more. */
  lemma ScriptedRunsEnd(s: State, run: seq<Action>, b: seq<nat>)
    requires Spawned(s, b) && Legal(s, run) && Scripted(s, run, b)
    ensures |run| <= 2 * |Rounds(s.readyq, b, 0)| + 1
  {
    SpawnedStage(s, b);
    EveryScriptedRun(s, run, b);
    StepsAlternate(s, run, b, s.readyq, b, MainRuns(0));
  }

  /** When the loop ends, actor o has been dispatched b[o] + 1 times and main 1 + max(b) times. */
  lemma TurnsAtTheEnd(s: State, run: seq<Action>, b: seq<nat>, o: nat)
    requires Spawned(s, b) && Legal(s, run) && Scripted(s, run, b) && LoopEnds(Run(s, run)) && o in s.readyq
    ensures Count(Dispatched(s, run), o) == b[o] + 1
    ensures Count(Dispatched(s, run), MAIN) == 1 + MaxYields(s.readyq, b)
  {
    SpawnedStage(s, b);
    EveryScriptedRun(s, run, b);
    RoundsCount(s.readyq, b, o);
  }

  // ---------------------------------------------------------------- from sherry_init on

  /** sherry_spawn, k times. */
  function Spawns(k: nat): (run: seq<Action>)
    ensures |run| == k
  {
    if k == 0 then [] else Spawns(k - 1) + [Spawn]
  }

  /** 1, 2, .., k: the objects spawned after main. */
  function Numbers(k: nat): (ids: seq<nat>)
    ensures |ids| == k
    ensures forall i :: 0 <= i < k ==> ids[i] == i + 1
    ensures forall o :: o in ids ==> 0 < o <= k
  {
    if k == 0 then [] else Numbers(k - 1) + [k]
  }

  /** The yields of main, which follows no script, and of the actors spawned. */
  function Script(rounds: seq<nat>): (b: seq<nat>)
    ensures |b| == |rounds| + 1
    ensures forall i :: 0 <= i < |rounds| ==> b[i + 1] == rounds[i]
  {
    [0] + rounds
  }

  /** k actors have been spawned since sherry_init, and the main actor is still running. */
  ghost predicate SpawnedMany(s: State, k: nat) {
    && Reachable(s) && Calm(s) && |s.objs| == k + 1
    && s.control == InActor && s.running == MAIN
    && s.readyq == Numbers(k) && s.curractors == k + 1
  }

  lemma InitIsAlone(n: nat)
    requires n > 0
    ensures SpawnedMany(Init(n), 0)
  {
    assert ReachedBy(Init(n), n, []);
  }

  lemma OneMoreSpawn(s: State, k: nat)
    requires SpawnedMany(s, k)
    ensures Closed(s) && Enabled(s, Spawn) && SpawnedMany(SpawnStep(s), k + 1)
  {
    ReachableInv(s);
    ReachableStep(s, Spawn);
    SpawnActors(s, SpawnStep(s));
    var t := SpawnStep(s);
    forall o | 0 <= o < |t.objs|
      ensures !t.objs[o].inRecv
    {
      assert o < |s.objs| ==> t.objs[o] == t.objs[..|s.objs|][o];
    }
  }

  lemma {:induction false} SpawnsLead(n: nat, k: nat)
    requires n > 0
    ensures Legal(Init(n), Spawns(k)) && SpawnedMany(Run(Init(n), Spawns(k)), k)
    decreases k
  {
    if k == 0 {
      InitIsAlone(n);
    } else {
      SpawnsLead(n, k - 1);
      OneMoreSpawn(Run(Init(n), Spawns(k - 1)), k - 1);
      RunSnoc(Init(n), Spawns(k - 1), Spawn);
    }
  }

  lemma ManyAreSpawned(s: State, rounds: seq<nat>)
    requires SpawnedMany(s, |rounds|)
    ensures Spawned(s, Script(rounds)) && NoDup(s.readyq)
  {
  }

  /** The dispatches after the spawns: the live actors in spawn order, then main, round by round. */
  function Plan(rounds: seq<nat>): seq<nat> {
    Rounds(Numbers(|rounds|), Script(rounds), 0)
  }

  /**
   The dispatches are a first part of the plan, the run is bounded and can go on until the
   loop of sherry_exit ends, and then the plan is done, actor i has been dispatched once
   more than its number of rounds, and nobody but main is left.
   */
  ghost predicate RunsToPlan(s: State, rounds: seq<nat>, run: seq<Action>)
    requires Legal(s, run)
  {
    var t, d := Run(s, run), Dispatched(s, run);
    && d <= Plan(rounds) && |run| <= 2 * |Plan(rounds)| + 1
    && (LoopEnds(t) <==> d == Plan(rounds))
    && (!LoopEnds(t) ==>
          Closed(t) && exists a :: Enabled(t, a) && Follows(t, a, LeftAfter(s, run, Script(rounds))))
    && (LoopEnds(t) ==>
          t.curractors == 1 && forall i :: 0 <= i < |rounds| ==> Count(d, i + 1) == rounds[i] + 1)
  }

  lemma ScriptGoesToPlan(s: State, rounds: seq<nat>, run: seq<Action>)
    requires SpawnedMany(s, |rounds|) && Legal(s, run) && Scripted(s, run, Script(rounds))
    ensures RunsToPlan(s, rounds, run)
  {
    ManyAreSpawned(s, rounds);
    EveryScriptedRun(s, run, Script(rounds));
    ScriptedRunsEnd(s, run, Script(rounds));
    if LoopEnds(Run(s, run)) {
      forall i | 0 <= i < |rounds|
        ensures Count(Dispatched(s, run), i + 1) == rounds[i] + 1
      {
        assert s.readyq[i] == i + 1;
        TurnsAtTheEnd(s, run, Script(rounds), i + 1);
      }
    }
  }

  /**
   The program of examples/test.c for any number of actors and rounds: initialise, spawn
   one actor per number of rounds, exit. Every run of it goes to plan.
   */
  lemma TestProgram(n: nat, rounds: seq<nat>, run: seq<Action>)
    requires n > 0
    ensures Legal(Init(n), Spawns(|rounds|))
    ensures
      var s := Run(Init(n), Spawns(|rounds|));
      Legal(s, run) && Scripted(s, run, Script(rounds)) ==> RunsToPlan(s, rounds, run)
  {
    SpawnsLead(n, |rounds|);
    var s := Run(Init(n), Spawns(|rounds|));
    if Legal(s, run) && Scripted(s, run, Script(rounds)) {
      ScriptGoesToPlan(s, rounds, run);
    }
  }
}
