/**
 The scheduler of sherry.c over the heap: actors whose fields are updated in place, the
 growable table of actors, and the queues. Every method is one call of the source up to
 its context switch and is proved to make exactly the step of the state machine in
 ActorModel; the ghost field `st` is the value of that machine the objects represent.

 The queues are intrusive lists: list 0 of `queues` is the ready queue, list 1 holds the
 actors waiting for a message, and from list 2 on there are the wait queues of the
 descriptors. Each actor has one node for all of them. The mailboxes are intrusive lists of
 message nodes too: actor number o has list o of `mail`.
 */
module Runtime {
  import opened Options
  import opened ActorModel
  import opened ActorInvariant
  import opened ActorRuns
  import opened Queues
  import Lists

  /** struct actor; the context and the stack are not part of the model, the mailbox is list `box`. */
  class Actor {
    const box: nat
    var aid: int
    var status: Status

    /** new_actor */
    constructor (box: nat)
      ensures this.box == box && aid == -1 && status == Fresh
    {
      this.box := box;
      aid, status := -1, Fresh;
    }
  }

  /** struct msg_node */
  class Letter {
    const msg: Msg

    constructor (msg: Msg)
      ensures this.msg == msg
    {
      this.msg := msg;
    }
  }

  ghost predicate Carries(ls: seq<Letter>, box: seq<Msg>) {
    |ls| == |box| && forall i :: 0 <= i < |box| ==> ls[i].msg == box[i]
  }

  /** The mailboxes of all actors, as lists of letters. */
  ghost predicate AllCarry(ls: seq<seq<Letter>>, views: seq<View>) {
    |ls| == |views| && forall o :: 0 <= o < |views| ==> Carries(ls[o], views[o].mailbox)
  }

  lemma CarriesMore(ls: seq<seq<Letter>>, views: seq<View>, o: nat, l: Letter, v: View)
    requires AllCarry(ls, views) && o < |views| && v.mailbox == views[o].mailbox + [l.msg]
    ensures o < |ls| && AllCarry(ls[o := ls[o] + [l]], views[o := v])
  {
    assert Carries(ls[o], views[o].mailbox);
  }

  lemma CarriesNew(ls: seq<seq<Letter>>, views: seq<View>, v: View)
    requires AllCarry(ls, views) && v.mailbox == []
    ensures |ls| == |views| && AllCarry(ls + [[]], views + [v])
  {
    forall o | 0 <= o < |views| + 1
      ensures Carries((ls + [[]])[o], (views + [v])[o].mailbox)
    {
      assert o < |views| ==> Carries(ls[o], views[o].mailbox);
    }
  }

  lemma CarriesFirst(ls: seq<seq<Letter>>, views: seq<View>, o: nat, v: View)
    requires AllCarry(ls, views) && o < |views| && views[o].mailbox != [] && v.mailbox == views[o].mailbox[1..]
    ensures o < |ls| && ls[o] != [] && ls[o][0].msg == views[o].mailbox[0]
    ensures AllCarry(ls[o := ls[o][1..]], views[o := v])
  {
    assert Carries(ls[o], views[o].mailbox);
  }

  /** The lists are as they were, except that a is the new last element of list k. */
  predicate Joined<T(==)>(was: seq<seq<T>>, now: seq<seq<T>>, k: nat, a: T) {
    k < |was| && now == was[k := was[k] + [a]]
  }

  /** The elements of list k have gone to the end of list j, in order; the other lists are as they were. */
  predicate Emptied<T(==)>(was: seq<seq<T>>, now: seq<seq<T>>, k: nat, j: nat) {
    k < |was| && j < |was| && now == was[j := was[j] + was[k]][k := []]
  }

  predicate OneMore<T(==)>(was: seq<T>, now: seq<T>) {
    |now| == |was| + 1 && was <= now
  }

  const READYQ: nat := 0
  const WAITINGMSG: nat := 1
  const WAITQS: nat := 2

  /** All queues of a state, numbered as the lists are. */
  ghost function QueuesOf(s: State): seq<seq<nat>> {
    [s.readyq, s.waitingmsg] + s.waitqs
  }

  ghost function WithQueue(s: State, k: nat, q: seq<nat>): (t: State)
    requires k < |QueuesOf(s)|
    ensures QueuesOf(t) == QueuesOf(s)[k := q]
    ensures t == s.(readyq := t.readyq, waitingmsg := t.waitingmsg, waitqs := t.waitqs)
  {
    if k == READYQ then s.(readyq := q)
    else if k == WAITINGMSG then s.(waitingmsg := q)
    else s.(waitqs := s.waitqs[k - WAITQS := q])
  }

  /** The sequence q of actors is the sequence n of object names. */
  ghost predicate Named(q: seq<Actor>, n: seq<nat>, objs: seq<Actor>) {
    |q| == |n| && forall i :: 0 <= i < |n| ==> n[i] < |objs| && q[i] == objs[n[i]]
  }

  ghost predicate AllNamed(qs: seq<seq<Actor>>, ns: seq<seq<nat>>, objs: seq<Actor>) {
    |qs| == |ns| && forall k :: 0 <= k < |ns| ==> Named(qs[k], ns[k], objs)
  }

  lemma NamedAppended(qs: seq<seq<Actor>>, ns: seq<seq<nat>>, objs: seq<Actor>, k: nat, o: nat)
    requires AllNamed(qs, ns, objs) && k < |ns| && o < |objs|
    ensures k < |qs| && AllNamed(qs[k := qs[k] + [objs[o]]], ns[k := ns[k] + [o]], objs)
  {
    assert Named(qs[k], ns[k], objs);
  }

  lemma NamedFirst(qs: seq<seq<Actor>>, ns: seq<seq<nat>>, objs: seq<Actor>, k: nat)
    requires AllNamed(qs, ns, objs) && k < |ns| && ns[k] != []
    ensures k < |qs| && qs[k] != [] && ns[k][0] < |objs| && qs[k][0] == objs[ns[k][0]]
    ensures AllNamed(qs[k := qs[k][1..]], ns[k := ns[k][1..]], objs)
  {
    assert Named(qs[k], ns[k], objs);
  }

  lemma WithoutAt(s: seq<nat>, x: nat) returns (i: nat)
    requires x in s
    ensures i < |s| && s[i] == x && Without(s, x) == s[..i] + s[i + 1..]
  {
    i := IndexOf(s, x);
  }

  /** When the names move, so do the actors. */
  lemma NamedEmptied(was: seq<seq<Actor>>, now: seq<seq<Actor>>, ns: seq<seq<nat>>, ms: seq<seq<nat>>,
                     objs: seq<Actor>, k: nat, j: nat)
    requires AllNamed(was, ns, objs) && AllNamed(now, ms, objs) && j != k && Emptied(ns, ms, k, j)
    ensures Emptied(was, now, k, j)
  {
    forall i | 0 <= i < |ns|
      ensures now[i] == was[j := was[j] + was[k]][k := []][i]
    {
      assert Named(was[i], ns[i], objs) && Named(now[i], ms[i], objs);
      assert Named(was[k], ns[k], objs);
    }
  }

  lemma NamedErased(qs: seq<seq<Actor>>, ns: seq<seq<nat>>, objs: seq<Actor>, k: nat, i: nat)
    requires AllNamed(qs, ns, objs) && k < |ns| && i < |ns[k]|
    ensures k < |qs| && i < |qs[k]| && ns[k][i] < |objs| && qs[k][i] == objs[ns[k][i]]
    ensures AllNamed(qs[k := qs[k][..i] + qs[k][i + 1..]], ns[k := ns[k][..i] + ns[k][i + 1..]], objs)
  {
    assert Named(qs[k], ns[k], objs);
  }

  lemma NamedMore(qs: seq<seq<Actor>>, ns: seq<seq<nat>>, objs: seq<Actor>, a: Actor)
    requires AllNamed(qs, ns, objs)
    ensures AllNamed(qs, ns, objs + [a])
  {
    forall k | 0 <= k < |ns|
      ensures Named(qs[k], ns[k], objs + [a])
    {
      assert Named(qs[k], ns[k], objs);
    }
  }

  /** An actor is on a list exactly when its name is on the queue. */
  lemma NamesAreListed(qs: seq<seq<Actor>>, ns: seq<seq<nat>>, objs: seq<Actor>, o: nat)
    requires AllNamed(qs, ns, objs) && Lists.Distinct(objs) && o < |objs|
    ensures In(qs, objs[o]) <==> In(ns, o)
  {
    if In(ns, o) {
      var k :| 0 <= k < |ns| && o in ns[k];
      assert Named(qs[k], ns[k], objs);
      assert objs[o] in qs[k];
    }
    if In(qs, objs[o]) {
      var k :| 0 <= k < |qs| && objs[o] in qs[k];
      assert Named(qs[k], ns[k], objs);
      assert o in ns[k];
    }
  }

  /** The actor named o is on no list: what list_insert needs of its node. */
  ghost predicate Unlinked(s: State, o: nat) {
    !In(QueuesOf(s), o)
  }

  lemma UnlinkedIs(s: State, o: nat)
    requires o !in s.readyq && o !in s.waitingmsg && !OnWaitq(s, o)
    ensures Unlinked(s, o)
  {
    if k :| 0 <= k < |QueuesOf(s)| && o in QueuesOf(s)[k] {
      assert k >= WAITQS ==> o in s.waitqs[k - WAITQS];
    }
  }

  lemma StepStaysReachable(s: State, a: Action)
    requires Reachable(s) && Closed(s) && Enabled(s, a)
    ensures Reachable(Step(s, a)) && Closed(Step(s, a))
  {
    ReachableStep(s, a);
    ReachableInv(Step(s, a));
  }

  lemma WaiterIsOnlyWaiting(s: State, o: nat)
    requires Reachable(s) && o < |s.objs| && s.objs[o].status == WaitMsg
    ensures o in s.waitingmsg && NoDup(s.waitingmsg)
    ensures Unlinked(WithQueue(s, WAITINGMSG, Without(s.waitingmsg, o)), o)
  {
    ReachableInv(s);
    UnlinkedIs(WithQueue(s, WAITINGMSG, Without(s.waitingmsg, o)), o);
  }

  lemma RunnerIsUnlinked(s: State)
    requires Reachable(s) && Closed(s) && s.control == InActor
    ensures Unlinked(s, s.running) && s.objs[s.running].status == Running
  {
    ReachableInv(s);
    UnlinkedIs(s, s.running);
  }

  lemma SpawnedIsUnlinked(s: State)
    requires Closed(s)
    ensures Unlinked(s, |s.objs|)
  {
    UnlinkedIs(s, |s.objs|);
  }

  lemma WriterIsUnlinked(s: State, o: nat)
    requires Reachable(s) && o in s.writes
    ensures o < |s.objs| && Unlinked(s, o)
  {
    ReachableInv(s);
    UnlinkedIs(s, o);
  }

  /** What sherry_msg_send does to its receiver. */
  function Delivered(s: State, o: nat, m: Msg): State
    requires o < |s.objs|
  {
    var v := s.objs[o];
    var s1 := s.(objs := s.objs[o := v.(mailbox := v.mailbox + [m])]);
    if v.status == WaitMsg then ActorModel.SetReady(s1.(waitingmsg := Without(s.waitingmsg, o)), o) else s1
  }

  /** One turn of the loop in schdule. */
  function Scheduled(s: State): State
    requires Closed(s) && s.control == InScheduler
  {
    Step(s, if s.readyq == [] then Poll else Dispatch)
  }

  lemma ResumeFindsMessage(s: State)
    requires Reachable(s) && Closed(s) && Enabled(s, Resume)
    ensures s.objs[s.running].mailbox != []
  {
    ReachableInv(s);
    assert ActorOk(s, s.running);
  }

  /** The actors on wait queue q are there once, and on no other queue. */
  ghost predicate AllBlocked(s: State, q: nat) {
    && q < |s.waitqs| && InRange(s.waitqs[q], |s.objs|) && NoDup(s.waitqs[q])
    && (forall o :: o in s.waitqs[q] ==>
          && s.objs[o].status == WaitEv && o !in s.readyq && o !in s.waitingmsg
          && (forall p :: 0 <= p < |s.waitqs| && p != q ==> o !in s.waitqs[p]))
  }

  lemma NextBlocked(s: State, q: nat)
    requires AllBlocked(s, q) && s.waitqs[q] != []
    ensures
      var o := s.waitqs[q][0];
      o < |s.objs| && Unlinked(WithQueue(s, WAITQS + q, s.waitqs[q][1..]), o)
    ensures AllBlocked(UnblockHead(s, q), q)
  {
    var o := s.waitqs[q][0];
    assert o in s.waitqs[q] && forall x :: x in s.waitqs[q][1..] ==> x in s.waitqs[q] && x != o;
    UnlinkedIs(WithQueue(s, WAITQS + q, s.waitqs[q][1..]), o);
  }

  lemma EventBlocked(s: State, q: nat)
    requires Reachable(s) && q < |s.waitqs|
    ensures AllBlocked(s, q)
  {
    ReachableInv(s);
    forall o | o in s.waitqs[q]
      ensures o < |s.objs| && s.objs[o].status == WaitEv
    {
      assert OnWaitq(s, o);
    }
  }

  lemma QueueEmptied(readyq: seq<nat>, waitingmsg: seq<nat>, qs: seq<seq<nat>>, q: nat)
    requires q < |qs|
    ensures Emptied([readyq, waitingmsg] + qs, [readyq + qs[q], waitingmsg] + qs[q := []], WAITQS + q, READYQ)
  {
  }

  lemma EventMovesNames(s: State, q: nat)
    requires Reachable(s) && Closed(s) && Enabled(s, Event(q))
    ensures Emptied(QueuesOf(s), QueuesOf(Step(s, Event(q))), WAITQS + q, READYQ)
  {
    hide Inv, Emptied;
    ReachableInv(s);
    UnblockWakesAll(s, q);
    QueueEmptied(s.readyq, s.waitingmsg, s.waitqs, q);
  }

  lemma WaitqsArePaired(s: State)
    requires Reachable(s)
    ensures |s.waitqs| % 2 == 0
  {
    ReachableInv(s);
  }

  class Scheduler {
    var actors: array<Actor?>
    var curractors: int
    var main: Actor
    var running: Actor
    var writers: set<Actor>
    const queues: QueueSet<Actor>
    const mail: QueueSet<Letter>

    ghost var st: State
    ghost var objs: seq<Actor>

    // ------------------------------------------------------------ the coupling

    ghost predicate Mirrors(a: Actor, v: View, o: nat)
      reads a
    {
      a.aid == v.aid && a.status == v.status && a.box == o
    }

    /** The actor objects, in order of creation, have the recorded ids and states. */
    ghost predicate ObjectsAre(views: seq<View>)
      reads this`objs, objs
    {
      && |objs| == |views| && Lists.Distinct(objs)
      && (forall o :: 0 <= o < |objs| ==> Mirrors(objs[o], views[o], o))
    }

    ghost predicate RolesAre(o: nat)
      reads this`objs, this`running, this`main
    {
      o < |objs| && running == objs[o] && MAIN < |objs| && main == objs[MAIN]
    }

    ghost predicate WritersAre(os: set<nat>)
      reads this`objs, this`writers
    {
      && (forall o :: 0 <= o < |objs| ==> (o in os <==> objs[o] in writers))
      && (forall a :: a in writers ==> a in objs)
    }

    ghost predicate SlotIs(a: Actor?, slot: Option<nat>)
      reads this`objs
    {
      match slot
      case None => a == null
      case Some(o) => o < |objs| && a == objs[o]
    }

    ghost predicate TableIs(table: seq<Option<nat>>, n: int)
      reads this`objs, this`actors, this`curractors, actors
    {
      && curractors == n && actors.Length == |table|
      && (forall i :: 0 <= i < |table| ==> SlotIs(actors[i], table[i]))
    }

    /** The objects represent the state `st`. */
    ghost predicate Coupled()
      reads this, objs, actors, queues`contents, mail`contents
    {
      && ObjectsAre(st.objs) && RolesAre(st.running) && WritersAre(st.writes)
      && TableIs(st.table, st.curractors)
      && AllNamed(queues.contents, QueuesOf(st), objs)
      && AllCarry(mail.contents, st.objs)
    }

    /** The lists are well formed, and every actor has its node. */
    ghost predicate Sound()
      reads this`objs, queues, queues.lists, queues.pool, mail, mail.lists, mail.pool
    {
      queues.Valid() && mail.Valid() && forall a :: a in objs ==> a in queues.nodeOf
    }

    ghost predicate Valid()
      reads this, objs, actors, queues, queues.lists, queues.pool, mail, mail.lists, mail.pool
    {
      Coupled() && Sound() && Closed(st) && Reachable(st)
    }

    /** The empty ready and waiting queues, and the node of the main actor. */
    static method MainQueues(m: Actor) returns (qs: QueueSet<Actor>)
      ensures fresh(qs) && fresh(qs.lists) && fresh(qs.pool)
      ensures qs.Valid() && qs.contents == [[], []] && m in qs.nodeOf
    {
      hide QueueSet.Valid;
      qs := new QueueSet<Actor>();
      qs.AddList();
      qs.AddList();
      qs.Adopt(m);
    }

    static method MainMailbox() returns (mail: QueueSet<Letter>)
      ensures fresh(mail) && fresh(mail.lists) && fresh(mail.pool)
      ensures mail.Valid() && mail.contents == [[]]
    {
      hide QueueSet.Valid;
      mail := new QueueSet<Letter>();
      mail.AddList();
    }

    /** The scheduler before its main actor is registered. */
    constructor (table: array<Actor?>, m: Actor, qs: QueueSet<Actor>, boxes: QueueSet<Letter>)
      requires table.Length > 0 && forall i :: 0 <= i < table.Length ==> table[i] == null
      requires m.aid == -1 && m.status == Fresh && m.box == 0
      requires qs.Valid() && qs.contents == [[], []] && m in qs.nodeOf
      requires boxes.Valid() && boxes.contents == [[]]
      ensures Coupled() && Sound() && st == Blank(table.Length)
      ensures actors == table && objs == [m] && main == m && queues == qs && mail == boxes
    {
      actors, curractors := table, 0;
      main, running, writers := m, m, {};
      queues, mail := qs, boxes;
      objs := [m];
      st := Blank(table.Length);
    }

    /** sherry_init */
    static method SherryInit(n: nat) returns (s: Scheduler)
      requires n > 0
      ensures fresh(s) && fresh(s.objs) && fresh(s.actors)
      ensures fresh(s.queues) && fresh(s.queues.lists) && fresh(s.queues.pool)
      ensures fresh(s.mail) && fresh(s.mail.lists) && fresh(s.mail.pool)
      ensures s.Valid() && s.st == Init(n)
    {
      hide Scheduler.Coupled, Scheduler.Sound;
      s := Unregistered(n);
      s.StartMain(n);
    }

    /** The objects of a scheduler whose main routine is not registered yet. */
    static method Unregistered(n: nat) returns (s: Scheduler)
      requires n > 0
      ensures fresh(s) && fresh(s.objs) && fresh(s.actors) && fresh(s.main)
      ensures fresh(s.queues) && fresh(s.queues.lists) && fresh(s.queues.pool)
      ensures fresh(s.mail) && fresh(s.mail.lists) && fresh(s.mail.pool)
      ensures s.Coupled() && s.Sound() && s.st == Blank(n)
    {
      hide QueueSet.Valid, Scheduler.Coupled, Scheduler.Sound;
      var table := new Actor?[n](_ => null);
      var m := new Actor(0);
      var qs := MainQueues(m);
      var boxes := MainMailbox();
      s := new Scheduler(table, m, qs, boxes);
    }

    /** The main routine is registered and runs. */
    method StartMain(ghost n: nat)
      requires Coupled() && Sound() && n > 0 && st == Blank(n)
      modifies this`actors, this`curractors, this`running, this`st, main, actors
      ensures Valid() && st == Init(n) && (actors == old(actors) || fresh(actors))
    {
      hide Sound, ObjectsAre, WritersAre, TableIs, AllNamed;
      RegActor(main, MAIN);
      SetRunning(main, MAIN);
      InitInv(n);
      assert ReachedBy(st, n, []);
    }

    /** What the code can see of the state that the objects represent. */
    lemma Represents()
      requires Valid()
      ensures Closed(st) && Reachable(st) && curractors == st.curractors
      ensures |objs| == |st.objs| && running.box == st.running && (running == main <==> st.running == MAIN)
    {
      hide Sound, WritersAre, AllNamed, AllCarry;
    }

    lemma Looks(o: nat)
      requires Coupled() && o < |objs|
      ensures |objs| == |st.objs| && Mirrors(objs[o], st.objs[o], o)
    {
    }

    lemma Finds(id: int)
      requires Coupled() && 0 <= id < |st.table| && st.table[id].Some?
      ensures id < actors.Length && actors[id] != null
      ensures st.table[id].value < |objs| && actors[id] == objs[st.table[id].value]
    {
      assert SlotIs(actors[id], st.table[id]);
    }

    lemma Counts()
      requires Coupled() && Sound()
      ensures |queues.lists| == WAITQS + |st.waitqs|
    {
      hide QueueSet.Valid;
      queues.Sizes();
    }

    // ------------------------------------------------------------ the table

    /** The search loop of reg_actor: the least free slot, or -1. */
    method FreeSlot() returns (id: int)
      requires Coupled()
      ensures id == if FirstFree(st.table) == |st.table| then -1 else FirstFree(st.table)
    {
      var i := 0;
      while i < actors.Length
        invariant 0 <= i <= actors.Length
        invariant forall k :: 0 <= k < i ==> actors[k] != null
      {
        if actors[i] == null {
          assert st.table[i].None?;
          return i;
        }
        i := i + 1;
      }
      return -1;
    }

    /** The reallocation in reg_actor: old entries stay, new ones are empty. */
    method GrowTable()
      requires Coupled() && FirstFree(st.table) == |st.table| > 0
      modifies this`actors, this`st
      ensures Coupled() && fresh(actors)
      ensures st == old(st).(table := Grown(old(st).table))
    {
      var oldsize := actors.Length;
      var newsize := oldsize * 2;
      var bigger := new Actor?[newsize];
      var was := actors;
      forall k | 0 <= k < newsize {
        bigger[k] := if k < oldsize then was[k] else null;
      }
      actors := bigger;
      st := st.(table := Grown(st.table));
    }

    /** reg_actor: the least free slot, in a table that doubles when it is full. */
    method RegActor(a: Actor, ghost o: nat)
      requires Coupled() && |st.table| > 0
      requires o < |objs| && objs[o] == a
      modifies this`actors, this`curractors, this`st, a`aid, actors
      ensures Coupled()
      ensures st == Register(old(st), o)
      ensures actors == old(actors) || fresh(actors)
    {
      var id := FreeSlot();
      if id == -1 {
        var oldsize := actors.Length;
        GrowTable();
        id := oldsize;
      }
      Install(id, a, o);
    }

    method Install(id: nat, a: Actor, ghost o: nat)
      requires Coupled() && id < |st.table| && st.table[id].None?
      requires o < |objs| && objs[o] == a
      modifies this`curractors, this`st, a`aid, actors
      ensures Coupled()
      ensures st == old(st).(table := old(st).table[id := Some(o)],
                             objs := old(st).objs[o := old(st).objs[o].(aid := id)],
                             curractors := old(st).curractors + 1)
    {
      a.aid := id;
      actors[id] := a;
      curractors := curractors + 1;
      st := st.(table := st.table[id := Some(o)],
                objs := st.objs[o := st.objs[o].(aid := id)],
                curractors := st.curractors + 1);
    }

    /** unreg_actor; an id that is out of range or free is ignored. */
    method UnregActor(rid: int)
      requires Coupled()
      modifies this`curractors, this`st, actors
      ensures Coupled()
      ensures st == Unregister(old(st), rid)
    {
      st := Unregister(st, rid);
      if rid < 0 || rid >= actors.Length || actors[rid] == null {
        return;
      }
      actors[rid] := null;
      curractors := curractors - 1;
    }

    // ------------------------------------------------------------ status and queues

    method SetStatus(a: Actor, ghost o: nat, status: Status)
      requires Coupled() && o < |objs| && objs[o] == a
      modifies this`st, a`status
      ensures Coupled() && st == WithStatus(old(st), o, status)
    {
      a.status := status;
      st := WithStatus(st, o, status);
    }

    /** setrunning */
    method SetRunning(a: Actor, ghost o: nat)
      requires Coupled() && o < |objs| && objs[o] == a
      modifies this`running, this`st, a`status
      ensures Coupled()
      ensures st == WithStatus(old(st), o, Running).(running := o)
    {
      SetStatus(a, o, Running);
      running := a;
      st := st.(running := o);
    }

    /** list_enqueue(list k, &a->node) */
    method Append(k: nat, a: Actor, ghost o: nat)
      requires Coupled() && Sound() && o < |objs| && objs[o] == a
      requires k < |QueuesOf(st)| && Unlinked(st, o)
      modifies this`st, queues`contents, queues.lists, queues.pool
      ensures Coupled() && Sound()
      ensures st == WithQueue(old(st), k, QueuesOf(old(st))[k] + [o])
      ensures Joined(old(queues.contents), queues.contents, k, a)
    {
      hide QueueSet.Valid, WithQueue, WritersAre, TableIs, RolesAre, AllNamed, AllCarry;
      NamesAreListed(queues.contents, QueuesOf(st), objs, o);
      NamedAppended(queues.contents, QueuesOf(st), objs, k, o);
      queues.Sizes();
      queues.Enqueue(k, a);
      st := WithQueue(st, k, QueuesOf(st)[k] + [o]);
    }

    /** list_dequeue on list k, and get_cont */
    method PopFirst(k: nat) returns (a: Actor)
      requires Coupled() && Sound() && k < |QueuesOf(st)| && QueuesOf(st)[k] != []
      modifies this`st, queues`contents, queues.lists, queues.pool
      ensures Coupled() && Sound()
      ensures st == WithQueue(old(st), k, QueuesOf(old(st))[k][1..])
      ensures QueuesOf(old(st))[k][0] < |objs| && a == objs[QueuesOf(old(st))[k][0]]
    {
      hide QueueSet.Valid, WithQueue, ObjectsAre, WritersAre, TableIs, RolesAre, AllNamed, AllCarry;
      NamedFirst(queues.contents, QueuesOf(st), objs, k);
      queues.Sizes();
      a := queues.Dequeue(k);
      st := WithQueue(st, k, QueuesOf(st)[k][1..]);
    }

    /** list_empty(list k) */
    method Empty(k: nat) returns (empty: bool)
      requires Coupled() && Sound() && k < |QueuesOf(st)|
      ensures empty <==> QueuesOf(st)[k] == []
    {
      hide QueueSet.Valid;
      assert Named(queues.contents[k], QueuesOf(st)[k], objs);
      queues.Sizes();
      empty := queues.IsEmpty(k);
    }

    /** list_erase(&waitingmsg, &a->node) */
    method EraseWaiting(a: Actor, ghost o: nat)
      requires Coupled() && Sound() && o < |objs| && objs[o] == a
      requires o in st.waitingmsg
      modifies this`st, queues`contents, queues.lists, queues.pool
      ensures Coupled() && Sound()
      ensures st == WithQueue(old(st), WAITINGMSG, Without(old(st).waitingmsg, o))
    {
      hide QueueSet.Valid, WithQueue, ObjectsAre, WritersAre, TableIs, RolesAre, AllNamed, AllCarry, Without;
      ghost var i := WithoutAt(st.waitingmsg, o);
      NamedErased(queues.contents, QueuesOf(st), objs, WAITINGMSG, i);
      ghost var q := queues.contents[WAITINGMSG];
      queues.Sizes();
      queues.Erase(WAITINGMSG, a, i, q[..i] + q[i + 1..]);
      st := WithQueue(st, WAITINGMSG, Without(st.waitingmsg, o));
    }

    /** setready */
    method SetReady(a: Actor, ghost o: nat)
      requires Coupled() && Sound() && o < |objs| && objs[o] == a
      requires a.status != Ready ==> Unlinked(st, o)
      modifies this`st, a`status, queues`contents, queues.lists, queues.pool
      ensures Coupled() && Sound()
      ensures st == ActorModel.SetReady(old(st), o)
    {
      hide QueueSet.Valid, ObjectsAre, WritersAre, TableIs, AllNamed;
      Looks(o);
      if a.status != Ready {
        SetStatus(a, o, Ready);
        Append(READYQ, a, o);
      }
    }

    /** unblock_all, called from the callbacks of the event loop. */
    method UnblockAll(q: nat)
      requires Coupled() && Sound() && AllBlocked(st, q)
      modifies this`st, objs, queues`contents, queues.lists, queues.pool
      ensures Coupled() && Sound() && st == Unblock(old(st), q)
    {
      hide Sound, Coupled;
      var done := false;
      while !done
        invariant Coupled() && Sound() && AllBlocked(st, q)
        invariant done ==> st.waitqs[q] == []
        invariant Unblock(st, q) == Unblock(old(st), q)
        decreases |st.waitqs[q]|, !done
      {
        done := UnblockNext(q);
      }
    }

    /** One turn of the loop in unblock_all. */
    method UnblockNext(q: nat) returns (done: bool)
      requires Coupled() && Sound() && AllBlocked(st, q)
      modifies this`st, objs, queues`contents, queues.lists, queues.pool
      ensures Coupled() && Sound() && AllBlocked(st, q)
      ensures done <==> old(st).waitqs[q] == []
      ensures st == if done then old(st) else UnblockHead(old(st), q)
    {
      hide Sound, Coupled;
      done := Empty(WAITQS + q);
      if !done {
        UnblockFirst(q);
      }
    }

    method UnblockFirst(q: nat)
      requires Coupled() && Sound() && AllBlocked(st, q) && st.waitqs[q] != []
      modifies this`st, objs, queues`contents, queues.lists, queues.pool
      ensures Coupled() && Sound() && AllBlocked(st, q) && st == UnblockHead(old(st), q)
    {
      hide Sound, WritersAre, TableIs, AllNamed, RolesAre;
      NextBlocked(st, q);
      ghost var o := st.waitqs[q][0];
      var a := PopFirst(WAITQS + q);
      SetReady(a, o);
    }

    /** The context switch, or the return from libuv: who holds the processor, nothing else. */
    ghost method Switch(control: Control)
      requires Coupled()
      modifies this`st
      ensures Coupled() && st == old(st).(control := control)
    {
      st := st.(control := control);
    }

    /** The first ready actor gets the processor. */
    method RunNext()
      requires Coupled() && Sound() && Closed(st) && st.readyq != []
      modifies this`running, this`st, objs, queues`contents, queues.lists, queues.pool
      ensures Coupled() && Sound() && st == DispatchStep(old(st))
    {
      hide Sound, WritersAre, TableIs, AllNamed, RolesAre;
      ghost var o := st.readyq[0];
      var next := PopFirst(READYQ);
      SetRunning(next, o);
      Switch(InActor);
    }

    /** One turn of the loop in schdule: true when an actor was given the processor. */
    method DispatchNext() returns (some: bool)
      requires Valid() && st.control == InScheduler
      modifies this`running, this`st, objs, queues`contents, queues.lists, queues.pool
      ensures Valid()
      ensures some <==> old(st).readyq != []
      ensures st == Scheduled(old(st))
    {
      hide Sound, ObjectsAre, WritersAre, TableIs, AllNamed, RolesAre;
      var none := Empty(READYQ);
      some := !none;
      StepStaysReachable(st, if some then Dispatch else Poll);
      if some {
        RunNext();
      } else {
        Switch(InLoop);
      }
    }

    // ------------------------------------------------------------ calls of the running actor

    /** A new actor with its node and its mailbox. */
    method NewActor() returns (a: Actor)
      requires Sound()
      modifies queues`nodeOf, queues`pool, mail`lists, mail`contents
      ensures Sound() && a in queues.nodeOf
      ensures fresh(a) && a.box == |old(mail.contents)| && a.aid == -1 && a.status == Fresh
      ensures mail.contents == old(mail.contents) + [[]]
      ensures fresh(queues.pool - old(queues.pool))
      ensures OneMore(old(mail.lists), mail.lists) && fresh(mail.lists[old(|mail.lists|)])
    {
      hide QueueSet.Valid;
      mail.Sizes();
      a := new Actor(|mail.lists|);
      queues.Adopt(a);
      mail.AddList();
    }

    /** new_actor, as the scheduler sees it: one more object, its node and its mailbox. */
    method Create() returns (a: Actor)
      requires Coupled() && Sound() && Closed(st)
      modifies this`objs, this`st, queues`nodeOf, queues`pool, mail`lists, mail`contents
      ensures Coupled() && Sound() && fresh(a) && objs == old(objs) + [a]
      ensures |st.objs| == |objs| && Unlinked(Register(st, |old(objs)|), |old(objs)|)
      ensures fresh(queues.pool - old(queues.pool))
      ensures OneMore(old(mail.lists), mail.lists) && fresh(mail.lists[old(|mail.lists|)])
      ensures st == old(st).(objs := old(st).objs + [View(-1, Fresh, [], false)])
    {
      hide QueueSet.Valid, AllNamed, AllCarry;
      a := NewActor();
      SpawnedIsUnlinked(st);
      CarriesNew(old(mail.contents), st.objs, View(-1, Fresh, [], false));
      NamedMore(queues.contents, QueuesOf(st), objs, a);
      objs := objs + [a];
      st := st.(objs := st.objs + [View(-1, Fresh, [], false)]);
    }

    /** sherry_spawn: the new actor is only queued; its caller keeps running. */
    method Spawn() returns (aid: int)
      requires Valid() && Enabled(st, ActorModel.Spawn)
      modifies this`objs, this`st, this`actors, this`curractors, actors
      modifies queues`nodeOf, queues`pool, queues`contents, queues.lists, queues.pool, mail`lists, mail`contents
      ensures Valid() && st == Step(old(st), ActorModel.Spawn)
      ensures aid == FirstFree(old(st).table)
      ensures actors == old(actors) || fresh(actors)
      ensures OneMore(old(objs), objs) && fresh(objs[old(|objs|)])
      ensures fresh(queues.pool - old(queues.pool))
      ensures OneMore(old(mail.lists), mail.lists) && fresh(mail.lists[old(|mail.lists|)])
    {
      hide Sound, Coupled;
      StepStaysReachable(st, ActorModel.Spawn);
      aid := Introduce();
    }

    method Introduce() returns (aid: int)
      requires Coupled() && Sound() && Closed(st)
      modifies this`objs, this`st, this`actors, this`curractors, actors
      modifies queues`nodeOf, queues`pool, queues`contents, queues.lists, queues.pool, mail`lists, mail`contents
      ensures Coupled() && Sound() && st == SpawnStep(old(st))
      ensures aid == FirstFree(old(st).table)
      ensures actors == old(actors) || fresh(actors)
      ensures OneMore(old(objs), objs) && fresh(objs[old(|objs|)])
      ensures fresh(queues.pool - old(queues.pool))
      ensures OneMore(old(mail.lists), mail.lists) && fresh(mail.lists[old(|mail.lists|)])
    {
      hide Sound, WritersAre, TableIs, AllNamed, AllCarry, RolesAre;
      ghost var o := |objs|;
      var a := Create();
      Enlist(a, o);
      aid := a.aid;
    }

    /** A new actor gets its id and is queued. */
    method Enlist(a: Actor, ghost o: nat)
      requires Coupled() && Sound() && o < |objs| && objs[o] == a
      requires |st.table| > 0 && Unlinked(Register(st, o), o)
      modifies this`actors, this`curractors, this`st, a, actors, queues`contents, queues.lists, queues.pool
      ensures Coupled() && Sound()
      ensures st == ActorModel.SetReady(Register(old(st), o), o)
      ensures a.aid == FirstFree(old(st).table)
      ensures actors == old(actors) || fresh(actors)
    {
      hide Sound, WritersAre, TableIs, AllNamed, RolesAre;
      RegActor(a, o);
      Looks(o);
      SetReady(a, o);
      Looks(o);
    }

    /** sherry_yield, up to the switch to the scheduler. */
    method Yield()
      requires Valid() && Enabled(st, ActorModel.Yield)
      modifies this`st, objs, queues`contents, queues.lists, queues.pool
      ensures Valid() && st == Step(old(st), ActorModel.Yield)
    {
      hide Sound, ObjectsAre, WritersAre, TableIs, AllNamed;
      StepStaysReachable(st, ActorModel.Yield);
      RunnerIsUnlinked(st);
      SetReady(running, st.running);
      Switch(InScheduler);
    }

    /** new_msg, then list_enqueue(&a->mailbox, &msg->node) */
    method Deliver(a: Actor, ghost o: nat, m: Msg)
      requires Coupled() && Sound() && o < |objs| && objs[o] == a
      modifies this`st, mail, mail.lists, mail.pool
      ensures Coupled() && Sound()
      ensures mail.lists == old(mail.lists) && fresh(mail.pool - old(mail.pool))
      ensures st == old(st).(objs := old(st).objs[o := old(st).objs[o].(mailbox := old(st).objs[o].mailbox + [m])])
    {
      hide Sound, AllNamed, WritersAre, TableIs, RolesAre, AllCarry;
      var l := NewLetter(m);
      ghost var v := st.objs[o].(mailbox := st.objs[o].mailbox + [m]);
      CarriesMore(mail.contents, st.objs, o, l, v);
      Post(a.box, l);
      st := st.(objs := st.objs[o := v]);
    }

    /** new_msg */
    method NewLetter(m: Msg) returns (l: Letter)
      requires Sound()
      ensures Sound() && l.msg == m && fresh(l) && l !in mail.nodeOf
    {
      hide QueueSet.Valid;
      l := new Letter(m);
    }

    /** The first letter of mailbox k is taken out. */
    method TakeOut(k: nat) returns (l: Letter)
      requires Sound() && k < |mail.contents| && mail.contents[k] != []
      modifies mail`contents, mail.lists, mail.pool
      ensures Sound() && l == old(mail.contents)[k][0]
      ensures mail.contents == old(mail.contents)[k := old(mail.contents)[k][1..]]
    {
      hide QueueSet.Valid;
      mail.Sizes();
      l := mail.Dequeue(k);
    }

    /** A new letter goes to the end of mailbox k. */
    method Post(k: nat, l: Letter)
      requires Sound() && k < |mail.contents| && l !in mail.nodeOf
      modifies mail, mail.lists, mail.pool
      ensures Sound() && mail.contents == old(mail.contents)[k := old(mail.contents)[k] + [l]]
      ensures mail.lists == old(mail.lists) && fresh(mail.pool - old(mail.pool))
    {
      hide QueueSet.Valid;
      mail.Sizes();
      mail.Adopt(l);
      mail.Enqueue(k, l);
    }

    /** The end of sherry_msg_send: a receiver that waits for a message is made ready. */
    method Revoke(a: Actor, ghost o: nat)
      requires Coupled() && Sound() && o < |objs| && objs[o] == a && a.status != Ready
      requires o in st.waitingmsg && Unlinked(WithQueue(st, WAITINGMSG, Without(st.waitingmsg, o)), o)
      modifies this`st, a`status, queues`contents, queues.lists, queues.pool
      ensures Coupled() && Sound()
      ensures st == ActorModel.SetReady(old(st).(waitingmsg := Without(old(st).waitingmsg, o)), o)
    {
      hide QueueSet.Valid, ObjectsAre, WritersAre, TableIs, AllNamed;
      EraseWaiting(a, o);
      SetReady(a, o);
    }

    /** sherry_msg_send */
    method MsgSend(dst: int, msgtype: int, payload: int)
      requires Valid() && Enabled(st, Send(dst, msgtype, payload))
      modifies this`st, objs, queues`contents, queues.lists, queues.pool, mail, mail.lists, mail.pool
      ensures Valid() && st == Step(old(st), Send(dst, msgtype, payload))
      ensures mail.lists == old(mail.lists) && fresh(mail.pool - old(mail.pool))
    {
      hide QueueSet.Valid, ObjectsAre, WritersAre, TableIs, AllNamed;
      StepStaysReachable(st, Send(dst, msgtype, payload));
      Finds(dst);
      var recver := actors[dst];
      ghost var r := st.table[dst].value;
      Looks(r);
      Looks(st.running);
      var m := Msg(running.aid, recver.aid, msgtype, payload);
      if recver.status == WaitMsg {
        WaiterIsOnlyWaiting(st, r);
      }
      DeliverAndWake(recver, r, m);
    }

    /** The message is delivered; a receiver that waits for one is made ready. */
    method DeliverAndWake(a: Actor, ghost o: nat, m: Msg)
      requires Coupled() && Sound() && o < |objs| && objs[o] == a
      requires a.status == WaitMsg ==>
                 o in st.waitingmsg && Unlinked(WithQueue(st, WAITINGMSG, Without(st.waitingmsg, o)), o)
      modifies this`st, a, queues`contents, queues.lists, queues.pool, mail, mail.lists, mail.pool
      ensures Coupled() && Sound()
      ensures st == Delivered(old(st), o, m)
      ensures mail.lists == old(mail.lists) && fresh(mail.pool - old(mail.pool))
    {
      hide Sound, WritersAre, TableIs, AllNamed, RolesAre;
      Deliver(a, o, m);
      Looks(o);
      if a.status == WaitMsg {
        Revoke(a, o);
      }
    }

    /** list_empty(&a->mailbox) for the running actor */
    method NoMessage() returns (empty: bool)
      requires Coupled() && Sound() && Closed(st)
      ensures empty <==> st.objs[st.running].mailbox == []
    {
      hide QueueSet.Valid;
      mail.Sizes();
      assert Carries(mail.contents[st.running], st.objs[st.running].mailbox);
      empty := mail.IsEmpty(running.box);
    }

    /** list_dequeue on the mailbox of the running actor. */
    method TakeMessage() returns (m: Option<Msg>)
      requires Coupled() && Sound() && Closed(st)
      modifies this`st, mail`contents, mail.lists, mail.pool
      ensures Coupled() && Sound() && st == TakeStep(old(st))
      ensures
        var box := old(st).objs[old(st).running].mailbox;
        m == if box == [] then None else Some(box[0])
    {
      hide QueueSet.Valid, AllNamed, WritersAre, TableIs;
      m := None;
      var empty := NoMessage();
      if !empty {
        var first := PopMessage();
        m := Some(first);
      }
      Continue();
    }

    method PopMessage() returns (m: Msg)
      requires Coupled() && Sound() && Closed(st) && st.objs[st.running].mailbox != []
      modifies this`st, mail`contents, mail.lists, mail.pool
      ensures Coupled() && Sound()
      ensures
        var v := old(st).objs[old(st).running];
        && m == v.mailbox[0]
        && st == old(st).(objs := old(st).objs[old(st).running := v.(mailbox := v.mailbox[1..])])
    {
      hide Sound, AllNamed, WritersAre, TableIs, AllCarry;
      ghost var v := st.objs[st.running].(mailbox := st.objs[st.running].mailbox[1..]);
      CarriesFirst(mail.contents, st.objs, st.running, v);
      var l := TakeOut(running.box);
      m := l.msg;
      st := st.(objs := st.objs[st.running := v]);
    }

    /** The running actor is past its switch in sherry_msg_recv. */
    ghost method Continue()
      requires Coupled() && Closed(st)
      modifies this`st
      ensures Coupled()
      ensures st == old(st).(objs := old(st).objs[old(st).running := old(st).objs[old(st).running].(inRecv := false)])
    {
      st := st.(objs := st.objs[st.running := st.objs[st.running].(inRecv := false)]);
    }

    /** sherry_msg_recv up to its switch; when there is a message, all of it. */
    method MsgRecv() returns (blocked: bool, m: Option<Msg>)
      requires Valid() && Enabled(st, Recv)
      modifies this`st, objs, queues`contents, queues.lists, queues.pool, mail`contents, mail.lists, mail.pool
      ensures Valid() && st == Step(old(st), Recv)
      ensures blocked <==> !Returns(old(st), Recv)
      ensures !blocked ==> m == Returned(old(st), Recv)
    {
      hide Sound, ObjectsAre, WritersAre, TableIs, AllNamed, AllCarry;
      StepStaysReachable(st, Recv);
      m := None;
      blocked := NoMessage();
      if blocked {
        RunnerIsUnlinked(st);
        ParkForMessage();
      } else {
        m := TakeMessage();
      }
    }

    method ParkForMessage()
      requires Coupled() && Sound() && Closed(st) && st.objs[st.running].mailbox == [] && Unlinked(st, st.running)
      modifies this`st, running`status, queues`contents, queues.lists, queues.pool
      ensures Coupled() && Sound() && st == RecvStep(old(st))
    {
      hide Sound, WritersAre, TableIs, AllNamed, AllCarry, ObjectsAre;
      SetStatus(running, st.running, WaitMsg);
      Append(WAITINGMSG, running, st.running);
      Suspend();
    }

    /** The switch in sherry_msg_recv: the saved context is in the middle of that call. */
    ghost method Suspend()
      requires Coupled() && Closed(st)
      modifies this`st
      ensures Coupled()
      ensures st == old(st).(objs := old(st).objs[old(st).running := old(st).objs[old(st).running].(inRecv := true)],
                             control := InScheduler)
    {
      st := st.(objs := st.objs[st.running := st.objs[st.running].(inRecv := true)], control := InScheduler);
    }

    /** The rest of sherry_msg_recv after the actor was resumed: there is a message now. */
    method MsgRecvResume() returns (m: Option<Msg>)
      requires Valid() && Enabled(st, Resume)
      modifies this`st, mail`contents, mail.lists, mail.pool
      ensures Valid() && st == Step(old(st), Resume)
      ensures m == Returned(old(st), Resume) && m != None
    {
      hide QueueSet.Valid, ObjectsAre, WritersAre, TableIs, AllNamed;
      StepStaysReachable(st, Resume);
      ResumeFindsMessage(st);
      m := TakeMessage();
    }

    /** fdnew: a descriptor with an empty queue for each kind of event. */
    method FdNew() returns (fd: nat)
      requires Valid() && Enabled(st, NewFd)
      modifies this`st, queues`lists, queues`contents
      ensures Valid() && st == Step(old(st), NewFd)
      ensures 2 * fd == old(|st.waitqs|)
      ensures |queues.lists| == old(|queues.lists|) + 2 && old(queues.lists) <= queues.lists
      ensures forall i :: old(|queues.lists|) <= i < |queues.lists| ==> fresh(queues.lists[i])
    {
      hide Sound, Coupled;
      StepStaysReachable(st, NewFd);
      WaitqsArePaired(st);
      Counts();
      fd := (|queues.lists| - WAITQS) / 2;
      AddQueues();
    }

    method AddQueues()
      requires Coupled() && Sound()
      modifies this`st, queues`lists, queues`contents
      ensures Coupled() && Sound() && st == old(st).(waitqs := old(st).waitqs + [[], []])
      ensures |queues.lists| == old(|queues.lists|) + 2 && old(queues.lists) <= queues.lists
      ensures forall i :: old(|queues.lists|) <= i < |queues.lists| ==> fresh(queues.lists[i])
    {
      hide Sound, Coupled;
      ghost var qs := st.waitqs;
      assert qs + [[]] + [[]] == qs + [[], []];
      AddQueue();
      AddQueue();
    }

    method AddQueue()
      requires Coupled() && Sound()
      modifies this`st, queues`lists, queues`contents
      ensures Coupled() && Sound() && st == old(st).(waitqs := old(st).waitqs + [[]])
      ensures OneMore(old(queues.lists), queues.lists) && fresh(queues.lists[old(|queues.lists|)])
    {
      hide QueueSet.Valid;
      queues.AddList();
      st := st.(waitqs := st.waitqs + [[]]);
    }

    /** block_fd */
    method BlockFd(q: nat)
      requires Valid() && Enabled(st, Block(q))
      modifies this`st, objs, queues`contents, queues.lists, queues.pool
      ensures Valid() && st == Step(old(st), Block(q))
      ensures Joined(old(queues.contents), queues.contents, WAITQS + q, old(running)) && running == old(running)
    {
      hide Sound, ObjectsAre, WritersAre, TableIs, AllNamed;
      StepStaysReachable(st, Block(q));
      RunnerIsUnlinked(st);
      ParkOnWaitq(q);
    }

    method ParkOnWaitq(q: nat)
      requires Coupled() && Sound() && Closed(st) && q < |st.waitqs| && Unlinked(st, st.running)
      modifies this`st, running`status, queues`contents, queues.lists, queues.pool
      ensures Coupled() && Sound() && st == BlockStep(old(st), q)
      ensures Joined(old(queues.contents), queues.contents, WAITQS + q, running)
    {
      hide Sound, WritersAre, TableIs, AllNamed, AllCarry, ObjectsAre;
      SetStatus(running, st.running, WaitEv);
      Append(WAITQS + q, running, st.running);
      Switch(InScheduler);
    }

    /** The blocking part of sherry_write: the request remembers its actor. */
    method WriteBegin()
      requires Valid() && Enabled(st, Write)
      modifies this`writers, this`st, objs
      ensures Valid() && st == Step(old(st), Write)
      ensures writers == old(writers) + {running} && running == old(running)
    {
      hide QueueSet.Valid, ObjectsAre, WritersAre, TableIs, AllNamed;
      StepStaysReachable(st, Write);
      ParkOnWrite();
    }

    method ParkOnWrite()
      requires Coupled() && Closed(st)
      modifies this`writers, this`st, running`status
      ensures Coupled() && writers == old(writers) + {running}
      ensures st == WithStatus(old(st), old(st).running, WaitEv).(writes := old(st).writes + {old(st).running},
                                                                 control := InScheduler)
    {
      writers := writers + {running};
      running.status := WaitEv;
      st := WithStatus(st, st.running, WaitEv).(writes := st.writes + {st.running}, control := InScheduler);
    }

    /** write_cb for the pending write of actor a. */
    method WriteCb(a: Actor, ghost o: nat)
      requires Valid() && Enabled(st, WriteDone(o)) && o < |objs| && objs[o] == a
      modifies this`writers, this`st, objs, queues`contents, queues.lists, queues.pool
      ensures Valid() && st == Step(old(st), WriteDone(o))
      ensures writers == old(writers) - {a}
    {
      hide Sound, ObjectsAre, WritersAre, TableIs, AllNamed, AllCarry, RolesAre;
      StepStaysReachable(st, WriteDone(o));
      WriterIsUnlinked(st, o);
      CompleteWrite(a, o);
      SetReady(a, o);
    }

    method CompleteWrite(a: Actor, ghost o: nat)
      requires Coupled() && o < |objs| && objs[o] == a
      modifies this`writers, this`st
      ensures Coupled() && st == old(st).(writes := old(st).writes - {o})
      ensures writers == old(writers) - {a}
    {
      writers := writers - {a};
      st := st.(writes := st.writes - {o});
    }

    /** listen_cb and, with data, read_cb: everybody waiting to read is made ready. */
    method ReadableCb(q: nat)
      requires Valid() && Enabled(st, Event(q))
      modifies this`st, objs, queues`contents, queues.lists, queues.pool
      ensures Valid() && st == Step(old(st), Event(q))
      ensures Emptied(old(queues.contents), queues.contents, WAITQS + q, READYQ)
    {
      hide Sound, ObjectsAre, WritersAre, TableIs, AllNamed, Emptied;
      StepStaysReachable(st, Event(q));
      EventBlocked(st, q);
      EventMovesNames(st, q);
      UnblockAll(q);
      NamedEmptied(old(queues.contents), queues.contents, QueuesOf(old(st)), QueuesOf(st), objs, WAITQS + q, READYQ);
    }

    /** uv_run returns to the loop in schdule. */
    method LoopReturns()
      requires Valid() && Enabled(st, LoopReturn)
      modifies this`st
      ensures Valid() && st == Step(old(st), LoopReturn)
    {
      hide Sound, ObjectsAre, WritersAre, TableIs, AllNamed;
      StepStaysReachable(st, LoopReturn);
      Switch(InScheduler);
    }

    /** The end of sherry_main: the actor's function has returned. */
    method Finish()
      requires Valid() && Enabled(st, ActorModel.Finish)
      modifies this`curractors, this`st, actors
      ensures Valid() && st == Step(old(st), ActorModel.Finish)
    {
      hide Sound, ObjectsAre, WritersAre, TableIs, AllNamed, AllCarry;
      StepStaysReachable(st, ActorModel.Finish);
      Looks(st.running);
      UnregActor(running.aid);
      Switch(InScheduler);
    }
  }
}
