/**
 The scheduler of sherry.c as a state machine over values. Actor objects are named by
 their position in `objs` (creation order, the main actor is object 0), so that an
 object keeps its name after it has finished and its actor id has been given away.
 Every call that gives up the processor is one step; a context switch is the change of
 `control`. Actor bodies are arbitrary: any enabled sequence of actions is a run.
 */
module ActorModel {
  import opened Options

  /** SHERRY_STATE_NONE .. SHERRY_STATE_WAIT_EV */
  datatype Status = Fresh | Dead | Ready | Running | WaitMsg | WaitEv

  /** struct sherry_msg; the payload is a pointer the scheduler never looks behind. */
  datatype Msg = Msg(sender: int, recver: int, msgtype: int, payload: int)

  /** `inRecv` is the saved context: the actor is suspended in the middle of sherry_msg_recv. */
  datatype View = View(aid: int, status: Status, mailbox: seq<Msg>, inRecv: bool)

  /** Who holds the processor: the running actor, the scheduler loop, or a libuv poll. */
  datatype Control = InActor | InScheduler | InLoop

  datatype State = State(
    objs: seq<View>,
    table: seq<Option<nat>>,
    curractors: int,
    running: nat,
    readyq: seq<nat>,
    waitingmsg: seq<nat>,
    waitqs: seq<seq<nat>>,  // two per descriptor: read at 2*fd, write at 2*fd+1
    writes: set<nat>,       // actors with a pending uv_write
    control: Control
  )

  datatype Action =
    | Spawn
    | Yield
    | Send(dst: int, msgtype: int, payload: int)
    | Recv
    | Resume            // the second half of a sherry_msg_recv that had to wait
    | NewFd
    | Block(q: nat)
    | Write
    | Finish
    | Dispatch
    | Poll
    | Event(q: nat)     // listen_cb, or read_cb with data
    | WriteDone(o: nat)
    | LoopReturn

  const MAIN: nat := 0

  // ---------------------------------------------------------------- sequences

  predicate NoDup(s: seq<nat>) {
    forall i, j :: 0 <= i < j < |s| ==> s[i] != s[j]
  }

  function IndexOf(s: seq<nat>, x: nat): (k: nat)
    requires x in s
    ensures k < |s| && s[k] == x
  {
    if s[0] == x then 0 else 1 + IndexOf(s[1..], x)
  }

  /** list_erase of the node of x, which the caller knows to be in the list. */
  function Without(s: seq<nat>, x: nat): (r: seq<nat>)
    ensures forall y :: y in s && y != x ==> y in r
    ensures forall y :: y in r ==> y in s
    ensures NoDup(s) ==> NoDup(r) && x !in r
  {
    if x !in s then s
    else
      var k := IndexOf(s, x);
      assert s == s[..k] + [x] + s[k + 1..];
      s[..k] + s[k + 1..]
  }

  // ---------------------------------------------------------------- the actor table

  function FirstFree(t: seq<Option<nat>>): (k: nat)
    ensures k <= |t|
    ensures forall i :: 0 <= i < k ==> t[i].Some?
    ensures k < |t| ==> t[k].None?
  {
    if t == [] || t[0].None? then 0 else 1 + FirstFree(t[1..])
  }

  function Nones(n: nat): (r: seq<Option<nat>>)
  {
    seq(n, i => None)
  }

  /** The table reg_actor searches: doubled when no slot is free. */
  function Grown(t: seq<Option<nat>>): (r: seq<Option<nat>>)
  {
    if FirstFree(t) < |t| then t else t + Nones(|t|)
  }

  function Register(s: State, o: nat): State
    requires |s.table| > 0 && o < |s.objs|
  {
    var id := FirstFree(s.table);
    s.(table := Grown(s.table)[id := Some(o)],
       objs := s.objs[o := s.objs[o].(aid := id)],
       curractors := s.curractors + 1)
  }

  function Unregister(s: State, id: int): State {
    if id < 0 || id >= |s.table| || s.table[id].None? then s
    else s.(table := s.table[id := None], curractors := s.curractors - 1)
  }

  predicate Registered(s: State, o: nat) {
    o < |s.objs| && 0 <= s.objs[o].aid < |s.table| && s.table[s.objs[o].aid] == Some(o)
  }

  // ---------------------------------------------------------------- transitions

  predicate InRange(s: seq<nat>, n: nat) {
    forall o :: o in s ==> o < n
  }

  /** Every object name in the state is the name of an object. */
  predicate Closed(s: State) {
    && s.running < |s.objs|
    && |s.table| > 0
    && InRange(s.readyq, |s.objs|)
    && InRange(s.waitingmsg, |s.objs|)
    && (forall q :: 0 <= q < |s.waitqs| ==> InRange(s.waitqs[q], |s.objs|))
    && (forall o :: o in s.writes ==> o < |s.objs|)
    && (forall i :: 0 <= i < |s.table| && s.table[i].Some? ==> s.table[i].value < |s.objs|)
  }

  function WithStatus(s: State, o: nat, status: Status): State
    requires o < |s.objs|
  {
    s.(objs := s.objs[o := s.objs[o].(status := status)])
  }

  function SetReady(s: State, o: nat): State
    requires o < |s.objs|
  {
    if s.objs[o].status == Ready then s
    else WithStatus(s, o, Ready).(readyq := s.readyq + [o])
  }

  /** One turn of the loop in unblock_all. */
  function UnblockHead(s: State, q: nat): (t: State)
    requires q < |s.waitqs| && s.waitqs[q] != [] && InRange(s.waitqs[q], |s.objs|)
    ensures |t.objs| == |s.objs| && t.waitqs == s.waitqs[q := s.waitqs[q][1..]]
  {
    assert s.waitqs[q][0] in s.waitqs[q];
    SetReady(s.(waitqs := s.waitqs[q := s.waitqs[q][1..]]), s.waitqs[q][0])
  }

  function Unblock(s: State, q: nat): State
    requires q < |s.waitqs| && InRange(s.waitqs[q], |s.objs|)
    decreases |s.waitqs[q]|
  {
    if s.waitqs[q] == [] then s
    else
      assert forall x :: x in s.waitqs[q][1..] ==> x in s.waitqs[q];
      Unblock(UnblockHead(s, q), q)
  }

  predicate AtCall(s: State)
    requires Closed(s)
  {
    s.control == InActor && !s.objs[s.running].inRecv
  }

  predicate Enabled(s: State, a: Action)
    requires Closed(s)
  {
    match a
    case Spawn | Yield | Recv | NewFd | Write => AtCall(s)
    case Send(dst, _, _) => AtCall(s) && 0 <= dst < |s.table| && s.table[dst].Some?
    case Resume => s.control == InActor && s.objs[s.running].inRecv
    case Block(q) => AtCall(s) && q < |s.waitqs|
    case Finish => AtCall(s) && s.running != MAIN
    case Dispatch => s.control == InScheduler && s.readyq != []
    case Poll => s.control == InScheduler && s.readyq == []
    case Event(q) => s.control == InLoop && q < |s.waitqs| && q % 2 == 0
    case WriteDone(o) => s.control == InLoop && o in s.writes
    case LoopReturn => s.control == InLoop
  }

  function SpawnStep(s: State): State
    requires Closed(s)
  {
    var o := |s.objs|;
    SetReady(Register(s.(objs := s.objs + [View(-1, Fresh, [], false)]), o), o)
  }

  function SendStep(s: State, dst: int, msgtype: int, payload: int): State
    requires Closed(s) && Enabled(s, Send(dst, msgtype, payload))
  {
    var r := s.table[dst].value;
    var v := s.objs[r];
    var m := Msg(s.objs[s.running].aid, v.aid, msgtype, payload);
    var s1 := s.(objs := s.objs[r := v.(mailbox := v.mailbox + [m])]);
    if v.status == WaitMsg then
      SetReady(s1.(waitingmsg := Without(s.waitingmsg, r)), r)
    else s1
  }

  /** list_dequeue on the mailbox of the running actor; an empty one stays empty. */
  function TakeStep(s: State): State
    requires Closed(s)
  {
    var v := s.objs[s.running];
    var rest := if v.mailbox == [] then [] else v.mailbox[1..];
    s.(objs := s.objs[s.running := v.(mailbox := rest, inRecv := false)])
  }

  function RecvStep(s: State): State
    requires Closed(s)
  {
    var v := s.objs[s.running];
    if v.mailbox == [] then
      s.(objs := s.objs[s.running := v.(status := WaitMsg, inRecv := true)],
         waitingmsg := s.waitingmsg + [s.running],
         control := InScheduler)
    else TakeStep(s)
  }

  function BlockStep(s: State, q: nat): State
    requires Closed(s) && q < |s.waitqs|
  {
    WithStatus(s, s.running, WaitEv).(waitqs := s.waitqs[q := s.waitqs[q] + [s.running]],
                                      control := InScheduler)
  }

  function DispatchStep(s: State): State
    requires Closed(s) && s.readyq != []
  {
    var o := s.readyq[0];
    assert o in s.readyq;
    WithStatus(s, o, Running).(readyq := s.readyq[1..], running := o, control := InActor)
  }

  function YieldStep(s: State): State
    requires Closed(s)
  {
    SetReady(s, s.running).(control := InScheduler)
  }

  function FinishStep(s: State): State
    requires Closed(s)
  {
    Unregister(s, s.objs[s.running].aid).(control := InScheduler)
  }

  function Step(s: State, a: Action): State
    requires Closed(s) && Enabled(s, a)
  {
    match a
    case Spawn => SpawnStep(s)
    case Yield => YieldStep(s)
    case Send(dst, msgtype, payload) => SendStep(s, dst, msgtype, payload)
    case Recv => RecvStep(s)
    case Resume => TakeStep(s)
    case NewFd => s.(waitqs := s.waitqs + [[], []])
    case Block(q) => BlockStep(s, q)
    case Write => WithStatus(s, s.running, WaitEv).(writes := s.writes + {s.running}, control := InScheduler)
    case Finish => FinishStep(s)
    case Dispatch => DispatchStep(s)
    case Poll => s.(control := InLoop)
    case Event(q) => Unblock(s, q)
    case WriteDone(o) => SetReady(s.(writes := s.writes - {o}), o)
    case LoopReturn => s.(control := InScheduler)
  }

  /** The state before the main actor is registered. */
  function Blank(n: nat): State {
    State([View(-1, Fresh, [], false)], Nones(n), 0, MAIN, [], [], [], {}, InActor)
  }

  /** sherry_init with a table of n slots (the source uses 1000). */
  function Init(n: nat): State
    requires n > 0
  {
    WithStatus(Register(Blank(n), MAIN), MAIN, Running)
  }

  // ---------------------------------------------------------------- runs

  predicate Legal(s: State, run: seq<Action>)
    decreases |run|
  {
    run == [] || (Closed(s) && Enabled(s, run[0]) && Legal(Step(s, run[0]), run[1..]))
  }

  function Run(s: State, run: seq<Action>): State
    requires Legal(s, run)
    decreases |run|
  {
    if run == [] then s else Run(Step(s, run[0]), run[1..])
  }
}
