/**
 The process table as a transition system on values: run queues and sibling rings are
 sequences, and what a channel or an exit hands over is a message, not a buffer.
 */
module ProcModel {
  import opened Bytes
  import opened Sampling

  const MAX_PROC: nat := 32
  const BUFF_SIZE: nat := 1024
  const MAX_PRIO: nat := 15
  const KERNEL_PID: nat := 0
  const INIT_PID: nat := 1

  // errno.h
  const MAX_PROC_REACHED: int := 14
  const TOO_HIGH_CHILD_PRIORITY: int := 15
  const NO_CHILD: int := 16
  const INVALID_PID: int := 17
  const TARGET_NOT_LISTENING: int := 18
  const SOURCE_ALREADY_ACKNOWLEDGED: int := 19
  const SEND_DATA_TOO_LARGE: int := 20

  datatype ProcState = Free | Runnable | Waiting | Zombie | SendingCh | ListeningCh | WaitListener | Kernel

  datatype Err = Err(no: int, data: int)

  // err_t as it lies in memory: a 4-byte number, 4 bytes of padding, 8 bytes of data.
  function LittleEndian(v: int, n: nat): (b: seq<Byte>)
    ensures |b| == n
    decreases n
  {
    if n == 0 then [] else [(v % 256) as Byte] + LittleEndian(v / 256, n - 1)
  }

  function ErrBytes(e: Err): (b: seq<Byte>)
    ensures |b| == 16
  {
    LittleEndian(e.no, 4) + LittleEndian(0, 4) + LittleEndian(e.data, 8)
  }

  datatype Origin = FromSender(pid: int) | FromServer(pid: int) | FromChild(pid: int)

  // What the process will find written at addr when it next runs.
  datatype Delivery = Nothing | Delivery(addr: int, bytes: seq<Byte>, origin: Origin)

  datatype Proc = Proc(
    parent: int, prio: int, state: ProcState, initialized: bool,
    reg0: int, err: Err,
    orphan: bool,                // history: its parent has exited
    out: seq<Byte>,              // the bytes captured at its last trap
    pending: Delivery,
    target: int, sendSize: nat, ackAddr: nat, ackSize: nat, acknowledged: bool,
    source: int, recvSize: nat, recvAddr: nat, returnCode: int,
    owes: bool,                  // history: it has received and not yet acknowledged
    call: Call)                  // history: its last trap

  datatype Sys = Sys(
    procs: seq<Proc>,
    queues: seq<seq<int>>,       // per priority, the next process to run first
    rings: seq<seq<int>>,        // per process, its children, youngest first
    curr: int, last: int,
    exits: seq<nat>, reaps: seq<nat>, exitErr: seq<Err>)   // history

  // A trap, with its register arguments and the bytes found at the data pointer.
  datatype Call =
    | ForkCall(priority: int)
    | ExitCall(no: int, data: int)
    | WaitCall(status: nat)
    | SendCall(target: int, addr: nat, bytes: seq<Byte>, size: nat, ackAddr: nat, ackSize: nat, wait: bool)
    | ReceiveCall(addr: nat, size: nat)
    | AckCall(code: int, addr: nat, bytes: seq<Byte>, size: nat)
    | TestCall(x0: int)

  function Min(a: nat, b: nat): nat { if a < b then a else b }

  predicate WellFormed(call: Call) {
    match call
    case ForkCall(priority) => priority >= 0
    case SendCall(_, _, bytes, size, _, _, _) => |bytes| == Min(size, BUFF_SIZE)
    case AckCall(_, _, bytes, size) => |bytes| == Min(size, BUFF_SIZE)
    case _ => true
  }

  function Reg0(call: Call): int {
    match call
    case ForkCall(priority) => priority
    case ExitCall(no, _) => no
    case WaitCall(status) => status
    case SendCall(target, _, _, _, _, _, _) => target
    case ReceiveCall(addr, _) => addr
    case AckCall(code, _, _, _) => code
    case TestCall(x0) => x0
  }

  // back_up_buff_svc copies for send and acknowledge only, and only from a non-null pointer.
  function Captured(call: Call): seq<Byte> {
    match call
    case SendCall(_, addr, bytes, size, _, _, _) => if addr != 0 && size > 0 then bytes else []
    case AckCall(_, addr, bytes, size) => if addr != 0 && size > 0 then bytes else []
    case _ => []
  }

  // ---------- shape ----------

  predicate Pid(p: int) { 0 <= p < MAX_PROC }

  predicate Shaped(s: Sys) {
    && |s.procs| == MAX_PROC && |s.rings| == MAX_PROC && |s.queues| == MAX_PRIO + 1
    && |s.exits| == MAX_PROC && |s.reaps| == MAX_PROC && |s.exitErr| == MAX_PROC
    && Pid(s.curr) && Pid(s.last)
    && (forall p :: 0 <= p < MAX_PROC ==> 0 <= s.procs[p].prio <= MAX_PRIO)
    && (forall p :: 0 <= p < MAX_PROC ==> Pid(s.procs[p].parent) && Pid(s.procs[p].source))
  }

  // ---------- primitives ----------

  function Remove(q: seq<int>, p: int): (r: seq<int>) {
    if q == [] then [] else if q[0] == p then q[1..] else [q[0]] + Remove(q[1..], p)
  }

  function Put(s: Sys, p: int, x: Proc): (r: Sys)
    requires Shaped(s) && Pid(p) && 0 <= x.prio <= MAX_PRIO && Pid(x.parent) && Pid(x.source)
    ensures Shaped(r)
  {
    s.(procs := s.procs[p := x])
  }

  // change_state.
  function ChangeState(s: Sys, p: int, st: ProcState): (r: Sys)
    requires Shaped(s) && Pid(p)
    ensures Shaped(r)
    ensures r == s.(procs := s.procs[p := s.procs[p].(state := st)], queues := r.queues)
  {
    var x := s.procs[p];
    var q := s.queues[x.prio];
    var q' := if x.state == Runnable && st != Runnable then Remove(q, p)
              else if x.state != Runnable && st == Runnable then [p] + q
              else q;
    Put(s, p, x.(state := st)).(queues := s.queues[x.prio := q'])
  }

  // An error return of the calling process.
  function Fail(s: Sys, p: int, no: int): (r: Sys)
    requires Shaped(s) && Pid(p)
    ensures Shaped(r)
  {
    Put(s, p, s.procs[p].(err := Err(no, s.procs[p].err.data), reg0 := -1))
  }

  // save_context.
  function Trap(s: Sys, call: Call, e: Err): (r: Sys)
    requires Shaped(s)
    ensures Shaped(r)
  {
    Put(s, s.curr, s.procs[s.curr].(reg0 := Reg0(call), err := e, out := Captured(call), call := call)).(last := s.curr, curr := KERNEL_PID)
  }

  // ---------- fork, wait, exit ----------

  // find_free_proc, from slot i on; MAX_PROC when there is none.
  function FindFree(s: Sys, i: int): (r: int)
    requires Shaped(s) && 0 <= i <= MAX_PROC
    ensures i <= r <= MAX_PROC
    ensures r < MAX_PROC ==> s.procs[r].state == Free
    ensures forall j :: i <= j < r ==> s.procs[j].state != Free
    decreases MAX_PROC - i
  {
    if i == MAX_PROC || s.procs[i].state == Free then i else FindFree(s, i + 1)
  }

  function NewProc(parent: int, priority: int, e: Err): Proc {
    Proc(parent, priority, Free, true, 0, e, false, [], Nothing, 0, 0, 0, 0, true, 0, 0, 0, 0, false, TestCall(0))
  }

  // make_child_proc_descriptor and add_child.
  function Spawn(s: Sys, p: int, c: int, priority: int): (r: Sys)
    requires Shaped(s) && Pid(p) && Pid(c) && 0 <= priority <= MAX_PRIO
    ensures Shaped(r)
  {
    var a := Put(s, p, s.procs[p].(reg0 := c));
    Put(a, c, NewProc(p, priority, s.procs[p].err)).(rings := s.rings[p := [c] + s.rings[p]])
  }

  function ForkSys(s: Sys, priority: int): (r: Sys)
    requires Shaped(s) && priority >= 0
    ensures Shaped(r)
  {
    var p := s.last;
    var c := FindFree(s, 2);
    if c == MAX_PROC then Fail(s, p, MAX_PROC_REACHED)
    else if priority > s.procs[p].prio then Fail(s, p, TOO_HIGH_CHILD_PRIORITY)
    else ChangeState(Spawn(s, p, c, priority), c, Runnable)
  }

  // handle_zombie_child: the parent p collects the error of c ...
  function Collect(s: Sys, p: int, c: int): (r: Sys)
    requires Shaped(s) && Pid(p) && Pid(c)
    ensures Shaped(r)
  {
    var x := s.procs[p];
    var pending := if x.reg0 != 0 then Delivery(x.reg0, ErrBytes(s.procs[c].err), FromChild(c)) else x.pending;
    Put(s, p, x.(reg0 := c, pending := pending))
      .(rings := s.rings[p := Remove(s.rings[p], c)], reaps := s.reaps[c := s.reaps[c] + 1])
  }

  // ... c is freed and p can run.
  function Reap(s: Sys, p: int, c: int): (r: Sys)
    requires Shaped(s) && Pid(p) && Pid(c)
    ensures Shaped(r)
  {
    ChangeState(ChangeState(Collect(s, p, c), c, Free), p, Runnable)
  }

  // The index of the first zombie in a ring; its length when there is none.
  function FirstZombie(s: Sys, ring: seq<int>): (k: nat)
    requires Shaped(s) && forall i :: 0 <= i < |ring| ==> 0 <= ring[i] < MAX_PROC
    ensures k <= |ring|
    ensures forall i :: 0 <= i < k ==> s.procs[ring[i]].state != Zombie
    ensures k < |ring| ==> s.procs[ring[k]].state == Zombie
  {
    if ring == [] || s.procs[ring[0]].state == Zombie then 0 else 1 + FirstZombie(s, ring[1..])
  }

  predicate RingsOk(s: Sys)
    requires Shaped(s)
  {
    forall p, i :: 0 <= p < MAX_PROC && 0 <= i < |s.rings[p]| ==> 0 <= s.rings[p][i] < MAX_PROC
  }

  function WaitSys(s: Sys): (r: Sys)
    requires Shaped(s) && RingsOk(s)
    ensures Shaped(r)
  {
    var p := s.last;
    var ring := s.rings[p];
    if ring == [] then Fail(s, p, NO_CHILD)
    else
      var k := FirstZombie(s, ring);
      if k < |ring| then Reap(s, p, ring[k]) else ChangeState(s, p, Waiting)
  }

  // The do-while loop of syscall_exit over the ring.
  function Reparent(procs: seq<Proc>, ring: seq<int>): (r: seq<Proc>)
    requires forall i :: 0 <= i < |ring| ==> 0 <= ring[i] < |procs|
    ensures |r| == |procs|
    ensures forall p :: 0 <= p < |procs| ==>
      r[p] == if p in ring then procs[p].(parent := INIT_PID, orphan := true) else procs[p]
  {
    seq(|procs|, p requires 0 <= p < |procs| => if p in ring then procs[p].(parent := INIT_PID, orphan := true) else procs[p])
  }

  // The caller's error is recorded and its children are reparented.
  function Depart(s: Sys, e: Err): (r: Sys)
    requires Shaped(s) && RingsOk(s)
    ensures Shaped(r)
  {
    var p := s.last;
    var a := Put(s, p, s.procs[p].(err := e));
    a.(procs := Reparent(a.procs, s.rings[p]), rings := s.rings[p := []],
       exits := s.exits[p := s.exits[p] + 1], exitErr := s.exitErr[p := e])
  }

  function ExitSys(s: Sys, no: int, data: int): (r: Sys)
    requires Shaped(s) && RingsOk(s)
    ensures Shaped(r)
  {
    var b := Depart(s, Err(no, data));
    var q := b.procs[s.last].parent;
    if b.procs[q].state == Waiting then Reap(b, q, s.last) else ChangeState(b, s.last, Zombie)
  }

  // ---------- channels ----------

  // handle_channel_connection: the message and the debt to acknowledge it pass to the receiver ...
  function Meet(s: Sys, sender: int, receiver: int): (r: Sys)
    requires Shaped(s) && Pid(sender) && Pid(receiver)
    ensures Shaped(r)
  {
    var a := Put(s, sender, s.procs[sender].(acknowledged := false));
    var y := a.procs[receiver];
    Put(a, receiver, y.(pending := Delivery(y.recvAddr, a.procs[sender].out, FromSender(sender)),
                        source := sender, reg0 := sender, owes := true))
  }

  // ... the sender stays blocked and the receiver can run.
  function Connect(s: Sys, sender: int, receiver: int): (r: Sys)
    requires Shaped(s) && Pid(sender) && Pid(receiver)
    ensures Shaped(r)
  {
    if s.procs[receiver].recvSize < s.procs[sender].sendSize then Fail(s, sender, SEND_DATA_TOO_LARGE)
    else ChangeState(ChangeState(Meet(s, sender, receiver), sender, SendingCh), receiver, Runnable)
  }

  function SendSys(s: Sys, call: Call): (r: Sys)
    requires Shaped(s) && call.SendCall?
    ensures Shaped(r)
  {
    var p := s.last;
    if !Pid(call.target) then Fail(s, p, INVALID_PID)
    else if s.procs[call.target].state != ListeningCh && !call.wait then Fail(s, p, TARGET_NOT_LISTENING)
    else if call.size > BUFF_SIZE then Fail(s, p, SEND_DATA_TOO_LARGE)
    else
      var a := Put(s, p, s.procs[p].(target := call.target, sendSize := call.size, ackAddr := call.ackAddr, ackSize := call.ackSize));
      if s.procs[call.target].state == ListeningCh then Connect(a, p, call.target)
      else ChangeState(a, p, WaitListener)
  }

  // p waits for process l to listen.
  predicate WaitsFor(s: Sys, p: int, l: int)
    requires Shaped(s)
  {
    Pid(p) && s.procs[p].state == WaitListener && s.procs[p].target == l
  }

  // The scan of syscall_receive, from i on; MAX_PROC when nobody waits.
  function FindSender(s: Sys, l: int, i: int): (r: int)
    requires Shaped(s) && 0 <= i <= MAX_PROC
    ensures i <= r <= MAX_PROC
    ensures r < MAX_PROC ==> WaitsFor(s, r, l)
    ensures forall j :: i <= j < r ==> !WaitsFor(s, j, l)
    decreases MAX_PROC - i
  {
    if i == MAX_PROC || WaitsFor(s, i, l) then i else FindSender(s, l, i + 1)
  }

  function Listen(s: Sys, addr: nat, size: nat): (r: Sys)
    requires Shaped(s)
    ensures Shaped(r)
    ensures r == s.(procs := s.procs[s.last := s.procs[s.last].(recvAddr := addr, recvSize := size, state := ListeningCh)], queues := r.queues)
  {
    ChangeState(Put(s, s.last, s.procs[s.last].(recvAddr := addr, recvSize := size)), s.last, ListeningCh)
  }

  function ReceiveSys(s: Sys, addr: nat, size: nat): (r: Sys)
    requires Shaped(s)
    ensures Shaped(r)
  {
    var a := Listen(s, addr, size);
    var i := FindSender(a, s.last, 0);
    if i < MAX_PROC then Connect(a, i, s.last) else a
  }

  // The assertion of handle_channel_ack would fail.
  predicate AckPanics(s: Sys, p: int, call: Call)
    requires Shaped(s) && Pid(p)
  {
    && call.AckCall? && call.size <= BUFF_SIZE
    && var x := s.procs[s.procs[p].source];
       !x.acknowledged && x.state == SendingCh && x.target != p
  }

  // handle_channel_ack when there is something to acknowledge: q gets p's answer.
  function Answer(s: Sys, p: int, q: int): (r: Sys)
    requires Shaped(s) && Pid(p) && Pid(q)
    ensures Shaped(r)
  {
    var b := Put(s, p, s.procs[p].(reg0 := 0, owes := false));
    var x := b.procs[q];
    var n := Min(x.ackSize, |b.procs[p].out|);
    Put(b, q, x.(pending := Delivery(x.ackAddr, b.procs[p].out[..n], FromServer(p)), reg0 := b.procs[p].returnCode))
  }

  function AckSys(s: Sys, call: Call): (r: Sys)
    requires Shaped(s) && call.AckCall?
    ensures Shaped(r)
  {
    var p := s.last;
    if call.size > BUFF_SIZE then Fail(s, p, SEND_DATA_TOO_LARGE)
    else
      var a := Put(s, p, s.procs[p].(returnCode := call.code));
      var q := a.procs[p].source;
      if a.procs[q].acknowledged || a.procs[q].state != SendingCh then Fail(a, p, SOURCE_ALREADY_ACKNOWLEDGED)
      else ChangeState(Answer(a, p, q), q, Runnable)
  }

  // ---------- dispatch ----------

  function Serve(s: Sys, call: Call): (r: Sys)
    requires Shaped(s) && RingsOk(s) && WellFormed(call)
    ensures Shaped(r)
  {
    match call
    case ForkCall(priority) => ForkSys(s, priority)
    case ExitCall(no, data) => ExitSys(s, no, data)
    case WaitCall(_) => WaitSys(s)
    case SendCall(_, _, _, _, _, _, _) => SendSys(s, call)
    case ReceiveCall(addr, size) => ReceiveSys(s, addr, size)
    case AckCall(_, _, _, _) => AckSys(s, call)
    case TestCall(_) => s
  }

  // run_process: write_buff_svc hands over what is pending and empties the buffer.
  function Resume(s: Sys, p: int): (r: Sys)
    requires Shaped(s) && Pid(p)
    ensures Shaped(r)
  {
    Put(s, p, s.procs[p].(pending := Nothing, out := [])).(curr := p)
  }

  // run_priority: the head of the queue runs and goes to the back.
  function RunPriority(s: Sys, prio: int): (r: Sys)
    requires Shaped(s) && 0 <= prio <= MAX_PRIO && s.queues[prio] != [] && Pid(s.queues[prio][0])
    ensures Shaped(r)
  {
    var q := s.queues[prio];
    Resume(s.(queues := s.queues[prio := q[1..] + [q[0]]]), q[0])
  }
}
