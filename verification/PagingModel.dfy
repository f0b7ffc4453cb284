/**
 Copy-on-write paging as a transition system on values.

 A state holds, for every process, the valid level-3 entries of its user range, and the
 bind counter and the bytes of every physical frame, and the stack of unbound frames.
 Pages and frames are page-granule numbers (address / 4096).
 */
module PagingModel {
  import opened Bytes

  const N_PROC: nat := 32
  const N_FRAMES: nat := 0x40000        // RAM_SIZE / GRANULE
  const GRANULE: nat := 0x1000
  const TIMER_PAGE: nat := 0x3f00b      // TIMER_IRQ_PAGE, also HEAP_MAX
  const GPIO_PAGE: nat := 0x3f200       // GPIO_BASE, STACK_BEGIN
  const STACK_PAGE_1: nat := 0x3f1ff
  const STACK_PAGE_2: nat := 0x3f1fe
  const PAGE_RES_1: nat := 0x3f1fd
  const PAGE_RES_2: nat := 0x3f1fc

  const PERIPHERALS: set<nat> := {GPIO_PAGE, GPIO_PAGE + 0x1, GPIO_PAGE + 0x15, TIMER_PAGE}

  type Content = c: seq<Byte> | |c| == GRANULE witness seq(GRANULE, i => 0)
  type Count = c: nat | c < 256         // bind counters are uint8_t

  // block_perm_config without the access flag, which every caller sets.
  datatype Perm = KernelPage | UserPage | DataPage | ForkedPage

  datatype Pte = Pte(frame: nat, perm: Perm)
  type Table = map<int, Pte>

  datatype State = State(
    tables: seq<Table>,      // per process: valid entries of the user range, timer page excepted
    counter: seq<Count>,     // bind_counter
    free: seq<nat>,          // physical_memory_map.map[head..]
    mem: seq<Content>,       // the bytes of each frame
    live: set<nat>)          // processes whose tables are in use

  predicate IsStack(page: int) {
    page == STACK_PAGE_1 || page == STACK_PAGE_2
  }

  function Inc(c: Count): Count { if c == 255 then 0 else c + 1 }
  function Dec(c: Count): Count { if c == 0 then 255 else c - 1 }

  predicate FramesOk(t: Table) {
    forall p :: p in t ==> t[p].frame < N_FRAMES
  }

  predicate Shaped(s: State) {
    && |s.tables| == N_PROC
    && |s.counter| == N_FRAMES
    && |s.mem| == N_FRAMES
    && (forall i :: 0 <= i < |s.free| ==> s.free[i] < N_FRAMES)
    && (forall pid :: 0 <= pid < N_PROC ==> FramesOk(s.tables[pid]))
  }

  // ---------- primitive updates ----------

  // bind_address on a slot of the user range.
  function Bind(s: State, pid: nat, page: nat, e: Pte): (r: State)
    requires Shaped(s) && pid < N_PROC && e.frame < N_FRAMES
    ensures Shaped(r)
  {
    s.(tables := s.tables[pid := s.tables[pid][page := e]],
       counter := s.counter[e.frame := Inc(s.counter[e.frame])])
  }

  // decrement_bind_counter.
  function Unbind(s: State, f: nat): (r: State)
    requires Shaped(s) && f < N_FRAMES
    ensures Shaped(r)
  {
    s.(counter := s.counter[f := Dec(s.counter[f])])
  }

  // get_new_page: pop a frame and bind it.
  function NewPage(s: State, pid: nat, page: nat, perm: Perm): (r: State)
    requires Shaped(s) && pid < N_PROC && |s.free| > 0
    ensures Shaped(r)
  {
    Bind(s.(free := s.free[1..]), pid, page, Pte(s.free[0], perm))
  }

  // decr_and_free_physical_page after the entry has been invalidated.
  function Release(s: State, pid: nat, page: nat): (r: State)
    requires Shaped(s) && pid < N_PROC && page in s.tables[pid]
    ensures Shaped(r)
  {
    var f := s.tables[pid][page].frame;
    var d := Unbind(s, f).(tables := s.tables[pid := s.tables[pid] - {page}]);
    if d.counter[f] == 0 then d.(free := [f] + d.free) else d
  }

  // ---------- fork ----------

  // A shared page becomes read-only, except on the stack.
  function Demote(p: int, e: Pte): Pte {
    if IsStack(p) then e else e.(perm := ForkedPage)
  }

  function Demoted(t: Table): Table {
    map p | p in t :: Demote(p, t[p])
  }

  function FramesOf(t: Table): set<nat> {
    set p | p in t :: t[p].frame
  }

  // The nested loops of process_init_copy_and_write: the child's old table is overwritten,
  // every page of the parent is shared and demoted, every shared frame is counted once more.
  function Share(s: State, parent: nat, child: nat): (r: State)
    requires Shaped(s) && parent < N_PROC && child < N_PROC
    ensures Shaped(r)
  {
    var t := Demoted(s.tables[parent]);
    s.(tables := s.tables[parent := t][child := t],
       counter := CountOnceMore(s.counter, FramesOf(t)))
  }

  function CountOnceMore(c: seq<Count>, fs: set<nat>): (r: seq<Count>)
    ensures |r| == |c|
    ensures forall f :: 0 <= f < |c| ==> r[f] == if f in fs then Inc(c[f]) else c[f]
  {
    seq(|c|, f requires 0 <= f < |c| => if f in fs then Inc(c[f]) else c[f])
  }

  // copy_forked_page: the child's stack page moves to a frame of its own with the same bytes.
  function CopyStack(s: State, child: nat, page: nat): (r: State)
    requires Shaped(s) && child < N_PROC && page in s.tables[child] && |s.free| > 0
    ensures Shaped(r)
  {
    var old_ := s.tables[child][page].frame;
    var new_ := s.free[0];
    NewPage(Unbind(s, old_), child, page, UserPage).(mem := s.mem[new_ := s.mem[old_]])
  }

  predicate HasStack(s: State, pid: nat)
    requires Shaped(s) && pid < N_PROC
  {
    STACK_PAGE_1 in s.tables[pid] && STACK_PAGE_2 in s.tables[pid]
  }

  // process_init_copy_and_write.
  function Fork(s: State, parent: nat, child: nat): (r: State)
    requires Shaped(s) && parent < N_PROC && child < N_PROC && HasStack(s, parent) && |s.free| > 1
    ensures Shaped(r)
  {
    var shared := Share(s, parent, child);
    var one := CopyStack(shared, child, STACK_PAGE_1);
    CopyStack(one, child, STACK_PAGE_2).(live := s.live + {child})
  }

  // ---------- faults, stores and exits ----------

  // handle_shared_page_write. The new frame is bound twice, once through PAGE_RES_1, and
  // only the mapping of PAGE_RES_1 is removed again.
  function Privatise(s: State, pid: nat, page: nat): (r: State)
    requires Shaped(s) && pid < N_PROC && page in s.tables[pid]
    requires s.counter[s.tables[pid][page].frame] > 1 ==> |s.free| > 0
    ensures Shaped(r)
  {
    var e := s.tables[pid][page];
    if s.counter[e.frame] > 1 then
      var new_ := s.free[0];
      var d := Unbind(s, e.frame).(free := s.free[1..], mem := s.mem[new_ := s.mem[e.frame]]);
      var once := d.(counter := d.counter[new_ := Inc(d.counter[new_])]);
      Bind(once, pid, page, Pte(new_, UserPage))
    else
      s.(tables := s.tables[pid := s.tables[pid][page := e.(perm := UserPage)]])
  }

  // A store to a page that the running level may write.
  function Store(s: State, pid: nat, page: nat, offset: nat, b: Byte): (r: State)
    requires Shaped(s) && pid < N_PROC && page in s.tables[pid] && offset < GRANULE
    ensures Shaped(r)
  {
    var f := s.tables[pid][page].frame;
    s.(mem := s.mem[f := s.mem[f][offset := b]])
  }

  // process_exit: the pages of [page, GPIO_PAGE) are released in increasing order.
  function ReleaseFrom(s: State, pid: nat, page: nat): (r: State)
    requires Shaped(s) && pid < N_PROC && page <= GPIO_PAGE
    ensures Shaped(r)
    decreases GPIO_PAGE - page
  {
    if page == GPIO_PAGE then s
    else ReleaseFrom(if page in s.tables[pid] then Release(s, pid, page) else s, pid, page + 1)
  }

  function Exit(s: State, pid: nat): (r: State)
    requires Shaped(s) && pid < N_PROC
    ensures Shaped(r)
  {
    ReleaseFrom(s.(live := s.live - {pid}), pid, 0)
  }
}
