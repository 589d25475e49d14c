/** How the kernel comes up: the allocations of `main`, the state after `__scheduler_init`, and the
    creation of the first user thread. */
module Startup {
  import opened Options
  import opened Words
  import opened Runs
  import HeapHistory
  import opened Memory
  import DeltaQueue
  import ThreadQueues
  import opened Ownership
  import opened Machine
  import opened Safety

  /* ---- filling an empty heap ---- */

  function UsedRuns(sizes: seq<nat>): seq<Run> { seq(|sizes|, i requires 0 <= i < |sizes| => Run(sizes[i], true)) }

  /** Runs in use from block 0 on, and what is left free behind them. */
  function Filled(sizes: seq<nat>, rest: nat): seq<Run> {
    UsedRuns(sizes) + if rest == 0 then [] else [Run(rest, false)]
  }

  function Sum(sizes: seq<nat>): nat {
    if sizes == [] then 0 else Sum(sizes[..|sizes| - 1]) + sizes[|sizes| - 1]
  }

  lemma UsedPush(sizes: seq<nat>, m: nat)
    ensures UsedRuns(sizes + [m]) == UsedRuns(sizes) + [Run(m, true)]
    ensures Sum(sizes + [m]) == Sum(sizes) + m
  {
    assert (sizes + [m])[..|sizes|] == sizes;
  }

  lemma {:induction false} UsedTotal(sizes: seq<nat>)
    ensures Total(UsedRuns(sizes)) == Sum(sizes)
    decreases |sizes|
  {
    if sizes != [] {
      var a, m := sizes[..|sizes| - 1], sizes[|sizes| - 1];
      assert sizes == a + [m];
      UsedTotal(a);
      UsedPush(a, m);
      TotalParts(UsedRuns(a), Run(m, true), []);
    }
  }

  /** From such a heap blocks are handed out in order until they run out. */
  lemma TakeFilled(sizes: seq<nat>, rest: nat, m: nat)
    requires m >= 1
    ensures HeapHistory.TakeRuns(Filled(sizes, rest), m)
         == if m <= rest then Some((Filled(sizes + [m], rest - m), Sum(sizes))) else None
  {
    var rs, k := Filled(sizes, rest), FirstFit(Filled(sizes, rest), m);
    forall j | 0 <= j < |sizes| ensures !Fits(rs[j], m) { assert rs[j] == UsedRuns(sizes)[j]; }
    if m <= rest {
      assert Fits(rs[|sizes|], m);
      assert k == |sizes| && rs[..k] == UsedRuns(sizes);
      UsedTotal(sizes);
      UsedPush(sizes, m);
      assert rs[k] == Run(rest, false) && rs[k + 1..] == [];
      assert Taken(rest, m) == [Run(m, true)] + if rest == m then [] else [Run(rest - m, false)];
      assert AllocAt(rs, k, m) == UsedRuns(sizes) + Taken(rest, m);
      assert AllocAt(rs, k, m) == Filled(sizes + [m], rest - m);
      assert Start(rs, k) == Sum(sizes);
    } else {
      assert k == |rs|;
    }
  }

  lemma GrabFilled(sizes: seq<nat>, rest: nat, uses: map<nat, Use>, m: nat, u: Use)
    requires m >= 1
    ensures Grab(Mem(Filled(sizes, rest), uses), m, u)
         == if m <= rest then Some((Mem(Filled(sizes + [m], rest - m), uses[Sum(sizes) := u]), Sum(sizes))) else None
  {
    TakeFilled(sizes, rest, m);
  }

  /* ---- the allocations of main ---- */

  const CONSOLE_BLOCKS: nat := 16

  /** `__mem_init`. */
  function Initial(n: nat): Mem
    requires IndexBlocks(n) <= n
  {
    Mem(HeapHistory.Boot(n, IndexBlocks(n)), map[0 := Index])
  }

  /** An allocation whose failure nobody looks at. */
  function Tried(m: Mem, n: nat, u: Use): Mem {
    match Grab(m, n, u)
    case None => m
    case Some((m', _)) => m'
  }

  /** The heap when the stacks are allocated, and where kernel_main's record and the first user
      stack are. */
  datatype Layout = Layout(mem: Mem, kernelMain: nat, userStack: nat)

  /** Two allocations, the second looked at only if the first succeeds. */
  function Two(m: Mem, n: nat, u: Use, n': nat, u': Use): Option<(Mem, nat, nat)> {
    match Grab(m, n, u)
    case None => None
    case Some((m1, b)) =>
      match Grab(m1, n', u')
      case None => None
      case Some((m2, b')) => Some((m2, b, b'))
  }

  /** The allocations that are looked at: records of kernel_main and the scheduler, and two stacks.
      Nothing if one of them finds no block: `main` then gets no further. */
  function Checked(m: Mem): Option<Layout> {
    match Two(m, 1, ThreadOf, 1, System)
    case None => None
    case Some((m1, kernelMain, _)) =>
      match Two(m1, STACK_BLOCKS, System, STACK_BLOCKS, User)
      case None => None
      case Some((m2, _, userStack)) => Some(Layout(m2, kernelMain, userStack))
  }

  function Allocate(n: nat): Option<Layout>
    requires IndexBlocks(n) <= n
  {
    Checked(Tried(Tried(Initial(n), CONSOLE_BLOCKS, System), CONSOLE_BLOCKS, System))
  }

  /** The purposes of the four blocks handed out from block b on. */
  function CheckedUses(uses: map<nat, Use>, b: nat): map<nat, Use> {
    var b1: nat, b2: nat, b3: nat := b + 1, b + 2, b + 66;
    uses[b := ThreadOf][b1 := System][b2 := System][b3 := User]
  }

  lemma CheckedFits(sizes: seq<nat>, rest: nat, uses: map<nat, Use>)
    ensures Checked(Mem(Filled(sizes, rest), uses))
         == if rest >= 130
            then Some(Layout(Mem(Filled(sizes + [1] + [1] + [STACK_BLOCKS] + [STACK_BLOCKS], rest - 130),
              CheckedUses(uses, Sum(sizes))),
                             Sum(sizes), Sum(sizes) + 66))
            else None
  {
    hide Filled, Two, Sum;
    var b := Sum(sizes);
    var s2 := sizes + [1] + [1];
    UsedPush(sizes, 1);
    UsedPush(sizes + [1], 1);
    TwoFilled(sizes, rest, uses, 1, ThreadOf, 1, System);
    if rest >= 2 {
      var uses2: map<nat, Use> := uses[b := ThreadOf][b + 1 := System];
      assert Sum(s2) == b + 2;
      TwoFilled(s2, rest - 2, uses2, STACK_BLOCKS, System, STACK_BLOCKS, User);
      assert Two(Mem(Filled(sizes, rest), uses), 1, ThreadOf, 1, System)
        == Some((Mem(Filled(s2, rest - 2), uses2), b, b + 1));
    }
  }

  lemma TwoFilled(sizes: seq<nat>, rest: nat, uses: map<nat, Use>, n: nat, u: Use, n': nat, u': Use)
    requires n >= 1 && n' >= 1
    ensures Two(Mem(Filled(sizes, rest), uses), n, u, n', u')
         == if n + n' <= rest
            then Some((Mem(Filled(sizes + [n] + [n'], rest - n - n'), uses[Sum(sizes) := u][Sum(sizes) + n := u']),
              Sum(sizes), Sum(sizes) + n))
            else None
  {
    hide Filled, Grab, Sum;
    GrabFilled(sizes, rest, uses, n, u);
    UsedPush(sizes, n);
    if n <= rest { GrabFilled(sizes + [n], rest - n, uses[Sum(sizes) := u], n', u'); }
  }

  /** What the allocations take, behind the index. */
  const BOOT_BLOCKS: nat := 162

  /** The allocations succeed exactly if there is room for all of them, and lie one behind the
      other. */
  lemma AllocateFits(n: nat)
    requires n >= 2
    ensures IndexBlocks(n) < n
    ensures Allocate(n).Some? <==> IndexBlocks(n) + BOOT_BLOCKS <= n
    ensures Allocate(n).Some? ==>
              var (i, l) := (IndexBlocks(n), Allocate(n).value);
              && l.kernelMain == i + 32 && l.userStack == i + 98
              && l.mem.runs == Filled(BootSizes(i), n - i - BOOT_BLOCKS)
              && l.mem.uses == BootUses(i)
  {
    hide Filled, Grab, Sum, Checked;
    IndexFits(n);
    BootFilled(n);
    var i, uses := IndexBlocks(n), map[0 := Index];
    Sums(i);
    GrabFilled([i], n - i, uses, 16, System);
    CheckedFits([i], n - i, uses);
    if n - i >= 16 {
      GrabFilled([i] + [16], n - i - 16, uses[i := System], 16, System);
      CheckedFits([i] + [16], n - i - 16, uses[i := System]);
    }
    if n - i >= 32 {
      CheckedFits([i] + [16] + [16], n - i - 32, uses[i := System][i + 16 := System]);
    }
  }

  /** Without the console's buffers there is no room for the rest either. */
  lemma BuffersFirst(n: nat)
    requires n >= 2
    ensures IndexBlocks(n) < n
    ensures Allocate(n).Some? ==>
              var m := Tried(Initial(n), CONSOLE_BLOCKS, System);
              Grab(Initial(n), CONSOLE_BLOCKS, System).Some? && Grab(m, CONSOLE_BLOCKS, System).Some?
  {
    hide Filled, Grab, Sum, Allocate;
    AllocateFits(n);
    BootFilled(n);
    var i := IndexBlocks(n);
    GrabFilled([i], n - i, map[0 := Index], 16, System);
    Sums(i);
    if n - i >= 16 { GrabFilled([i] + [16], n - i - 16, map[0 := Index][i := System], 16, System); }
  }

  function BootSizes(i: nat): seq<nat> { [i] + [16] + [16] + [1] + [1] + [STACK_BLOCKS] + [STACK_BLOCKS] }

  function BootUses(i: nat): map<nat, Use> {
    var i1: nat, i2: nat := i + 16, i + 32;
    CheckedUses(map[0 := Index][i := System][i1 := System], i2)
  }

  lemma BootFilled(n: nat)
    requires n >= 2
    ensures IndexBlocks(n) < n && Initial(n).runs == Filled([IndexBlocks(n)], n - IndexBlocks(n))
  {
    IndexFits(n);
    assert UsedRuns([IndexBlocks(n)]) == [Run(IndexBlocks(n), true)];
  }

  lemma NoSum()
    ensures Sum([]) == 0
  {
  }

  lemma Sums(i: nat)
    ensures Sum([i]) == i && Sum([i] + [16]) == i + 16 && Sum([i] + [16] + [16]) == i + 32
    ensures Sum(BootSizes(i)) == i + BOOT_BLOCKS
  {
    hide Sum;
    var s0: seq<nat> := [];
    assert s0 + [i] == [i];
    NoSum();
    UsedPush(s0, i);
    UsedPush([i], 16);
    UsedPush([i] + [16], 16);
    UsedPush([i] + [16] + [16], 1);
    UsedPush([i] + [16] + [16] + [1], 1);
    UsedPush([i] + [16] + [16] + [1] + [1], STACK_BLOCKS);
    UsedPush([i] + [16] + [16] + [1] + [1] + [STACK_BLOCKS], STACK_BLOCKS);
  }

  /* ---- the heap they leave ---- */

  ghost predicate OwnedBy(m: Mem, n: nat) { Owned(m, n, IndexBlocks(n)) }

  lemma InitialOwned(n: nat)
    requires n >= 2
    ensures IndexBlocks(n) < n && OwnedBy(Initial(n), n)
  {
    IndexFits(n);
    HeapHistory.BootIsHeap(n, IndexBlocks(n));
  }

  lemma GrabOwned(m: Mem, n: nat, k: nat, u: Use)
    requires OwnedBy(m, n) && k >= 1 && RightSize(u, k) && u != Index
    ensures OwnedBy(Tried(m, k, u), n)
    ensures Grab(m, k, u).Some? ==>
              OwnedBy(Grab(m, k, u).value.0, n)
                && Live(Grab(m, k, u).value.0.runs) == Live(m.runs)[Grab(m, k, u).value.1 := k]
  {
    GrabOk(m, k, u, n, IndexBlocks(n));
  }

  lemma TwoOwned(m: Mem, n: nat, k: nat, u: Use, k': nat, u': Use)
    requires OwnedBy(m, n) && k >= 1 && RightSize(u, k) && u != Index && k' >= 1 && RightSize(u', k') && u' != Index
    ensures Two(m, k, u, k', u').Some? ==>
              var (m2, _, b') := Two(m, k, u, k', u').value;
              OwnedBy(m2, n) && b' in Live(m2.runs) && Live(m2.runs)[b'] == k'
  {
    hide OwnedBy, Grab;
    GrabOwned(m, n, k, u);
    if Grab(m, k, u).Some? { GrabOwned(Grab(m, k, u).value.0, n, k', u'); }
  }

  /** The heap is in order, and the user stack is a whole allocation. */
  lemma AllocateOwned(n: nat)
    requires n >= 2
    ensures IndexBlocks(n) < n
    ensures Allocate(n).Some? ==>
              var l := Allocate(n).value;
              OwnedBy(l.mem, n) && l.userStack in Live(l.mem.runs) && Live(l.mem.runs)[l.userStack] == STACK_BLOCKS
  {
    hide OwnedBy, Grab, Two, Tried;
    InitialOwned(n);
    var m1 := Tried(Initial(n), CONSOLE_BLOCKS, System);
    var m2 := Tried(m1, CONSOLE_BLOCKS, System);
    GrabOwned(Initial(n), n, CONSOLE_BLOCKS, System);
    GrabOwned(m1, n, CONSOLE_BLOCKS, System);
    TwoOwned(m2, n, 1, ThreadOf, 1, System);
    var o := Two(m2, 1, ThreadOf, 1, System);
    if o.Some? { TwoOwned(o.value.0, n, STACK_BLOCKS, System, STACK_BLOCKS, User); }
  }

  /* ---- the state after __scheduler_init, and the first user thread ---- */

  /** What start-up finds: where the heap is, the wrapper's address, the registers, the garbage in
      kernel_main's record, and where `userMain` is. */
  datatype Machinery = Machinery(base: nat, blocks: nat, wrapper: nat, garbage: Frame, csr: Frame, a0: map<nat, int>,
    userMain: int)

  ghost predicate CanStart(x: Machinery) {
    0 < x.base && x.base + x.blocks * BLOCK < TWO64 && 2 <= x.blocks < TWO31 && x.csr.sstatus.kernel
  }

  /** kernel_main runs, with nothing in its record but its stack field and its slice, and nothing
      is queued. */
  function Booted(x: Machinery, l: Layout): State {
    State(x.base, x.blocks, x.wrapper, l.mem, 0, map[l.kernelMain := Tcb(x.garbage, 0, 1)],
          ThreadQueues.Queues([], [], map[], [], map[]), [], l.kernelMain, l.kernelMain, x.csr, x.a0, 0)
  }

  lemma BootedOk(x: Machinery)
    requires CanStart(x)
    ensures IndexBlocks(x.blocks) < x.blocks
    ensures Allocate(x.blocks).Some? ==> Inv(Booted(x, Allocate(x.blocks).value))
  {
    hide Allocate, Owned, BootUses, BootSizes, Inv, Filled;
    AllocateOwned(x.blocks);
    AllocateFits(x.blocks);
    BootKinds(IndexBlocks(x.blocks));
    if Allocate(x.blocks).Some? { BootInv(Booted(x, Allocate(x.blocks).value)); }
  }

  lemma BootKinds(i: nat)
    ensures i + 32 in BootUses(i) && BootUses(i)[i + 32] == ThreadOf
    ensures forall b :: b in BootUses(i) && b != i + 32 ==> BootUses(i)[b] in {Index, System, User}
  {
  }

  lemma BootInv(s: State)
    requires 0 < s.base && s.base + s.blocks * BLOCK < TWO64 && 2 <= s.blocks < TWO31
    requires Owned(s.mem, s.blocks, IndexBlocks(s.blocks))
    requires s.idle in s.mem.uses && s.mem.uses[s.idle] == ThreadOf
    requires forall b :: b in s.mem.uses && b != s.idle ==> s.mem.uses[b] in {Index, System, User}
    requires s.threads.Keys == {s.idle} && s.threads[s.idle].timeLeft == 1
    requires s.q == ThreadQueues.Queues([], [], map[], [], map[]) && s.current == s.idle && s.csr.sstatus.kernel
    requires s.users == 0 && s.rx == []
    ensures Inv(s)
  {
    hide Owned;
    forall r ensures ThreadQueues.RingOk(s.q, r) { assert ThreadQueues.RingOf(s.q, r) == []; }
    assert |s.threads| == |s.threads.Keys| == 1;
    assert DeltaQueue.Due([]) == map[];
  }

  /** The top of the user stack, as `main` passes it on. */
  function UserTop(x: Machinery, l: Layout): nat { AddrOf(x.base, l.userStack) + STACK_SIZE - 8 }

  lemma StackHigh(x: Machinery)
    requires CanStart(x)
    ensures IndexBlocks(x.blocks) < x.blocks
    ensures Allocate(x.blocks).Some? ==>
              var top := UserTop(x, Allocate(x.blocks).value); top >= STACK_SIZE && x.base <= BottomOf(top)
  {
    hide Allocate;
    AllocateFits(x.blocks);
  }

  /** The state at kernel_main's first dispatch; nothing if start-up runs out of blocks. */
  ghost function Started(x: Machinery): Option<State>
    requires CanStart(x)
  {
    IndexFits(x.blocks);
    match Allocate(x.blocks)
    case None => None
    case Some(l) =>
      match Grab(l.mem, 1, ThreadOf)
      case None => None
      case Some((m, b)) =>
        StackHigh(x);
        Some(Created(Booted(x, l), x.userMain, UserTop(x, l), m, b))
  }

  /** All that start-up allocates. */
  const START_BLOCKS: nat := 163

  /** Start-up succeeds exactly if the heap has 163 blocks besides its index.  Then the machine is
      in order, one user thread is counted, and it is ready to run `userMain` through the wrapper,
      in user mode, on its stack. */
  lemma StartedOk(x: Machinery)
    requires CanStart(x)
    ensures Started(x).Some? <==> IndexBlocks(x.blocks) + START_BLOCKS <= x.blocks
    ensures Started(x).Some? ==>
              var (s, i) := (Started(x).value, IndexBlocks(x.blocks));
              var user := i + 162;
              && Inv(s) && s.users == 1 && s.q.ready == [user] && s.threads.Keys == {s.idle, user}
              && s.idle == i + 32 && s.current == s.idle && s.opens == 0 && s.rx == []
              && s.threads[user] == Tcb(Frame(x.wrapper, x.csr.sstatus.(kernel := false),
                 AddrOf(x.base, i + 98) + STACK_SIZE - 8 - CONTEXT_SIZE),
                                        AddrOf(x.base, i + 98), TIME_SLICE)
              && (CanAlloc(s.mem.runs, 1) <==> IndexBlocks(x.blocks) + START_BLOCKS < x.blocks)
              && s.csr == x.csr && s.threads[s.idle] == Tcb(x.garbage, 0, 1)
              && s.a0 == x.a0[x.base + 64 * (i + 98) + 4096 - 8 - 256 := x.userMain]
              && s.q.input == [] && s.q.sems == map[] && s.q.sleepers == []
  {
    hide Inv, Filled, Sum, Allocate, Grab;
    AllocateFits(x.blocks);
    if Allocate(x.blocks).Some? {
      var l, i := Allocate(x.blocks).value, IndexBlocks(x.blocks);
      Sums(i);
      GrabFilled(BootSizes(i), x.blocks - i - BOOT_BLOCKS, BootUses(i), 1, ThreadOf);
      if Started(x).Some? {
        BootedOk(x);
        StartedInv(x, l);
        RoomLeft(BootSizes(i) + [1], x.blocks - i - START_BLOCKS);
      }
    }
  }

  lemma RoomLeft(sizes: seq<nat>, rest: nat)
    ensures CanAlloc(Filled(sizes, rest), 1) <==> rest >= 1
  {
    TakeFilled(sizes, rest, 1);
  }

  lemma StartedInv(x: Machinery, l: Layout)
    requires CanStart(x) && IndexBlocks(x.blocks) < x.blocks && Allocate(x.blocks) == Some(l) && Inv(Booted(x, l))
    requires Started(x).Some?
    ensures Inv(Started(x).value)
  {
    hide Inv, Allocate, Grab, Owned;
    var s0 := Booted(x, l);
    AllocateOwned(x.blocks);
    AllocateFits(x.blocks);
    AddrRoundTrip(x.base, l.userStack);
    assert BottomOf(UserTop(x, l)) == AddrOf(x.base, l.userStack);
    assert IsFreshStack(s0, UserTop(x, l));
    CreateOk(s0, x.userMain, UserTop(x, l));
    WithoutReturn(CreateStep(s0, x.userMain, UserTop(x, l)), Started(x).value);
  }

  lemma WithoutReturn(s: State, s': State)
    requires Inv(s) && s' == s.(a0 := s'.a0)
    ensures Inv(s')
  {
    hide Core, Modes;
    CoreSame(s, s', Some(s.current));
    ModesSame(s, s');
  }

  /* ---- the first dispatch ---- */

  /** kernel_main's first dispatch puts `userMain` on the processor: through the wrapper, in user
      mode, below the top of its stack. */
  lemma UserMainRuns(x: Machinery, f: Frame)
    requires CanStart(x) && Started(x).Some? && f.sstatus.kernel
    ensures var s := Started(x).value; Refs(s) && Enabled(s, KernelDispatch, f)
    ensures var (s, i) := (Started(x).value, IndexBlocks(x.blocks)); var o := Step(s, KernelDispatch, f);
            && o.Goes? && Inv(o.state) && o.state.current == i + 162 && o.state.q.ready == []
            && o.state.csr == Frame(x.wrapper, x.csr.sstatus.(kernel := false),
               AddrOf(x.base, i + 98) + STACK_SIZE - 8 - CONTEXT_SIZE)
  {
    hide Inv, Started, Refs, Step;
    StartedOk(x);
    StartedMode(x);
    FirstDispatch(Started(x).value, f);
  }

  lemma FirstDispatch(s: State, f: Frame)
    requires Inv(s) && f.sstatus.kernel && s.csr.sstatus.kernel && s.q.ready != [] && s.q.ready[0] != s.current
    ensures Refs(s) && Enabled(s, KernelDispatch, f)
    ensures var o := Step(s, KernelDispatch, f);
            && o.Goes? && Inv(o.state) && o.state.current == s.q.ready[0] && o.state.q.ready == s.q.ready[1..]
            && s.q.ready[0] in s.threads && o.state.csr == s.threads[s.q.ready[0]].frame
  {
    hide Inv, Switch, Refs;
    var s0 := Enter(s, KernelDispatch, f);
    EnterOk(s, KernelDispatch, f);
    DispatchSteps(s, f);
    StepOk(s, KernelDispatch, f);
    DispatchSame(s0);
    SwitchTo(s0);
  }

  lemma DispatchSteps(s: State, f: Frame)
    requires Refs(s) && Enabled(s, KernelDispatch, f) && Refs(Enter(s, KernelDispatch, f))
    ensures Step(s, KernelDispatch, f) == Goes(KernelDispatchStep(Enter(s, KernelDispatch, f)))
  {
    hide Refs, KernelDispatchStep;
  }

  lemma DispatchSame(s: State)
    requires Inv(s) && s.current == s.idle
    ensures Refs(s) && KernelDispatchStep(s) == Switch(s)
  {
    hide Core, Refs, KernelDispatchStep, Switch;
    KernelDispatchOk(s);
  }

  lemma StartedMode(x: Machinery)
    requires CanStart(x) && Started(x).Some?
    ensures Started(x).value.csr == x.csr
  {
    hide Allocate, Grab, CreateStep;
  }

  lemma SwitchTo(s: State)
    requires Refs(s) && s.q.ready != [] && s.q.ready[0] != s.current
    ensures Switch(s).current == s.q.ready[0] && Switch(s).q.ready == s.q.ready[1..]
    ensures s.q.ready[0] in s.threads && Switch(s).csr == s.threads[s.q.ready[0]].frame
  {
  }
}
