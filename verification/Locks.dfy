/**
  Queueing locks and the reader/writer lock built from them, as processes that take one step at a time.

  A step is one test-and-set, one critical section under a spin lock, one release, one wait on the
  process's own semaphore, or one wakeup of another's.  Spinning is a step that changes nothing.  The
  semaphore counts, so a wakeup may come before the wait.

  Three queueing locks share the processes: X and K are those of a reader/writer lock, M is used on its
  own.  The fields `queue`, `owner` and `grant` stand beside the program's own variables, which never
  depend on them (`AuxiliaryOnly`).
 */
module Locks {
  import opened Basics

  type Pid = nat

  datatype Lk = X | K | M

  datatype QLock = QLock(use: Option<Pid>, locked: bool, head: Option<Pid>, tail: Option<Pid>,
                         queue: seq<Pid>, owner: Option<Pid>)

  /** The routine on whose behalf a process works on a queueing lock. */
  datatype Caller = RLock | CanRLock | RUnlock | WLock | WUnlock | User | CanUser

  /** qlock: spin for `use`, test `locked`, release with the lock or queued, wait for the hand-off. */
  datatype QStage = QAcq | QTest | QGot | QPut | QBlock

  /** canqlock: one try at `use`, test `locked`, release with either answer. */
  datatype CStage = CTry | CTest | CYes | CNo

  /** qunlock: spin for `use`, look for a waiter, release, wake the waiter taken off the queue. */
  datatype UStage = UAcq | UTest | UDone | UWake(p: Pid) | UReady(p: Pid)

  /** The spin lock `l` around the reader count. */
  datatype LStage = LAcq | LInc | LDec | LRel

  datatype PC =
    | Idle | Reading | Writing | Owning
    | Q(w: Lk, c: Caller, q: QStage)
    | C(w: Lk, c: Caller, k: CStage)
    | U(w: Lk, c: Caller, u: UStage)
    | L(c: Caller, l: LStage)

  /** A hand-off: not come, in the hands of process u, or delivered to the semaphore. */
  datatype Grant = Nope | From(u: Pid) | Sent

  datatype State = State(x: QLock, k: QLock, m: QLock, l: Option<Pid>, readers: int,
                         pc: seq<PC>, sem: seq<nat>, qnext: seq<Option<Pid>>, grant: seq<Grant>)

  function Get(s: State, w: Lk): QLock {
    match w
    case X => s.x
    case K => s.k
    case M => s.m
  }

  predicate Shaped(s: State) {
    |s.sem| == |s.pc| && |s.qnext| == |s.pc| && |s.grant| == |s.pc|
  }

  // ----- where the routines return to

  function AfterQ(w: Lk, c: Caller): PC {
    match c
    case RLock => L(RLock, LAcq)
    case WLock => if w == X then Q(K, WLock, QAcq) else Writing
    case User => Owning
    case _ => Idle
  }

  function AfterC(c: Caller, w: Lk, ok: bool): PC {
    if w == K then L(c, LRel)            // rlock and canrlock ignore the answer
    else if !ok then Idle
    else if c == CanRLock then L(CanRLock, LAcq)
    else Owning
  }

  function AfterU(w: Lk, c: Caller): PC {
    match c
    case RUnlock => L(RUnlock, LRel)
    case WUnlock => if w == K then U(X, WUnlock, UAcq) else Idle
    case User => Idle
    case _ => Reading
  }

  /** What an idle process may call; a process that has a lock can only give it back. */
  function Call(c: Caller): PC {
    match c
    case RLock => Q(X, RLock, QAcq)
    case CanRLock => C(X, CanRLock, CTry)
    case WLock => Q(X, WLock, QAcq)
    case User => Q(M, User, QAcq)
    case CanUser => C(M, CanUser, CTry)
    case _ => Idle
  }

  // ----- one step of process p, variable by variable

  /** The next program counter of a process at a, given the lock q it works on and its own semaphore. */
  function Next(a: PC, q: QLock, l: Option<Pid>, readers: int, sem: nat, call: Caller): PC {
    match a
    case Idle => Call(call)
    case Reading => L(RUnlock, LAcq)
    case Writing => U(K, WUnlock, UAcq)
    case Owning => U(M, User, UAcq)
    case Q(w, c, st) => (
      match st
      case QAcq => if q.use.Some? then a else Q(w, c, QTest)
      case QTest => Q(w, c, if q.locked then QPut else QGot)
      case QGot => AfterQ(w, c)
      case QPut => Q(w, c, QBlock)
      case QBlock => if sem == 0 then a else AfterQ(w, c))
    case C(w, c, st) => (
      match st
      case CTry => if q.use.Some? then AfterC(c, w, false) else C(w, c, CTest)
      case CTest => C(w, c, if q.locked then CNo else CYes)
      case CYes => AfterC(c, w, true)
      case CNo => AfterC(c, w, false))
    case U(w, c, st) => (
      match st
      case UAcq => if q.use.Some? then a else U(w, c, UTest)
      case UTest => U(w, c, if q.head.Some? then UWake(q.head.value) else UDone)
      case UDone => AfterU(w, c)
      case UWake(h) => U(w, c, UReady(h))
      case UReady(_) => AfterU(w, c))
    case L(c, st) =>
      match st
      case LAcq => if l.Some? then a else L(c, if c == RUnlock then LDec else LInc)
      case LInc => C(K, c, CTry)
      case LDec => if readers - 1 == 0 then U(K, RUnlock, UAcq) else L(RUnlock, LRel)
      case LRel => if c == RUnlock then Idle else U(X, c, UAcq)
  }

  /** What the process does to the lock it works on; `next` is the link of the lock's first waiter. */
  function Touch(q: QLock, a: PC, p: Pid, next: Option<Pid>): QLock {
    match a
    case Q(_, _, st) => (
      match st
      case QAcq => if q.use.Some? then q else q.(use := Some(p))
      case QTest =>
        if !q.locked then q.(locked := true, owner := Some(p))
        else q.(head := if q.tail.None? then Some(p) else q.head, tail := Some(p), queue := q.queue + [p])
      case QBlock => q
      case _ => q.(use := None))
    case C(w, _, st) => (
      match st
      case CTry => if q.use.Some? then q else q.(use := Some(p))
      case CTest => if q.locked then q else q.(locked := true, owner := if w == K then None else Some(p))
      case _ => q.(use := None))
    case U(_, _, st) => (
      match st
      case UAcq => if q.use.Some? then q else q.(use := Some(p))
      case UTest =>
        if q.head.None? then q.(locked := false, owner := None)
        else q.(head := next, tail := if next.None? then None else q.tail,
                queue := if q.queue == [] then [] else q.queue[1..], owner := q.head)
      case UReady(_) => q
      case _ => q.(use := None))
    case _ => q
  }

  function TouchL(l: Option<Pid>, a: PC, p: Pid): Option<Pid> {
    if !a.L? then l
    else if a.l == LAcq then if l.Some? then l else Some(p)
    else if a.l == LRel then None
    else l
  }

  function TouchReaders(n: int, a: PC): int {
    if a.L? && a.l == LInc then n + 1 else if a.L? && a.l == LDec then n - 1 else n
  }

  /** Element i becomes v; every pointer the locks follow names a process (`Lists`, `Woken`). */
  function Set<T>(s: seq<T>, i: nat, v: T): (r: seq<T>)
    ensures |r| == |s|
  {
    if i < |s| then s[i := v] else s
  }

  function Links(qnext: seq<Option<Pid>>, q: QLock, a: PC, p: Pid): (r: seq<Option<Pid>>)
    ensures |r| == |qnext|
  {
    if a.Q? && a.q == QTest && q.locked then
      Set(if q.tail.Some? then Set(qnext, q.tail.value, Some(p)) else qnext, p, None)
    else qnext
  }

  function Sems(sem: seq<nat>, a: PC, p: Pid): (r: seq<nat>)
    ensures |r| == |sem|
  {
    if a.Q? && a.q == QBlock && p < |sem| && sem[p] > 0 then Set(sem, p, sem[p] - 1)
    else if a.U? && a.u.UReady? && a.u.p < |sem| then Set(sem, a.u.p, sem[a.u.p] + 1)
    else sem
  }

  function Grants(g: seq<Grant>, q: QLock, sem: nat, a: PC, p: Pid): (r: seq<Grant>)
    ensures |r| == |g|
  {
    if a.Q? && a.q == QBlock && sem > 0 then Set(g, p, Nope)
    else if a.U? && a.u == UTest && q.head.Some? then Set(g, q.head.value, From(p))
    else if a.U? && a.u.UReady? then Set(g, a.u.p, Sent)
    else g
  }

  /** The lock a process at a works on. */
  function On(a: PC): Lk { if a.Q? || a.C? || a.U? then a.w else M }

  function Link(s: State, q: QLock): Option<Pid> {
    if q.head.Some? && q.head.value < |s.qnext| then s.qnext[q.head.value] else None
  }

  function Touched(s: State, w: Lk, p: Pid): QLock
    requires p < |s.pc|
  {
    if w == On(s.pc[p]) then Touch(Get(s, w), s.pc[p], p, Link(s, Get(s, w))) else Get(s, w)
  }

  /** Process p takes its next step; an idle one makes the call `call`. */
  function Step(s: State, p: Pid, call: Caller): (t: State)
    requires Shaped(s) && p < |s.pc|
    ensures Shaped(t) && |t.pc| == |s.pc|
  {
    var a := s.pc[p];
    var q := Get(s, On(a));
    State(Touched(s, X, p), Touched(s, K, p), Touched(s, M, p), TouchL(s.l, a, p), TouchReaders(s.readers, a),
          s.pc[p := Next(a, q, s.l, s.readers, s.sem[p], call)],
          Sems(s.sem, a, p), Links(s.qnext, q, a, p), Grants(s.grant, q, s.sem[p], a, p))
  }

  // ----- what a program counter says

  predicate Reader(c: Caller) { c == RLock || c == CanRLock }

  /** The calls the routines make of each other. */
  predicate Sane(a: PC) {
    match a
    case Q(w, c, _) => if w == X then c == RLock || c == WLock else if w == K then c == WLock else c == User
    case C(w, c, _) => if w == X then c == CanRLock else if w == K then Reader(c) else c == CanUser
    case U(w, c, _) =>
      if w == X then Reader(c) || c == WUnlock else if w == K then c == RUnlock || c == WUnlock else c == User
    case L(c, st) => (Reader(c) && st != LDec) || (c == RUnlock && st != LInc)
    case _ => true
  }

  /** Holds the spin lock `use` of w. */
  predicate Uses(a: PC, w: Lk) {
    match a
    case Q(v, _, st) => v == w && (st == QTest || st == QGot || st == QPut)
    case C(v, _, st) => v == w && st != CTry
    case U(v, _, st) => v == w && st != UAcq && !st.UReady?
    case _ => false
  }

  /** Holds the spin lock `l`. */
  predicate HoldsL(a: PC) {
    match a
    case L(_, st) => st != LAcq
    case C(w, _, _) => w == K
    case U(w, c, _) => w == K && c == RUnlock
    case _ => false
  }

  /** On the queue of w, unless the hand-off has come. */
  predicate Waits(a: PC, w: Lk) { a.Q? && a.w == w && (a.q == QPut || a.q == QBlock) }

  /** Has the lock w; g is the state of the hand-off. */
  predicate Owns(a: PC, g: Grant, w: Lk) {
    match a
    case Q(v, _, st) => (v == K && w == X) || (v == w && (st == QGot || (st == QBlock && g != Nope)))
    case C(v, _, st) => (v == K && w == X) || (v == w && w != K && st == CYes)
    case U(v, c, st) =>
      (v == K && c == WUnlock && w == X) ||
      (v == w && !(v == K && c == RUnlock) && (st == UAcq || st == UTest))
    case L(c, _) => w == X && Reader(c)
    case Writing => w != M
    case Owning => w == M
    case _ => false
  }

  /** Counted in `readers`. */
  predicate Counted(a: PC) {
    match a
    case C(w, _, _) => w == K
    case U(w, c, _) => w == X && Reader(c)
    case L(c, st) => if c == RUnlock then st != LRel else st == LRel
    case Reading => true
    case _ => false
  }

  predicate Wakes(a: PC, p: Pid) { a.U? && (a.u == UWake(p) || a.u == UReady(p)) }

  // ----- the invariant

  predicate SanePC(s: State) { forall p: Pid {:trigger s.pc[p]} :: p < |s.pc| ==> Sane(s.pc[p]) }

  ghost predicate Spins(s: State) {
    forall p: Pid, w {:trigger Uses(s.pc[p], w)} :: p < |s.pc| ==> (Get(s, w).use == Some(p) <==> Uses(s.pc[p], w))
  }

  ghost predicate SpinsL(s: State) {
    forall p: Pid {:trigger s.pc[p]} :: p < |s.pc| ==> (s.l == Some(p) <==> HoldsL(s.pc[p]))
  }

  ghost predicate Owned(s: State)
    requires Shaped(s)
  {
    forall p: Pid, w {:trigger Owns(s.pc[p], s.grant[p], w)} :: p < |s.pc| ==>
      (Get(s, w).owner == Some(p) <==> Owns(s.pc[p], s.grant[p], w))
  }

  /** Only processes are named as holders. */
  ghost predicate Bounded(s: State) {
    (s.l.Some? ==> s.l.value < |s.pc|) &&
    forall w {:trigger Get(s, w)} :: (Get(s, w).use.Some? ==> Get(s, w).use.value < |s.pc|) &&
                                     (Get(s, w).owner.Some? ==> Get(s, w).owner.value < |s.pc|)
  }

  /** head, tail and the qnext links are one list, whose members are the queue in order. */
  ghost predicate Listed(head: Option<Pid>, tail: Option<Pid>, queue: seq<Pid>, qnext: seq<Option<Pid>>) {
    (queue == [] ==> head == None && tail == None) &&
    (queue != [] ==> head == Some(queue[0]) && tail == Some(queue[|queue| - 1])) &&
    (forall i {:trigger queue[i]} :: 0 <= i < |queue| ==> queue[i] < |qnext|) &&
    (forall i {:trigger qnext[queue[i]]} :: 0 <= i < |queue| ==>
      qnext[queue[i]] == if i + 1 < |queue| then Some(queue[i + 1]) else None)
  }

  ghost predicate Lists(s: State) {
    forall w {:trigger Get(s, w)} :: Listed(Get(s, w).head, Get(s, w).tail, Get(s, w).queue, s.qnext)
  }

  ghost predicate Distinct(q: seq<Pid>) { forall i, j :: 0 <= i < j < |q| ==> q[i] != q[j] }

  ghost predicate Apart(s: State) { forall w {:trigger Get(s, w)} :: Distinct(Get(s, w).queue) }

  /** Exactly the processes that wait and have not been handed the lock are on its queue. */
  ghost predicate Queued(s: State)
    requires Shaped(s)
  {
    forall p: Pid, w {:trigger Waits(s.pc[p], w)} :: p < |s.pc| ==>
      (p in Get(s, w).queue <==> Waits(s.pc[p], w) && s.grant[p] == Nope)
  }

  /** A hand-off is in the hands of exactly one waker or is the one unit of the semaphore. */
  ghost predicate Woken(s: State)
    requires Shaped(s)
  {
    (forall p: Pid {:trigger s.grant[p]} :: p < |s.pc| ==>
      (s.grant[p] != Nope ==> s.pc[p].Q? && s.pc[p].q == QBlock) &&
      s.sem[p] == (if s.grant[p] == Sent then 1 else 0) &&
      (s.grant[p].From? ==> s.grant[p].u < |s.pc|)) &&
    forall u: Pid, p: Pid {:trigger Wakes(s.pc[u], p)} :: u < |s.pc| ==>
      (Wakes(s.pc[u], p) <==> p < |s.pc| && s.grant[p] == From(u))
  }

  /** A lock is locked while it has an owner or someone waits for it. */
  ghost predicate LockedRight(s: State) {
    (s.x.locked <==> s.x.owner.Some?) && (s.m.locked <==> s.m.owner.Some?) &&
    forall w {:trigger Get(s, w)} :: Get(s, w).queue != [] ==> Get(s, w).locked
  }

  /** The number of counted processes. */
  function Count(pc: seq<PC>): nat {
    if pc == [] then 0 else Count(pc[..|pc| - 1]) + if Counted(pc[|pc| - 1]) then 1 else 0
  }

  /** K is held for the readers: one of them is counted and past its test of K, or the last one has still
      to give K back. */
  predicate ForReaders(s: State) {
    if s.l.Some? && s.l.value < |s.pc| then
      match s.pc[s.l.value]
      case C(_, _, st) => if st == CTry || st == CTest then s.readers > 1 else s.readers > 0
      case U(_, _, st) => st == UAcq || st == UTest
      case _ => s.readers > 0
    else s.readers > 0
  }

  ghost predicate ReadersRight(s: State) {
    s.readers == Count(s.pc) &&
    (s.l.Some? && s.l.value < |s.pc| && s.pc[s.l.value].U? ==> s.readers == 0) &&
    (s.k.locked <==> s.k.owner.Some? || ForReaders(s)) && !(s.k.owner.Some? && ForReaders(s))
  }

  ghost predicate Inv(s: State) {
    Shaped(s) && SanePC(s) && Spins(s) && SpinsL(s) && Owned(s) && Bounded(s) && Lists(s) && Apart(s) && Queued(s) &&
    Woken(s) && LockedRight(s) && ReadersRight(s)
  }

  // ----- every step keeps it

  /** p is about to hand the lock it works on to the first waiter. */
  predicate HandsOver(s: State, p: Pid)
    requires Shaped(s) && p < |s.pc|
  {
    s.pc[p].U? && s.pc[p].u == UTest && Get(s, s.pc[p].w).head.Some?
  }

  /** That waiter is past the spin lock, waiting on its semaphore. */
  predicate Ready(s: State, p: Pid)
    requires Shaped(s) && p < |s.pc|
  {
    HandsOver(s, p) ==>
      var q := Get(s, s.pc[p].w);
      q.queue != [] && q.head.value == q.queue[0] && q.queue[0] < |s.pc| && q.queue[0] != p &&
      Waits(s.pc[q.queue[0]], s.pc[p].w) && s.pc[q.queue[0]].q == QBlock && s.grant[q.queue[0]] == Nope
  }

  /** A process with a wakeup in hand. */
  predicate Posts(s: State, p: Pid)
    requires Shaped(s) && p < |s.pc|
  {
    s.pc[p].U? && s.pc[p].u.UReady? ==> s.pc[p].u.p < |s.pc| && s.grant[s.pc[p].u.p] == From(p)
  }

  lemma FirstWaits(s: State, p: Pid)
    requires Inv(s) && p < |s.pc|
    ensures Ready(s, p) && Posts(s, p)
  {
    if HandsOver(s, p) {
      var w := s.pc[p].w;
      var h := Get(s, w).head.value;
      assert Listed(Get(s, w).head, Get(s, w).tail, Get(s, w).queue, s.qnext);
      assert h in Get(s, w).queue;
      assert Waits(s.pc[h], w) && s.grant[h] == Nope;
      assert Uses(s.pc[h], w) <==> Get(s, w).use == Some(h);
      assert Uses(s.pc[p], w) <==> Get(s, w).use == Some(p);
    }
    if s.pc[p].U? && s.pc[p].u.UReady? { assert Wakes(s.pc[p], s.pc[p].u.p); }
  }

  lemma KeepsSane(s: State, p: Pid, call: Caller)
    requires Shaped(s) && p < |s.pc| && SanePC(s)
    ensures SanePC(Step(s, p, call))
  {
    assert Sane(s.pc[p]);
  }

  lemma KeepsSpins(s: State, p: Pid, call: Caller)
    requires Shaped(s) && p < |s.pc| && SanePC(s) && Spins(s)
    ensures Spins(Step(s, p, call))
  {
    var t := Step(s, p, call);
    forall r: Pid, w | r < |t.pc| ensures Get(t, w).use == Some(r) <==> Uses(t.pc[r], w) {
      assert Uses(s.pc[r], w) <==> Get(s, w).use == Some(r);
      assert Uses(s.pc[p], w) <==> Get(s, w).use == Some(p);
    }
  }

  lemma KeepsSpinsL(s: State, p: Pid, call: Caller)
    requires Shaped(s) && p < |s.pc| && SanePC(s) && SpinsL(s)
    ensures SpinsL(Step(s, p, call))
  {
    assert Sane(s.pc[p]);
    var t := Step(s, p, call);
    forall r: Pid | r < |t.pc| ensures t.l == Some(r) <==> HoldsL(t.pc[r]) {
      assert s.l == Some(r) <==> HoldsL(s.pc[r]);
      assert s.l == Some(p) <==> HoldsL(s.pc[p]);
    }
  }

  lemma KeepsBounded(s: State, p: Pid, call: Caller)
    requires Shaped(s) && p < |s.pc| && Bounded(s) && Ready(s, p)
    ensures Bounded(Step(s, p, call))
  {
    var t := Step(s, p, call);
    forall w
      ensures Get(t, w).use.Some? ==> Get(t, w).use.value < |t.pc|
      ensures Get(t, w).owner.Some? ==> Get(t, w).owner.value < |t.pc| {
      assert Get(t, w) == Touched(s, w, p);
    }
  }

  lemma KeepsOwned(s: State, p: Pid, call: Caller)
    requires Inv(s) && p < |s.pc| && Ready(s, p) && Posts(s, p)
    ensures Owned(Step(s, p, call))
  {
    var t := Step(s, p, call);
    assert HoldsL(s.pc[p]) <==> s.l == Some(p);
    forall r: Pid, w | r < |t.pc| ensures Get(t, w).owner == Some(r) <==> Owns(t.pc[r], t.grant[r], w) {
      OwnedBy(s, p, call, r, w);
    }
  }

  lemma OwnedBy(s: State, p: Pid, call: Caller, r: Pid, w: Lk)
    requires Shaped(s) && p < |s.pc| && r < |s.pc| && SanePC(s) && Owned(s) && Woken(s) && Ready(s, p) && Posts(s, p)
    requires !Get(s, w).locked ==> Get(s, w).owner == None
    requires s.pc[p] == U(K, RUnlock, UTest) ==> s.k.owner == None
    ensures var t := Step(s, p, call); Get(t, w).owner == Some(r) <==> Owns(t.pc[r], t.grant[r], w)
  {
    var t := Step(s, p, call);
    assert Get(t, w) == Touched(s, w, p);
    assert Owns(s.pc[r], s.grant[r], w) <==> Get(s, w).owner == Some(r);
    assert Owns(s.pc[p], s.grant[p], w) <==> Get(s, w).owner == Some(p);
    assert Sane(s.pc[p]);
    assert s.grant[p] != Nope ==> s.pc[p].Q? && s.pc[p].q == QBlock;
    GrantAfter(s, p, call, r);
    if r == p {
      var q := Get(s, On(s.pc[p]));
      OwnedSelf(s.pc[p], q, s.l, s.readers, s.sem[p], call, s.grant[p], t.grant[p], p, w, Link(s, q));
    } else {
      OwnedOther(s.pc[p], Get(s, w), s.pc[r], s.grant[r], t.grant[r], p, r, w, Link(s, Get(s, w)));
    }
  }

  /** The only changes of a hand-off. */
  lemma GrantAfter(s: State, p: Pid, call: Caller, r: Pid)
    requires Shaped(s) && p < |s.pc| && r < |s.pc| && Ready(s, p) && Posts(s, p)
    ensures Step(s, p, call).grant[r] ==
      if HandsOver(s, p) && r == Get(s, s.pc[p].w).head.value then From(p)
      else if s.pc[p].U? && s.pc[p].u == UReady(r) then Sent
      else if r == p && s.pc[p].Q? && s.pc[p].q == QBlock && s.sem[p] > 0 then Nope
      else s.grant[r]
  {
  }

  /** The process that moves owns w after its step exactly when its new place says so. */
  lemma OwnedSelf(a: PC, q: QLock, l: Option<Pid>, readers: int, sem: nat, call: Caller, g: Grant, h: Grant, p: Pid,
      w: Lk, next: Option<Pid>)
    requires Sane(a) && (w == On(a) && !q.locked ==> q.owner == None)
    requires w == On(a) ==> (q.owner == Some(p) <==> Owns(a, g, w))
    requires g != Nope ==> a.Q? && a.q == QBlock
    requires sem > 0 && a.Q? && a.q == QBlock ==> g == Sent
    requires h == if sem > 0 && a.Q? && a.q == QBlock then Nope else g
    requires a.U? && a.u == UTest && q.head.Some? ==> q.head != Some(p)
    ensures w == On(a) ==> (Touch(q, a, p, next).owner == Some(p) <==> Owns(Next(a, q, l, readers, sem, call), h, w))
    ensures w != On(a) ==> (Owns(a, g, w) <==> Owns(Next(a, q, l, readers, sem, call), h, w))
  {
  }

  /** Any other process owns w after the step as before, unless it is handed it. */
  lemma OwnedOther(a: PC, q: QLock, b: PC, g: Grant, h: Grant, p: Pid, r: Pid, w: Lk, next: Option<Pid>)
    requires Sane(a) && p != r && (!q.locked ==> q.owner == None)
    requires q.owner == Some(r) <==> Owns(b, g, w)
    requires a.U? && a.u == UTest && a.w == w ==> q.owner == Some(p) || q.owner == None
    requires if a.U? && a.u == UTest && a.w == w && q.head == Some(r) then h != Nope && Waits(b, w) && b.q == QBlock
      else (h == Nope <==> g == Nope) || (b.Q? && b.w != w)
    ensures (if w == On(a) then Touch(q, a, p, next) else q).owner == Some(r) <==> Owns(b, h, w)
  {
  }

  lemma KeepsLists(s: State, p: Pid, call: Caller)
    requires Shaped(s) && p < |s.pc| && Lists(s) && Queued(s) && Ready(s, p)
    ensures Lists(Step(s, p, call))
  {
    var t := Step(s, p, call);
    forall w ensures Listed(Get(t, w).head, Get(t, w).tail, Get(t, w).queue, t.qnext) { ListedBy(s, p, call, w); }
  }

  /** p is about to join the list of the lock it works on. */
  predicate Joins(s: State, p: Pid)
    requires Shaped(s) && p < |s.pc|
  {
    s.pc[p].Q? && s.pc[p].q == QTest && Get(s, s.pc[p].w).locked
  }

  lemma ListedBy(s: State, p: Pid, call: Caller, w: Lk)
    requires Shaped(s) && p < |s.pc| && Lists(s) && Queued(s) && Ready(s, p)
    ensures var t := Step(s, p, call); Listed(Get(t, w).head, Get(t, w).tail, Get(t, w).queue, t.qnext)
  {
    if Joins(s, p) {
      ListedJoin(s, p, call, w);
    } else {
      ListedElse(s, p, call, w);
    }
  }

  /** A step that puts nobody on a list takes the first off one or leaves them all. */
  lemma ListedElse(s: State, p: Pid, call: Caller, w: Lk)
    requires Shaped(s) && p < |s.pc| && Lists(s) && Ready(s, p) && !Joins(s, p)
    ensures var t := Step(s, p, call); Listed(Get(t, w).head, Get(t, w).tail, Get(t, w).queue, t.qnext)
  {
    var q := Get(s, w);
    assert Listed(q.head, q.tail, q.queue, s.qnext);
    LinksStand(s, p, call, w);
    if HandsOver(s, p) && w == s.pc[p].w {
      TouchedHand(s, p, w);
      Advanced(q, s.qnext);
    } else {
      TouchedElse(s, p, w);
    }
  }

  lemma LinksStand(s: State, p: Pid, call: Caller, w: Lk)
    requires Shaped(s) && p < |s.pc| && !Joins(s, p)
    ensures Step(s, p, call).qnext == s.qnext && Get(Step(s, p, call), w) == Touched(s, w, p)
  {
  }

  lemma TouchedHand(s: State, p: Pid, w: Lk)
    requires Shaped(s) && p < |s.pc| && Ready(s, p) && HandsOver(s, p) && w == s.pc[p].w
    requires Get(s, w).queue != [] && Get(s, w).head == Some(Get(s, w).queue[0])
    ensures Get(s, w).queue[0] < |s.qnext|
    ensures var q := Get(s, w); var n := s.qnext[q.queue[0]]; var q1 := Touched(s, w, p);
            q1.head == n && q1.tail == (if n.None? then None else q.tail) && q1.queue == q.queue[1..]
  {
  }

  lemma TouchedElse(s: State, p: Pid, w: Lk)
    requires Shaped(s) && p < |s.pc| && !Joins(s, p) && !(HandsOver(s, p) && w == s.pc[p].w)
    ensures var q := Get(s, w); var q1 := Touched(s, w, p);
            q1.head == q.head && q1.tail == q.tail && q1.queue == q.queue
  {
  }

  lemma ListedJoin(s: State, p: Pid, call: Caller, w: Lk)
    requires Shaped(s) && p < |s.pc| && Lists(s) && Queued(s) && Joins(s, p)
    ensures var t := Step(s, p, call); Listed(Get(t, w).head, Get(t, w).tail, Get(t, w).queue, t.qnext)
  {
    var t := Step(s, p, call);
    var q := Get(s, w);
    assert Get(t, w) == Touched(s, w, p);
    assert Listed(q.head, q.tail, q.queue, s.qnext);
    assert !Waits(s.pc[p], w);
    if w == s.pc[p].w { Appended(q, s.qnext, p); } else { LinkedApart(s, w, s.pc[p].w, p); }
  }

  /** A process joins the end of a list it is not on. */
  lemma Appended(q: QLock, qnext: seq<Option<Pid>>, p: Pid)
    requires Listed(q.head, q.tail, q.queue, qnext) && p !in q.queue && p < |qnext|
    ensures Listed(if q.tail.None? then Some(p) else q.head, Some(p), q.queue + [p],
                   Set(if q.tail.Some? then Set(qnext, q.tail.value, Some(p)) else qnext, p, None))
  {
    var n := Set(if q.tail.Some? then Set(qnext, q.tail.value, Some(p)) else qnext, p, None);
    var u := q.queue + [p];
    forall i | 0 <= i < |u| ensures n[u[i]] == if i + 1 < |u| then Some(u[i + 1]) else None {
      if i < |q.queue| {
        assert u[i] == q.queue[i] && q.queue[i] in q.queue;
        assert qnext[q.queue[i]] == if i + 1 < |q.queue| then Some(q.queue[i + 1]) else None;
      }
    }
  }

  /** Joining one list leaves the others alone: nobody is on two. */
  lemma LinkedApart(s: State, w: Lk, v: Lk, p: Pid)
    requires Shaped(s) && p < |s.pc| && w != v && Lists(s) && Queued(s) && !Waits(s.pc[p], w)
    ensures var q := Get(s, v); var g := Get(s, w);
      Listed(g.head, g.tail, g.queue, Set(if q.tail.Some? then Set(s.qnext, q.tail.value, Some(p))
          else s.qnext, p, None))
  {
    var q := Get(s, v);
    var n := Set(if q.tail.Some? then Set(s.qnext, q.tail.value, Some(p)) else s.qnext, p, None);
    var g := Get(s, w);
    var u := g.queue;
    assert Listed(q.head, q.tail, q.queue, s.qnext) && Listed(g.head, g.tail, g.queue, s.qnext);
    forall i | 0 <= i < |u| ensures n[u[i]] == s.qnext[u[i]] {
      assert u[i] in u && Waits(s.pc[u[i]], w);
      if q.tail.Some? {
        assert q.queue[|q.queue| - 1] in q.queue;
        assert Waits(s.pc[q.tail.value], v);
      }
    }
  }

  /** The first leaves the list. */
  lemma Advanced(q: QLock, qnext: seq<Option<Pid>>)
    requires Listed(q.head, q.tail, q.queue, qnext) && q.queue != []
    ensures var n := qnext[q.queue[0]]; Listed(n, if n.None? then None else q.tail, q.queue[1..], qnext)
  {
    var u := q.queue[1..];
    assert qnext[q.queue[0]] == if 1 < |q.queue| then Some(q.queue[1]) else None;
    forall i | 0 <= i < |u| ensures qnext[u[i]] == if i + 1 < |u| then Some(u[i + 1]) else None {
      assert u[i] == q.queue[i + 1];
    }
  }

  lemma KeepsApart(s: State, p: Pid, call: Caller)
    requires Shaped(s) && p < |s.pc| && Apart(s) && Queued(s)
    ensures Apart(Step(s, p, call))
  {
    var t := Step(s, p, call);
    forall w ensures Distinct(Get(t, w).queue) {
      assert Get(t, w) == Touched(s, w, p);
      assert !Waits(s.pc[p], w) ==> p !in Get(s, w).queue;
      assert Distinct(Get(s, w).queue);
    }
  }

  lemma KeepsQueued(s: State, p: Pid, call: Caller)
    requires Shaped(s) && p < |s.pc| && SanePC(s) && Apart(s) && Queued(s) && Woken(s) && Ready(s, p) && Posts(s, p)
    ensures Queued(Step(s, p, call))
  {
    var t := Step(s, p, call);
    forall r: Pid, w | r < |t.pc| ensures r in Get(t, w).queue <==> Waits(t.pc[r], w) && t.grant[r] == Nope {
      QueuedBy(s, p, call, r, w);
    }
  }

  /** The only changes of a queue. */
  lemma QueueAfter(s: State, p: Pid, call: Caller, w: Lk)
    requires Shaped(s) && p < |s.pc| && Ready(s, p)
    ensures Get(Step(s, p, call), w).queue ==
      if w == On(s.pc[p]) && HandsOver(s, p) then Get(s, w).queue[1..]
      else if w == On(s.pc[p]) && Joins(s, p) then Get(s, w).queue + [p]
      else Get(s, w).queue
  {
    assert Get(Step(s, p, call), w) == Touched(s, w, p);
  }

  lemma QueuedBy(s: State, p: Pid, call: Caller, r: Pid, w: Lk)
    requires Shaped(s) && p < |s.pc| && r < |s.pc| && SanePC(s) && Apart(s) && Queued(s) && Woken(s) && Ready(s, p) &&
             Posts(s, p)
    ensures var t := Step(s, p, call); r in Get(t, w).queue <==> Waits(t.pc[r], w) && t.grant[r] == Nope
  {
    QueueAfter(s, p, call, w);
    assert Distinct(Get(s, w).queue);
    assert r in Get(s, w).queue <==> Waits(s.pc[r], w) && s.grant[r] == Nope;
    if HandsOver(s, p) && w == s.pc[p].w { HeadGone(Get(s, w).queue, r); }
  }

  lemma HeadGone(q: seq<Pid>, r: Pid)
    requires q != [] && Distinct(q)
    ensures r in q[1..] <==> r in q && r != q[0]
  {
    if r in q[1..] {
      var i :| 0 <= i < |q[1..]| && q[1..][i] == r;
      assert q[i + 1] == r && q[0] != q[i + 1];
    }
    if r in q && r != q[0] {
      var i :| 0 <= i < |q| && q[i] == r;
      assert q[1..][i - 1] == r;
    }
  }

  lemma KeepsWoken(s: State, p: Pid, call: Caller)
    requires Shaped(s) && p < |s.pc| && SanePC(s) && Woken(s) && Ready(s, p) && Posts(s, p)
    ensures Woken(Step(s, p, call))
  {
    var t := Step(s, p, call);
    forall r: Pid {:trigger t.grant[r]} | r < |t.pc|
      ensures (t.grant[r] != Nope ==> t.pc[r].Q? && t.pc[r].q == QBlock) &&
              t.sem[r] == (if t.grant[r] == Sent then 1 else 0) && (t.grant[r].From? ==> t.grant[r].u < |t.pc|) {
      WokenBy(s, p, call, r);
    }
    forall u: Pid, r: Pid {:trigger Wakes(t.pc[u], r)} | u < |t.pc|
        ensures Wakes(t.pc[u], r) <==> r < |t.pc| && t.grant[r] == From(u) {
      WakerBy(s, p, call, r, u);
    }
  }

  lemma WokenBy(s: State, p: Pid, call: Caller, r: Pid)
    requires Shaped(s) && p < |s.pc| && r < |s.pc| && SanePC(s) && Woken(s) && Ready(s, p) && Posts(s, p)
    ensures var t := Step(s, p, call);
      (t.grant[r] != Nope ==> t.pc[r].Q? && t.pc[r].q == QBlock) && t.sem[r] == (if t.grant[r] == Sent then 1 else 0) &&
      (t.grant[r].From? ==> t.grant[r].u < |t.pc|)
  {
    GrantAfter(s, p, call, r);
    assert s.grant[r] == s.grant[r] && s.grant[p] == s.grant[p];
  }

  lemma WakerBy(s: State, p: Pid, call: Caller, r: Pid, u: Pid)
    requires Shaped(s) && p < |s.pc| && u < |s.pc| && SanePC(s) && Woken(s) && Ready(s, p) && Posts(s, p)
    ensures var t := Step(s, p, call); Wakes(t.pc[u], r) <==> r < |t.pc| && t.grant[r] == From(u)
  {
    assert Wakes(s.pc[u], r) <==> r < |s.pc| && s.grant[r] == From(u);
    if r < |s.pc| { GrantAfter(s, p, call, r); }
    if u == p {
      WakesAfter(s.pc[p], Get(s, On(s.pc[p])), s.l, s.readers, s.sem[p], call, r);
    } else {
      assert Wakes(s.pc[p], r) <==> r < |s.pc| && s.grant[r] == From(p);
    }
  }

  /** A process takes a wakeup in hand with the hand-off, and has delivered it when it goes on. */
  lemma WakesAfter(a: PC, q: QLock, l: Option<Pid>, readers: int, sem: nat, call: Caller, r: Pid)
    ensures Wakes(Next(a, q, l, readers, sem, call), r) <==>
      a.U? && ((a.u == UTest && q.head == Some(r)) || a.u == UWake(r))
  {
  }

  lemma KeepsLocked(s: State, p: Pid, call: Caller)
    requires Inv(s) && p < |s.pc|
    ensures LockedRight(Step(s, p, call))
  {
    var t := Step(s, p, call);
    assert HoldsL(s.pc[p]) <==> s.l == Some(p);
    forall w ensures (w != K ==> (Get(t, w).locked <==> Get(t, w).owner.Some?)) &&
        (Get(t, w).queue != [] ==> Get(t, w).locked) {
      assert Owns(s.pc[p], s.grant[p], w) <==> Get(s, w).owner == Some(p);
      assert Listed(Get(s, w).head, Get(s, w).tail, Get(s, w).queue, s.qnext);
      assert Get(s, w).queue != [] ==> Get(s, w).locked;
      LockedBy(s, p, call, w);
    }
    assert Get(t, X) == t.x && Get(t, M) == t.m;
  }

  lemma LockedBy(s: State, p: Pid, call: Caller, w: Lk)
    requires Shaped(s) && p < |s.pc| && Sane(s.pc[p])
    requires (w != K ==> (Get(s, w).locked <==> Get(s, w).owner.Some?)) && (Get(s, w).queue != [] ==> Get(s, w).locked)
    requires Get(s, w).queue == [] <==> Get(s, w).head.None?
    ensures var t := Step(s, p, call);
      (w != K ==> (Get(t, w).locked <==> Get(t, w).owner.Some?)) && (Get(t, w).queue != [] ==> Get(t, w).locked)
  {
    assert Get(Step(s, p, call), w) == Touched(s, w, p);
  }

  lemma {:induction false} CountSet(pc: seq<PC>, p: Pid, a: PC)
    requires p < |pc|
    ensures Count(pc[p := a]) == Count(pc) - (if Counted(pc[p]) then 1 else 0) + if Counted(a) then 1 else 0
    decreases |pc|
  {
    var last := |pc| - 1;
    if p == last {
      assert pc[p := a][..last] == pc[..last];
    } else {
      assert pc[p := a][..last] == pc[..last][p := a];
      CountSet(pc[..last], p, a);
    }
  }

  lemma {:induction false} CountPositive(pc: seq<PC>, p: Pid)
    requires p < |pc| && Counted(pc[p])
    ensures Count(pc) > 0
    decreases |pc|
  {
    if p < |pc| - 1 { CountPositive(pc[..|pc| - 1], p); }
  }

  /** Whoever works on K owns X or holds the spin lock around the reader count. */
  lemma WorksOnK(s: State, r: Pid)
    requires Shaped(s) && SanePC(s) && SpinsL(s) && Owned(s)
    requires r < |s.pc| && (Uses(s.pc[r], K) || Owns(s.pc[r], s.grant[r], K))
    ensures s.x.owner == Some(r) || (s.l == Some(r) && !Owns(s.pc[r], s.grant[r], K))
  {
    assert Sane(s.pc[r]) && (s.l == Some(r) <==> HoldsL(s.pc[r]));
    assert Owns(s.pc[r], s.grant[r], X) <==> Get(s, X).owner == Some(r);
  }

  /** Trying K, a reader is alone on it: no other process is in K's critical section, and no process owns K.
      So the try never fails for contention, and finds K locked only when readers hold it. */
  lemma TriesAlone(s: State, p: Pid)
    requires Shaped(s) && SanePC(s) && Spins(s) && SpinsL(s) && Owned(s) && Bounded(s)
    requires p < |s.pc| && s.pc[p].C? && s.pc[p].w == K
    ensures s.k.owner == None && s.k.use == if s.pc[p].k == CTry then None else Some(p)
  {
    assert Owns(s.pc[p], s.grant[p], X) <==> Get(s, X).owner == Some(p);
    assert HoldsL(s.pc[p]) && Sane(s.pc[p]);
    assert Get(s, K) == s.k;
    assert Uses(s.pc[p], K) <==> s.k.use == Some(p);
    if s.k.use.Some? {
      assert Uses(s.pc[s.k.use.value], K);
      WorksOnK(s, s.k.use.value);
    }
    if s.k.owner.Some? {
      assert Owns(s.pc[s.k.owner.value], s.grant[s.k.owner.value], K);
      WorksOnK(s, s.k.owner.value);
    }
  }

  lemma KeepsReaders(s: State, p: Pid, call: Caller)
    requires Inv(s) && p < |s.pc|
    ensures ReadersRight(Step(s, p, call))
  {
    var a := s.pc[p];
    assert Sane(a) && (s.l == Some(p) <==> HoldsL(a));
    assert Owns(a, s.grant[p], K) <==> Get(s, K).owner == Some(p);
    if a.C? && a.w == K { TriesAlone(s, p); }
    var b := Next(a, Get(s, On(a)), s.l, s.readers, s.sem[p], call);
    CountSet(s.pc, p, b);
    if Counted(a) { CountPositive(s.pc, p); }
    assert s.l.Some? ==> HoldsL(s.pc[s.l.value]);
    ReadersBy(s, p, call);
  }

  /** What a step needs to keep the readers right. */
  predicate ReadersReady(s: State, p: Pid, call: Caller) {
    Shaped(s) && p < |s.pc| && Sane(s.pc[p]) && (s.l == Some(p) <==> HoldsL(s.pc[p])) &&
        (s.l.Some? ==> s.l.value < |s.pc|) &&
    (Owns(s.pc[p], s.grant[p], K) <==> s.k.owner == Some(p)) &&
    (s.pc[p].C? && s.pc[p].w == K ==> s.k.owner == None && s.k.use == if s.pc[p].k == CTry then None else Some(p)) &&
    (Counted(s.pc[p]) ==> s.readers > 0) &&
    var t := Step(s, p, call);
    Count(t.pc) == Count(s.pc) - (if Counted(s.pc[p]) then 1 else 0) + if Counted(t.pc[p]) then 1 else 0
  }

  lemma ReadersBy(s: State, p: Pid, call: Caller)
    requires ReadersReady(s, p, call) && ReadersRight(s)
    ensures ReadersRight(Step(s, p, call))
  {
    match s.pc[p]
    case Q(_, _, _) => ReadersByQ(s, p, call);
    case C(_, _, _) => ReadersByC(s, p, call);
    case U(_, _, _) => ReadersByU(s, p, call);
    case L(_, _) => ReadersByL(s, p, call);
    case _ =>
      var t := Step(s, p, call);
      assert t.k == Touched(s, K, p);
  }

  lemma ReadersByQ(s: State, p: Pid, call: Caller)
    requires ReadersReady(s, p, call) && ReadersRight(s) && s.pc[p].Q?
    ensures ReadersRight(Step(s, p, call))
  {
    var t := Step(s, p, call);
    assert t.k == Touched(s, K, p);
  }

  lemma ReadersByC(s: State, p: Pid, call: Caller)
    requires ReadersReady(s, p, call) && ReadersRight(s) && s.pc[p].C?
    ensures ReadersRight(Step(s, p, call))
  {
    var t := Step(s, p, call);
    assert t.k == Touched(s, K, p);
  }

  lemma ReadersByU(s: State, p: Pid, call: Caller)
    requires ReadersReady(s, p, call) && ReadersRight(s) && s.pc[p].U?
    ensures ReadersRight(Step(s, p, call))
  {
    var t := Step(s, p, call);
    assert t.k == Touched(s, K, p);
  }

  lemma ReadersByL(s: State, p: Pid, call: Caller)
    requires ReadersReady(s, p, call) && ReadersRight(s) && s.pc[p].L?
    ensures ReadersRight(Step(s, p, call))
  {
    var t := Step(s, p, call);
    assert t.k == Touched(s, K, p);
  }

  // ----- whole runs

  lemma KeepsInv(s: State, p: Pid, call: Caller)
    requires Inv(s) && p < |s.pc|
    ensures Inv(Step(s, p, call))
  {
    FirstWaits(s, p);
    KeepsSane(s, p, call);
    KeepsSpins(s, p, call);
    KeepsSpinsL(s, p, call);
    KeepsOwned(s, p, call);
    KeepsBounded(s, p, call);
    KeepsLists(s, p, call);
    KeepsApart(s, p, call);
    KeepsQueued(s, p, call);
    KeepsWoken(s, p, call);
    KeepsLocked(s, p, call);
    KeepsReaders(s, p, call);
  }

  const FREE := QLock(None, false, None, None, [], None)

  /** n processes, all idle, and three fresh locks. */
  function Init(n: nat): State {
    State(FREE, FREE, FREE, None, 0, seq(n, _ => Idle), seq(n, _ => 0), seq(n, _ => None), seq(n, _ => Nope))
  }

  lemma {:induction false} CountIdle(n: nat)
    ensures Count(seq(n, _ => Idle)) == 0
  {
    if n > 0 {
      assert seq(n, _ => Idle)[..n - 1] == seq(n - 1, _ => Idle);
      CountIdle(n - 1);
    }
  }

  lemma Starts(n: nat)
    ensures Inv(Init(n))
  {
    CountIdle(n);
  }

  datatype Turn = Turn(p: Pid, call: Caller)

  predicate Fits(sched: seq<Turn>, n: nat) { forall i :: 0 <= i < |sched| ==> sched[i].p < n }

  /** The state after the processes have moved in the order of the schedule, any order at all. */
  function Run(s: State, sched: seq<Turn>): (t: State)
    requires Shaped(s) && Fits(sched, |s.pc|)
    ensures Shaped(t) && |t.pc| == |s.pc|
  {
    if sched == [] then s
    else
      var last := sched[|sched| - 1];
      Step(Run(s, sched[..|sched| - 1]), last.p, last.call)
  }

  lemma {:induction false} RunsKeep(s: State, sched: seq<Turn>)
    requires Inv(s) && Fits(sched, |s.pc|)
    ensures Inv(Run(s, sched))
  {
    if sched != [] {
      RunsKeep(s, sched[..|sched| - 1]);
      KeepsInv(Run(s, sched[..|sched| - 1]), sched[|sched| - 1].p, sched[|sched| - 1].call);
    }
  }

  // ----- what holds in every reachable state

  /** While a process reads, K has no owner, or the holder of X is just now being counted. */
  lemma ReaderHoldsK(s: State, q: Pid)
    requires Inv(s) && q < |s.pc| && s.pc[q] == Reading
    ensures s.k.owner == None || (s.l.Some? && s.l == s.x.owner)
  {
    CountPositive(s.pc, q);
    if s.l.Some? {
      var h := s.l.value;
      assert HoldsL(s.pc[h]) && Sane(s.pc[h]);
      assert Owns(s.pc[h], s.grant[h], X) <==> Get(s, X).owner == Some(h);
    }
  }

  /** A writer inside excludes every reader and every other writer. */
  lemma WriterAlone(s: State, p: Pid, q: Pid)
    requires Inv(s) && p < |s.pc| && q < |s.pc| && p != q && s.pc[p] == Writing
    ensures s.pc[q] != Reading && s.pc[q] != Writing
  {
    assert Owns(s.pc[p], s.grant[p], K) <==> Get(s, K).owner == Some(p);
    assert Owns(s.pc[q], s.grant[q], K) <==> Get(s, K).owner == Some(q);
    assert Owns(s.pc[p], s.grant[p], X) <==> Get(s, X).owner == Some(p);
    assert HoldsL(s.pc[p]) <==> s.l == Some(p);
    if s.pc[q] == Reading { ReaderHoldsK(s, q); }
  }

  /** With nobody at the reader count, K is held for the readers exactly when there are readers. */
  lemma KeptForReaders(s: State)
    requires Inv(s) && s.l == None
    ensures s.readers > 0 <==> s.k.locked && s.k.owner == None
    ensures s.readers == Count(s.pc)
  {
  }

  /** The answer rlock and canrlock ignore: K cannot be had only if another reader is counted. */
  lemma TriesK(s: State, p: Pid, call: Caller)
    requires Inv(s) && p < |s.pc| && s.pc[p].C? && s.pc[p].w == K
    ensures s.pc[p].k == CTry ==> Step(s, p, call).pc[p] == C(K, s.pc[p].c, CTest)
    ensures s.pc[p].k == CTest ==> Step(s, p, call).pc[p] == C(K, s.pc[p].c, if s.readers > 1 then CNo else CYes)
  {
    TriesAlone(s, p);
    assert HoldsL(s.pc[p]) <==> s.l == Some(p);
    assert Get(s, K) == s.k;
  }

  /** canqlock on X or M: the try fails exactly if another process is in the lock's critical section, and the test
      says no exactly if another process has the lock; otherwise the caller has it. */
  lemma TriesXM(s: State, p: Pid, call: Caller)
    requires Inv(s) && p < |s.pc| && s.pc[p].C? && s.pc[p].w != K
    ensures var w, t := s.pc[p].w, Step(s, p, call);
      match s.pc[p].k
      case CTry => t.pc[p] == if InUse(s, w) then Idle else C(w, s.pc[p].c, CTest)
      case CTest =>
        if Held(s, p, w) then t.pc[p] == C(w, s.pc[p].c, CNo) && Get(t, w).owner == Get(s, w).owner
        else t.pc[p] == C(w, s.pc[p].c, CYes) && Get(t, w).owner == Some(p)
      case CYes => t.pc[p] == if w == M then Owning else L(CanRLock, LAcq)
      case CNo => t.pc[p] == Idle
  {
    var w := s.pc[p].w;
    assert Sane(s.pc[p]);
    assert Get(s, w) == if w == X then s.x else s.m;
    if Get(s, w).use.Some? { assert Uses(s.pc[Get(s, w).use.value], w); }
    if Get(s, w).owner.Some? {
      var r := Get(s, w).owner.value;
      assert Owns(s.pc[r], s.grant[r], w);
      assert s.pc[p].k == CTest ==> r != p;
    }
  }

  /** Some process is in w's critical section. */
  ghost predicate InUse(s: State, w: Lk) { exists r: Pid {:trigger Uses(s.pc[r], w)} :: r < |s.pc| && Uses(s.pc[r], w) }

  /** Some process other than p has w. */
  ghost predicate Held(s: State, p: Pid, w: Lk)
    requires Shaped(s)
  {
    exists r: Pid {:trigger Owns(s.pc[r], s.grant[r], w)} :: r < |s.pc| && r != p && Owns(s.pc[r], s.grant[r], w)
  }

  // ----- a process on its own takes a free lock

  function Alone(p: Pid, call: Caller, n: nat): (sched: seq<Turn>)
    ensures |sched| == n && forall i {:trigger sched[i]} :: 0 <= i < n ==> sched[i] == Turn(p, call)
  {
    seq(n, _ => Turn(p, call))
  }

  /** After n steps of p, with nobody else moving. */
  function Solo(s: State, p: Pid, call: Caller, n: nat): (t: State)
    requires Shaped(s) && p < |s.pc|
    ensures Shaped(t) && |t.pc| == |s.pc|
    decreases n
  {
    if n == 0 then s else Step(Solo(s, p, call, n - 1), p, call)
  }

  lemma {:induction false} SoloRuns(s: State, p: Pid, call: Caller, n: nat)
    requires Shaped(s) && p < |s.pc|
    ensures Run(s, Alone(p, call, n)) == Solo(s, p, call, n)
  {
    if n > 0 {
      SoloRuns(s, p, call, n - 1);
      assert Alone(p, call, n)[..n - 1] == Alone(p, call, n - 1);
    }
  }

  /** In t p stands at a, w is q, the other locks are as in s, and the spin lock is l. */
  ghost predicate Moved(s: State, t: State, p: Pid, a: PC, w: Lk, q: QLock, l: Option<Pid>) {
    Shaped(t) && |t.pc| == |s.pc| && p < |t.pc| && t.pc[p] == a && t.l == l && Get(t, w) == q &&
    forall v {:trigger Get(t, v)} :: v != w ==> Get(t, v) == Get(s, v)
  }

  lemma OneMove(s: State, p: Pid, call: Caller)
    requires Shaped(s) && p < |s.pc|
    ensures var a := s.pc[p]; var w := On(a); var q := Get(s, w);
      Moved(s, Step(s, p, call), p, Next(a, q, s.l, s.readers, s.sem[p], call), w, Touch(q, a, p, Link(s, q)),
            TouchL(s.l, a, p))
  {
  }

  /** Nobody has the lock or is at work on it, and nobody waits. */
  predicate Free(q: QLock) { q.use == None && !q.locked && q.head == None }

  /** The lock is p's. */
  function Had(q: QLock, p: Pid): QLock { q.(locked := true, owner := Some(p)) }

  lemma TakesQ(s: State, p: Pid, call: Caller, n: nat, w: Lk, c: Caller)
    requires Shaped(s) && p < |s.pc|
    requires var t := Solo(s, p, call, n); t.pc[p] == Q(w, c, QAcq) && Free(Get(t, w))
    ensures var t := Solo(s, p, call, n);
      Moved(t, Solo(s, p, call, n + 3), p, AfterQ(w, c), w, Had(Get(t, w), p), t.l)
  {
    var t := Solo(s, p, call, n);
    OneMove(t, p, call);
    OneMove(Solo(s, p, call, n + 1), p, call);
    OneMove(Solo(s, p, call, n + 2), p, call);
  }

  lemma TakesC(s: State, p: Pid, call: Caller, n: nat, w: Lk, c: Caller)
    requires Shaped(s) && p < |s.pc| && w != K
    requires var t := Solo(s, p, call, n); t.pc[p] == C(w, c, CTry) && Free(Get(t, w))
    ensures var t := Solo(s, p, call, n);
      Moved(t, Solo(s, p, call, n + 3), p, AfterC(c, w, true), w, Had(Get(t, w), p), t.l)
  {
    var t := Solo(s, p, call, n);
    OneMove(t, p, call);
    OneMove(Solo(s, p, call, n + 1), p, call);
    OneMove(Solo(s, p, call, n + 2), p, call);
  }

  /** The routines that take a lock, on locks that are free. */
  ghost predicate Open(s: State, call: Caller) {
    match call
    case User => s.m.use == None && !s.m.locked
    case CanUser => s.m.use == None && !s.m.locked
    case RLock => s.x.use == None && !s.x.locked && s.l == None
    case CanRLock => s.x.use == None && !s.x.locked && s.l == None
    case WLock => s.x.use == None && !s.x.locked && s.k.use == None && !s.k.locked
    case _ => false
  }

  lemma SoloInv(s: State, p: Pid, call: Caller, n: nat)
    requires Inv(s) && p < |s.pc|
    ensures Inv(Solo(s, p, call, n))
  {
    SoloRuns(s, p, call, n);
    RunsKeep(s, Alone(p, call, n));
  }

  /** p stands at a, X is x, and nobody has the spin lock but perhaps p. */
  predicate AtX(t: State, p: Pid, a: PC, x: QLock, l: Option<Pid>) {
    p < |t.pc| && t.pc[p] == a && t.x == x && t.l == l
  }

  lemma Increments(s: State, p: Pid, call: Caller, n: nat, c: Caller, x: QLock)
    requires Shaped(s) && p < |s.pc| && AtX(Solo(s, p, call, n), p, L(c, LAcq), x, None) && Reader(c)
    ensures AtX(Solo(s, p, call, n + 2), p, C(K, c, CTry), x, Some(p))
  {
    assert AtX(Solo(s, p, call, n + 1), p, L(c, LInc), x, Some(p));
  }

  lemma FindsKFree(s: State, p: Pid, call: Caller, n: nat, c: Caller)
    requires Inv(s) && p < |s.pc|
    ensures KFree(Solo(s, p, call, n), p, c)
  {
    SoloInv(s, p, call, n);
    if Solo(s, p, call, n).pc[p] == C(K, c, CTry) { TriesAlone(Solo(s, p, call, n), p); }
  }

  /** If p is to try K, nobody is in its critical section. */
  predicate KFree(t: State, p: Pid, c: Caller)
    requires p < |t.pc|
  {
    t.pc[p] == C(K, c, CTry) ==> t.k.use == None
  }

  lemma TriesIt(s: State, p: Pid, call: Caller, n: nat, c: Caller, x: QLock)
    requires Shaped(s) && p < |s.pc| && AtX(Solo(s, p, call, n), p, C(K, c, CTry), x, Some(p))
    requires Reader(c) && Solo(s, p, call, n).k.use == None
    ensures AtX(Solo(s, p, call, n + 3), p, L(c, LRel), x, Some(p))
  {
    assert AtX(Solo(s, p, call, n + 1), p, C(K, c, CTest), x, Some(p));
    var no := Solo(s, p, call, n + 1).k.locked;
    assert AtX(Solo(s, p, call, n + 2), p, C(K, c, if no then CNo else CYes), x, Some(p));
  }

  lemma ReleasesL(s: State, p: Pid, call: Caller, n: nat, c: Caller, x: QLock)
    requires Shaped(s) && p < |s.pc| && AtX(Solo(s, p, call, n), p, L(c, LRel), x, Some(p)) && Reader(c)
    ensures AtX(Solo(s, p, call, n + 1), p, U(X, c, UAcq), x, None)
  {
  }

  /** A reader that has X counts itself in, tries K, and goes on to give X back. */
  lemma CountsIn(s: State, p: Pid, call: Caller, n: nat, c: Caller, x: QLock)
    requires Shaped(s) && p < |s.pc| && Reader(c) && AtX(Solo(s, p, call, n), p, L(c, LAcq), x, None)
    requires KFree(Solo(s, p, call, n + 2), p, c)
    ensures AtX(Solo(s, p, call, n + 6), p, U(X, c, UAcq), x, None)
  {
    Increments(s, p, call, n, c, x);
    TriesIt(s, p, call, n + 2, c, x);
    ReleasesL(s, p, call, n + 5, c, x);
  }

  lemma GivesBack(s: State, p: Pid, call: Caller, n: nat, w: Lk, c: Caller)
    requires Shaped(s) && p < |s.pc|
    requires var t := Solo(s, p, call, n); t.pc[p] == U(w, c, UAcq) && Get(t, w).use == None && Get(t, w).head == None
    ensures var u := Solo(s, p, call, n + 3); u.pc[p] == AfterU(w, c) && Free(Get(u, w))
  {
    OneMove(Solo(s, p, call, n), p, call);
    OneMove(Solo(s, p, call, n + 1), p, call);
    OneMove(Solo(s, p, call, n + 2), p, call);
  }

  lemma EntersX(s: State, p: Pid, call: Caller) returns (n: nat)
    requires Shaped(s) && p < |s.pc| && s.pc[p] == Idle && Free(s.x) && s.l == None && Reader(call)
    ensures AtX(Solo(s, p, call, n), p, L(call, LAcq), Had(s.x, p), None)
  {
    n := 4;
    OneMove(Solo(s, p, call, 0), p, call);
    assert Get(s, X) == s.x && Get(Solo(s, p, call, 1), X) == Solo(s, p, call, 1).x;
    if call == RLock { TakesQ(s, p, call, 1, X, call); } else { TakesC(s, p, call, 1, X, call); }
    assert Get(Solo(s, p, call, 4), X) == Solo(s, p, call, 4).x;
  }

  lemma Reads(s: State, p: Pid, call: Caller) returns (n: nat)
    requires Inv(s) && p < |s.pc| && s.pc[p] == Idle && Open(s, call) && Reader(call)
    ensures Solo(s, p, call, n).pc[p] == Reading && Free(Get(Solo(s, p, call, n), X))
  {
    UnlockedEmpty(s, X);
    assert Get(s, X) == s.x;
    forall i {:trigger Solo(s, p, call, i)} ensures KFree(Solo(s, p, call, i), p, call) {
      FindsKFree(s, p, call, i, call);
    }
    n := ReadsOn(s, p, call);
  }

  lemma ReadsOn(s: State, p: Pid, call: Caller) returns (n: nat)
    requires Shaped(s) && p < |s.pc| && s.pc[p] == Idle && Free(s.x) && s.l == None && Reader(call)
    requires forall i: nat {:trigger Solo(s, p, call, i)} :: KFree(Solo(s, p, call, i), p, call)
    ensures Solo(s, p, call, n).pc[p] == Reading && Free(Get(Solo(s, p, call, n), X))
  {
    n := EntersX(s, p, call);
    CountsIn(s, p, call, n, call, Had(s.x, p));
    n := n + 6;
    GivesBack(s, p, call, n, X, call);
    n := n + 3;
  }

  lemma Writes(s: State, p: Pid)
    requires Inv(s) && p < |s.pc| && s.pc[p] == Idle && Open(s, WLock)
    ensures Solo(s, p, WLock, 7).pc[p] == Writing
  {
    OneMove(Solo(s, p, WLock, 0), p, WLock);
    UnlockedEmpty(s, X);
    UnlockedEmpty(s, K);
    TakesQ(s, p, WLock, 1, X, WLock);
    TakesQ(s, p, WLock, 4, K, WLock);
  }

  lemma Gets(s: State, p: Pid, call: Caller)
    requires Inv(s) && p < |s.pc| && s.pc[p] == Idle && Open(s, call) && (call == User || call == CanUser)
    ensures Solo(s, p, call, 4).pc[p] == Owning && Get(Solo(s, p, call, 4), M).owner == Some(p)
  {
    OneMove(Solo(s, p, call, 0), p, call);
    UnlockedEmpty(s, M);
    if call == User { TakesQ(s, p, call, 1, M, call); } else { TakesC(s, p, call, 1, M, call); }
  }

  /** Every routine that takes a lock, called on a free one with nobody else moving, comes back with it. */
  lemma TakesFree(s: State, p: Pid, call: Caller) returns (n: nat)
    requires Inv(s) && p < |s.pc| && s.pc[p] == Idle && Open(s, call)
    ensures Run(s, Alone(p, call, n)).pc[p] ==
      if call == WLock then Writing else if Reader(call) then Reading else Owning
  {
    if call == WLock {
      n := 7;
      Writes(s, p);
    } else if Reader(call) {
      n := Reads(s, p, call);
    } else {
      n := 4;
      Gets(s, p, call);
    }
    SoloRuns(s, p, call, n);
  }

  /** A try on a lock that is locked, or in whose critical section somebody is, comes back with nothing. */
  lemma TryFails(s: State, p: Pid, call: Caller, w: Lk) returns (n: nat)
    requires Inv(s) && p < |s.pc| && s.pc[p] == Idle && (call == CanUser || call == CanRLock)
    requires w == if call == CanUser then M else X
    requires Get(s, w).use.Some? || Get(s, w).locked
    ensures Run(s, Alone(p, call, n)).pc[p] == Idle && n > 0
    ensures forall i {:trigger Solo(s, p, call, i)} :: 0 < i < n ==> Solo(s, p, call, i).pc[p].C?
  {
    n := if Get(s, w).use.Some? then 2 else 4;
    FailsSolo(s, p, call, w, n);
    SoloRuns(s, p, call, n);
  }

  lemma FailsSolo(s: State, p: Pid, call: Caller, w: Lk, n: nat)
    requires Shaped(s) && p < |s.pc| && s.pc[p] == Idle && (call == CanUser || call == CanRLock)
    requires w == (if call == CanUser then M else X) && n == if Get(s, w).use.Some? then 2 else 4
    requires Get(s, w).use.Some? || Get(s, w).locked
    ensures Solo(s, p, call, n).pc[p] == Idle
    ensures forall i {:trigger Solo(s, p, call, i)} :: 0 < i < n ==> Solo(s, p, call, i).pc[p].C?
  {
    OneMove(Solo(s, p, call, 0), p, call);
    OneMove(Solo(s, p, call, 1), p, call);
    if n == 4 {
      OneMove(Solo(s, p, call, 2), p, call);
      OneMove(Solo(s, p, call, 3), p, call);
      assert Solo(s, p, call, 1).pc[p].C? && Solo(s, p, call, 2).pc[p].C? && Solo(s, p, call, 3).pc[p].C?;
    }
  }

  /** At most one process owns a queueing lock. */
  lemma OneOwner(s: State, p: Pid, q: Pid, w: Lk)
    requires Inv(s) && p < |s.pc| && q < |s.pc| && Owns(s.pc[p], s.grant[p], w) && Owns(s.pc[q], s.grant[q], w)
    ensures p == q && Get(s, w).locked
  {
    assert Get(s, w).owner == Some(p) && Get(s, w).owner == Some(q);
  }

  /** A process that waits is on the queue of a locked lock, or its wakeup is coming. */
  lemma NoneLost(s: State, p: Pid, w: Lk)
    requires Inv(s) && p < |s.pc| && s.pc[p].Q? && s.pc[p].w == w && s.pc[p].q == QBlock
    ensures s.grant[p] == Nope ==> p in Get(s, w).queue && Get(s, w).locked
    ensures s.grant[p] != Nope ==> Get(s, w).owner == Some(p)
    ensures s.grant[p] == Sent <==> s.sem[p] > 0
    ensures s.grant[p].From? ==> s.grant[p].u < |s.pc| && Wakes(s.pc[s.grant[p].u], p)
  {
    assert p in Get(s, w).queue <==> Waits(s.pc[p], w) && s.grant[p] == Nope;
    assert Owns(s.pc[p], s.grant[p], w) <==> Get(s, w).owner == Some(p);
    if s.grant[p].From? { assert Wakes(s.pc[s.grant[p].u], p); }
  }

  /** An unlocked lock has nobody waiting. */
  lemma UnlockedEmpty(s: State, w: Lk)
    requires Inv(s) && !Get(s, w).locked
    ensures Get(s, w).queue == [] && Get(s, w).head == None && Get(s, w).tail == None
  {
    assert Listed(Get(s, w).head, Get(s, w).tail, Get(s, w).queue, s.qnext);
  }

  /** Nobody becomes owner past the queue: a new owner is the first waiter, or there are no waiters. */
  lemma InTurn(s: State, p: Pid, call: Caller, w: Lk)
    requires Inv(s) && p < |s.pc|
    ensures var q, r := Get(s, w), Get(Step(s, p, call), w);
      r.owner.Some? && r.owner != q.owner ==>
      (q.queue == [] && r.owner == Some(p)) || (q.queue != [] && r.owner == Some(q.queue[0]) && r.queue == q.queue[1..])
  {
    FirstWaits(s, p);
    assert Listed(Get(s, w).head, Get(s, w).tail, Get(s, w).queue, s.qnext);
    assert Get(s, w).queue != [] ==> Get(s, w).locked;
    InTurnBy(s, p, call, w);
  }

  lemma InTurnBy(s: State, p: Pid, call: Caller, w: Lk)
    requires Shaped(s) && p < |s.pc| && Ready(s, p)
    requires Get(s, w).queue != [] ==> Get(s, w).locked && Get(s, w).head.Some?
    ensures var q, r := Get(s, w), Get(Step(s, p, call), w);
      r.owner.Some? && r.owner != q.owner ==>
      (q.queue == [] && r.owner == Some(p)) || (q.queue != [] && r.owner == Some(q.queue[0]) && r.queue == q.queue[1..])
  {
    assert Get(Step(s, p, call), w) == Touched(s, w, p);
  }

  /** The same program variables; the fields kept beside them may differ. */
  predicate SameLock(q: QLock, r: QLock) {
    q.use == r.use && q.locked == r.locked && q.head == r.head && q.tail == r.tail
  }

  predicate Same(s: State, t: State) {
    SameLock(s.x, t.x) && SameLock(s.k, t.k) && SameLock(s.m, t.m) && s.l == t.l && s.readers == t.readers &&
    s.pc == t.pc && s.sem == t.sem && s.qnext == t.qnext
  }

  /** The program never looks at `queue`, `owner` or `grant`. */
  lemma AuxiliaryOnly(s: State, t: State, p: Pid, call: Caller)
    requires Shaped(s) && Shaped(t) && Same(s, t) && p < |s.pc|
    ensures Same(Step(s, p, call), Step(t, p, call))
  {
    TouchedSame(s, t, X, p);
    TouchedSame(s, t, K, p);
    TouchedSame(s, t, M, p);
    assert SameLock(Get(s, On(s.pc[p])), Get(t, On(s.pc[p])));
  }

  lemma TouchedSame(s: State, t: State, w: Lk, p: Pid)
    requires Shaped(s) && Shaped(t) && Same(s, t) && p < |s.pc|
    ensures SameLock(Touched(s, w, p), Touched(t, w, p))
  {
    var q, r := Get(s, w), Get(t, w);
    assert SameLock(q, r) && Link(s, q) == Link(t, r);
    TouchSame(q, r, s.pc[p], p, Link(s, q));
  }

  lemma TouchSame(q: QLock, r: QLock, a: PC, p: Pid, next: Option<Pid>)
    requires SameLock(q, r)
    ensures SameLock(Touch(q, a, p, next), Touch(r, a, p, next))
  {
  }

  // ----- no deadlock

  /** p can only spin or sleep. */
  predicate Blocked(s: State, p: Pid)
    requires Shaped(s) && p < |s.pc|
  {
    match s.pc[p]
    case Q(w, _, st) => (st == QAcq && Get(s, w).use.Some?) || (st == QBlock && s.sem[p] == 0)
    case U(w, _, st) => st == UAcq && Get(s, w).use.Some?
    case L(_, st) => st == LAcq && s.l.Some?
    case _ => false
  }

  /** A process that is not blocked moves. */
  lemma UnblockedMoves(s: State, p: Pid, call: Caller)
    requires Shaped(s) && p < |s.pc| && Sane(s.pc[p]) && s.pc[p] != Idle
    ensures Step(s, p, call).pc[p] != s.pc[p] <==> !Blocked(s, p)
  {
  }

  /** r is inside a call or has a lock, and can move. */
  predicate CanMove(s: State, r: Pid)
    requires Shaped(s)
  {
    r < |s.pc| && s.pc[r] != Idle && !Blocked(s, r)
  }

  lemma UseMoves(s: State, w: Lk) returns (r: Pid)
    requires Inv(s) && Get(s, w).use.Some?
    ensures CanMove(s, r)
  {
    r := Get(s, w).use.value;
    assert Uses(s.pc[r], w);
  }

  lemma HolderMoves(s: State) returns (r: Pid)
    requires Inv(s) && s.l.Some?
    ensures CanMove(s, r)
  {
    r := s.l.value;
    assert HoldsL(s.pc[r]);
    if Blocked(s, r) { r := UseMoves(s, K); }
  }

  lemma WakerMoves(s: State, p: Pid) returns (r: Pid)
    requires Inv(s) && p < |s.pc| && s.grant[p] != Nope
    ensures CanMove(s, r)
  {
    if s.grant[p] == Sent {
      r := p;
    } else {
      r := s.grant[p].u;
      assert Wakes(s.pc[r], p);
    }
  }

  lemma {:induction false} SomeCounted(pc: seq<PC>) returns (r: Pid)
    requires Count(pc) > 0
    ensures r < |pc| && Counted(pc[r])
  {
    if Counted(pc[|pc| - 1]) { r := |pc| - 1; } else { r := SomeCounted(pc[..|pc| - 1]); }
  }

  /** A locked K is in the hands of someone who can move, or whom someone who can move delays. */
  lemma KMoves(s: State) returns (r: Pid)
    requires Inv(s) && s.k.locked
    ensures CanMove(s, r)
  {
    if s.l.Some? {
      r := HolderMoves(s);
    } else if s.k.owner.Some? {
      r := s.k.owner.value;
      assert Get(s, K) == s.k;
      assert Owns(s.pc[r], s.grant[r], K);
      if s.grant[r] != Nope { r := WakerMoves(s, r); } else if Blocked(s, r) { r := UseMoves(s, K); }
    } else {
      r := SomeCounted(s.pc);
      assert Sane(s.pc[r]);
      if Blocked(s, r) { r := UseMoves(s, X); }
    }
  }

  lemma OwnerMoves(s: State, w: Lk) returns (r: Pid)
    requires Inv(s) && w != K && Get(s, w).locked
    ensures CanMove(s, r)
  {
    r := Get(s, w).owner.value;
    assert Owns(s.pc[r], s.grant[r], w) && Sane(s.pc[r]);
    if s.grant[r] != Nope {
      r := WakerMoves(s, r);
    } else if Blocked(s, r) {
      if s.pc[r].Q? && s.pc[r].q == QBlock {
        NoneLost(s, r, s.pc[r].w);
        r := KMoves(s);
      } else if s.pc[r].L? {
        r := HolderMoves(s);
      } else {
        r := UseMoves(s, s.pc[r].w);
      }
    }
  }

  /** While any process is inside a call or has a lock, one of those can move: no deadlock. */
  lemma NoDeadlock(s: State, p: Pid) returns (r: Pid)
    requires Inv(s) && p < |s.pc| && s.pc[p] != Idle
    ensures r < |s.pc| && s.pc[r] != Idle
    ensures forall call :: Step(s, r, call).pc[r] != s.pc[r]
  {
    r := p;
    if Blocked(s, p) {
      if s.pc[p].L? {
        r := HolderMoves(s);
      } else if s.pc[p].Q? && s.pc[p].q == QBlock {
        NoneLost(s, p, s.pc[p].w);
        if s.grant[p] != Nope { r := WakerMoves(s, p); }
        else if s.pc[p].w == K { r := KMoves(s); }
        else { r := OwnerMoves(s, s.pc[p].w); }
      } else {
        r := UseMoves(s, s.pc[p].w);
      }
    }
    assert Sane(s.pc[r]);
    forall call ensures Step(s, r, call).pc[r] != s.pc[r] { UnblockedMoves(s, r, call); }
  }

  // ----- first come, first served

  function Joined(s: State, p: Pid, w: Lk): seq<Pid>
    requires Shaped(s) && p < |s.pc|
  {
    if Joins(s, p) && s.pc[p].w == w then [p] else []
  }

  function Handed(s: State, p: Pid, w: Lk): seq<Pid>
    requires Shaped(s) && p < |s.pc|
  {
    if HandsOver(s, p) && s.pc[p].w == w then [Get(s, w).head.value] else []
  }

  /** Those who joined the queue of w along the run, in order. */
  function Arrivals(s: State, sched: seq<Turn>, w: Lk): seq<Pid>
    requires Shaped(s) && Fits(sched, |s.pc|)
  {
    if sched == [] then []
    else
      var rest := sched[..|sched| - 1];
      Arrivals(s, rest, w) + Joined(Run(s, rest), sched[|sched| - 1].p, w)
  }

  /** Those who were handed w along the run, in order. */
  function HandOffs(s: State, sched: seq<Turn>, w: Lk): seq<Pid>
    requires Shaped(s) && Fits(sched, |s.pc|)
  {
    if sched == [] then []
    else
      var rest := sched[..|sched| - 1];
      HandOffs(s, rest, w) + Handed(Run(s, rest), sched[|sched| - 1].p, w)
  }

  /** Waiters are served in the order they came, whatever the schedule: who has been handed the lock followed
      by who still waits is who waited first followed by who joined. */
  lemma {:induction false} FirstComeFirstServed(s: State, sched: seq<Turn>, w: Lk)
    requires Inv(s) && Fits(sched, |s.pc|)
    ensures HandOffs(s, sched, w) + Get(Run(s, sched), w).queue == Get(s, w).queue + Arrivals(s, sched, w)
  {
    if sched != [] {
      var rest := sched[..|sched| - 1];
      FirstComeFirstServed(s, rest, w);
      ServedNext(s, rest, sched[|sched| - 1], w);
      Regroup(HandOffs(s, rest, w), Handed(Run(s, rest), sched[|sched| - 1].p, w), Get(Run(s, sched), w).queue,
              Get(Run(s, rest), w).queue, Get(s, w).queue, Arrivals(s, rest, w),
                  Joined(Run(s, rest), sched[|sched| - 1].p, w));
    }
  }

  lemma Regroup(h: seq<Pid>, g: seq<Pid>, after: seq<Pid>, before: seq<Pid>, first: seq<Pid>, a: seq<Pid>, j: seq<Pid>)
    requires h + before == first + a && g + after == before + j
    ensures (h + g) + after == first + (a + j)
  {
    assert (h + g) + after == h + (g + after) == (h + before) + j == first + (a + j);
  }

  lemma ServedNext(s: State, rest: seq<Turn>, last: Turn, w: Lk)
    requires Inv(s) && Fits(rest, |s.pc|) && last.p < |s.pc|
    ensures var before := Run(s, rest);
      Handed(before, last.p, w) + Get(Step(before, last.p, last.call), w).queue ==
      Get(before, w).queue + Joined(before, last.p, w)
  {
    RunsKeep(s, rest);
    var before := Run(s, rest);
    FirstWaits(before, last.p);
    assert Listed(Get(before, w).head, Get(before, w).tail, Get(before, w).queue, before.qnext);
    Served(before, last.p, last.call, w);
  }

  lemma Served(s: State, p: Pid, call: Caller, w: Lk)
    requires Shaped(s) && p < |s.pc| && Ready(s, p)
    ensures Handed(s, p, w) + Get(Step(s, p, call), w).queue == Get(s, w).queue + Joined(s, p, w)
  {
    assert Get(Step(s, p, call), w) == Touched(s, w, p);
  }

  // ----- every run of any number of processes

  lemma Excludes(s: State, p: Pid, q: Pid)
    requires Inv(s) && p < |s.pc| && q < |s.pc| && p != q
    ensures s.pc[p] == Writing ==> s.pc[q] != Reading && s.pc[q] != Writing
    ensures s.pc[p] == Owning ==> s.pc[q] != Owning
  {
    if s.pc[p] == Writing { WriterAlone(s, p, q); }
    assert Owns(s.pc[p], s.grant[p], M) <==> Get(s, M).owner == Some(p);
    assert Owns(s.pc[q], s.grant[q], M) <==> Get(s, M).owner == Some(q);
  }

  /** From n idle processes and fresh locks, along any schedule. */
  lemma Exclusion(n: nat, sched: seq<Turn>, p: Pid, q: Pid)
    requires Fits(sched, n) && p < n && q < n && p != q
    ensures var s := Run(Init(n), sched);
      (s.pc[p] == Writing ==> s.pc[q] != Reading && s.pc[q] != Writing) && (s.pc[p] == Owning ==> s.pc[q] != Owning)
  {
    Starts(n);
    RunsKeep(Init(n), sched);
    Excludes(Run(Init(n), sched), p, q);
  }

  /** Hand-offs so far are the first of the arrivals so far. */
  lemma ServedInOrder(n: nat, sched: seq<Turn>, w: Lk)
    requires Fits(sched, n)
    ensures HandOffs(Init(n), sched, w) <= Arrivals(Init(n), sched, w)
  {
    Starts(n);
    FirstComeFirstServed(Init(n), sched, w);
    assert Get(Init(n), w).queue + Arrivals(Init(n), sched, w) == Arrivals(Init(n), sched, w);
  }
}