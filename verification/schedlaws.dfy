/** Laws of whole runs: slices, children, kills, and the order of the ready queues. */
module SchedulerLaws {
  import opened Seqs
  import opened Scheduler
  import opened SchedulerRuns
  import opened SchedulerEffects

  // ---- slices: the multi-level feedback policy ----

  datatype Slice = Slice(priority: nat, budget: int)

  /** Why a slice changes. */
  datatype Cause = Nothing | Ran(ticks: nat) | Promotion | Assigned(prio: nat)

  function SliceOf(r: Proc): Slice {
    Slice(r.priority, r.budget)
  }

  /** What event e is to live process p: the ticks since its dispatch if it gives up its CPU, and so on. */
  ghost function CauseOf(t: Table, e: Event, p: nat): Cause
    requires Inv(t) && Enabled(t, e) && p < NPROC
  {
    var r := t.proc[p];
    match e
    case Yield(c, now) => if t.cpu[c] == To(p) then Ran(U32(now - r.ticksIn)) else Nothing
    case Sleep(c, ch, now) => if t.cpu[c] == To(p) then Ran(U32(now - r.ticksIn)) else Nothing
    case Wait(c, now) =>
      if t.cpu[c] == To(p) && !HasZombie(t, p) && Children(t, p) != {} && !r.killed then Ran(U32(now - r.ticksIn))
      else Nothing
    case Sched(c, now) => if now >= t.promoteAt then Promotion else Nothing
    case SetPrio(pid, prio) => if pid == r.pid && pid <= 32767 && 0 <= prio <= MAXPRIO then Assigned(prio) else Nothing
    case _ => Nothing
  }

  function Policy(s: Slice, cause: Cause, waiting: bool): Slice {
    match cause
    case Nothing => s
    case Ran(k) => if k < s.budget then s.(budget := s.budget - k)
      else Slice(if s.priority == 0 then 0 else s.priority - 1, BUDGET)
    case Promotion => if s.priority < MAXPRIO then Slice(s.priority + 1, BUDGET)
      else if waiting then s else s.(budget := BUDGET)
    case Assigned(prio) => if prio == s.priority then s else Slice(prio, BUDGET)
  }

  /** Every event changes a live process's slice as the policy says, and its clock only when it is dispatched. */
  lemma SliceStep(t: Table, e: Event, p: nat)
    requires Inv(t) && Enabled(t, e) && p < NPROC && Live(t.proc[p].state)
    ensures var u := Step(t, e);
      && Inv(u) && SliceOf(u.proc[p]) == Policy(SliceOf(t.proc[p]), CauseOf(t, e, p), t.proc[p].state == RUNNABLE)
      && u.proc[p].pid == t.proc[p].pid
      && u.proc[p].ticksIn == (if e.Sched? && u.cpu[e.c] == To(p) then e.now else t.proc[p].ticksIn)
  {
    hide On, Without, Facts, Step, HasZombie, Children;
    match e {
      case Wait(c, now) => WaitSlice(t, c, now, p);
      case Sched(c, now) =>
        SchedEffect(t, c, now);
        assert SchedRel(t, Step(t, e), p, Step(t, e).cpu[c] == To(p), now);
      case Yield(c, now) => YieldEffect(t, c, now);
      case Sleep(c, ch, now) => SleepEffect(t, c, ch, now);
      case SetPrio(pid, prio) => SetPrioEffect(t, pid, prio, p);
      case _ => SliceKept(t, e, p);
    }
  }

  lemma SliceKept(t: Table, e: Event, p: nat)
    requires Inv(t) && Enabled(t, e) && p < NPROC && Live(t.proc[p].state)
    requires !e.Wait? && !e.Sched? && !e.Yield? && !e.Sleep? && !e.SetPrio?
    ensures var r := t.proc[p];
      && Inv(Step(t, e))
      && var s := Step(t, e).proc[p];
      SliceOf(s) == SliceOf(r) && s.pid == r.pid && s.ticksIn == r.ticksIn
  {
    hide On, Without, Facts, Step, Children;
    match e {
      case Claim(c, np) => ClaimEffect(t, c, np);
      case NoStack(c) => AbandonEffect(t, e);
      case SetUp(c) => SetUpEffect(t, c, p);
      case CopyFailed(c) => AbandonEffect(t, e);
      case Forked(c) => ForkedEffect(t, c);
      case Exit(c) => ExitFields(t, c, p);
      case Wake1(ch) => WakeSame(t, ch, p);
      case Kill(pid) => KillEffect(t, pid, p);
    }
  }

  lemma SetUpEffect(t: Table, c: nat, x: nat)
    requires Inv(t) && Enabled(t, SetUp(c)) && x < NPROC
    ensures var u := Step(t, SetUp(c)); var y := t.cpu[c].i;
      && Inv(u) && y < NPROC && t.fork[y].np < NPROC && t.proc[t.fork[y].np].state == EMBRYO
      && (x != t.fork[y].np ==> u.proc[x] == t.proc[x])
      && (x == t.fork[y].np ==>
            u.proc[x] == t.proc[x].(budget := BUDGET, priority := MAXPRIO, ticksIn := 0))
      && u.cpu == t.cpu && u.init == t.init
  {
    hide On;
    CpuOf(t, c);
    EmbryoIsOther(t, c);
    StepInv(t, SetUp(c));
  }

  lemma WakeSame(t: Table, ch: Chan, x: nat)
    requires Inv(t) && Enabled(t, Wake1(ch)) && x < NPROC
    ensures var u := Step(t, Wake1(ch));
      && Inv(u) && SameRest(t, u) && Live(t.proc[x].state) == Live(u.proc[x].state)
      && u.proc[x] == t.proc[x].(state := u.proc[x].state) && (u.proc[x].state == UNUSED <==> t.proc[x].state == UNUSED)
  {
    hide On, Wakeup;
    StepInv(t, Wake1(ch));
    WakeupEffect(t, ch);
  }

  lemma ExitFields(t: Table, c: nat, x: nat)
    requires Inv(t) && Enabled(t, Exit(c)) && x < NPROC
    ensures var u := Step(t, Exit(c)); var p := t.cpu[c].i;
      && Inv(u) && p < NPROC && u.init == t.init
      && u.proc[x] == t.proc[x].(state := u.proc[x].state, parent := u.proc[x].parent)
      && u.proc[x].parent == (if x != p && t.proc[x].parent == To(p) then To(t.init) else t.proc[x].parent)
      && (u.proc[x].state == UNUSED <==> t.proc[x].state == UNUSED) && !Live(u.proc[p].state)
  {
    hide On, ExitStep, HasZombie;
    CpuOf(t, c);
    var p := t.cpu[c].i;
    StepInv(t, Exit(c));
    assert ParentOk(t, p) && ParentOk(t, x);
    ExitEffect(t, c, p);
    assert x != p ==> ExitRel(t, ExitStep(t, c, p), p, x);
  }

  lemma WaitSlice(t: Table, c: nat, now: Ticks, p: nat)
    requires Inv(t) && Enabled(t, Wait(c, now)) && p < NPROC && Live(t.proc[p].state)
    ensures var u := Step(t, Wait(c, now)); var e := Wait(c, now);
      && Inv(u) && SliceOf(u.proc[p]) == Policy(SliceOf(t.proc[p]), CauseOf(t, e, p), t.proc[p].state == RUNNABLE)
      && u.proc[p].ticksIn == t.proc[p].ticksIn && u.proc[p].pid == t.proc[p].pid
  {
    hide On, Without, HasZombie, Children, WaitStep, Step, Facts;
    var z := WaitEffect(t, c, now);
  }

  ghost predicate LiveThroughout(t: Table, es: seq<Event>, p: nat)
    requires Inv(t) && Legal(t, es) && p < NPROC
    decreases |es|
  {
    Live(t.proc[p].state) && (es == [] || (StepInv(t, es[0]); LiveThroughout(Step(t, es[0]), es[1..], p)))
  }

  /** The slice the policy gives after a run. */
  ghost function SliceAfter(t: Table, es: seq<Event>, p: nat, s: Slice): Slice
    requires Inv(t) && Legal(t, es) && p < NPROC
    decreases |es|
  {
    if es == [] then s
    else
      StepInv(t, es[0]);
      SliceAfter(Step(t, es[0]), es[1..], p, Policy(s, CauseOf(t, es[0], p), t.proc[p].state == RUNNABLE))
  }

  /** Priority and budget follow the policy over every run. */
  lemma {:induction false} FeedbackPolicy(t: Table, es: seq<Event>, p: nat)
    requires Inv(t) && Legal(t, es) && p < NPROC && LiveThroughout(t, es, p)
    ensures SliceOf(Exec(t, es).proc[p]) == SliceAfter(t, es, p, SliceOf(t.proc[p]))
    decreases |es|
  {
    hide Facts, Step, Enabled, CauseOf, Policy;
    if es != [] {
      SliceStep(t, es[0], p);
      FeedbackPolicy(Step(t, es[0]), es[1..], p);
    }
  }

  /** How often p used its slice up, and how many ticks it ran in all. */
  ghost function Exhausted(t: Table, es: seq<Event>, p: nat): nat
    requires Inv(t) && Legal(t, es) && p < NPROC
    decreases |es|
  {
    if es == [] then 0
    else
      StepInv(t, es[0]);
      var cause := CauseOf(t, es[0], p);
      (if cause.Ran? && cause.ticks >= t.proc[p].budget then 1 else 0) + Exhausted(Step(t, es[0]), es[1..], p)
  }

  ghost function RunTime(t: Table, es: seq<Event>, p: nat): nat
    requires Inv(t) && Legal(t, es) && p < NPROC
    decreases |es|
  {
    if es == [] then 0
    else
      StepInv(t, es[0]);
      var cause := CauseOf(t, es[0], p);
      (if cause.Ran? then cause.ticks else 0) + RunTime(Step(t, es[0]), es[1..], p)
  }

  /** Nobody promotes and nobody calls setpriority on p. */
  ghost predicate NoHelp(t: Table, es: seq<Event>, p: nat)
    requires Inv(t) && Legal(t, es) && p < NPROC
    decreases |es|
  {
    es == [] || (var cause := CauseOf(t, es[0], p);
      !cause.Promotion? && !cause.Assigned? && (StepInv(t, es[0]); NoHelp(Step(t, es[0]), es[1..], p)))
  }

  function Dropped(priority: nat, n: nat): nat {
    if priority <= n then 0 else priority - n
  }

  /**
    Without promotion or setpriority a process drops exactly one level, not below
    0, for every slice it uses up; and n slices cost it at least the budget it
    began with and n - 1 whole ones in ticks, less what is left of the last.
   */
  lemma {:induction false} SlicesUsedLower(t: Table, es: seq<Event>, p: nat)
    requires Inv(t) && Legal(t, es) && p < NPROC && LiveThroughout(t, es, p) && NoHelp(t, es, p)
    ensures var r := Exec(t, es).proc[p]; var n := Exhausted(t, es, p);
      && r.priority == Dropped(t.proc[p].priority, n)
      && RunTime(t, es, p) >= t.proc[p].budget - r.budget + n * BUDGET
    decreases |es|
  {
    hide Facts, Step, Enabled, CauseOf, Live;
    if es != [] {
      SliceUse(t, es[0], p);
      var u := Step(t, es[0]);
      SlicesUsedLower(u, es[1..], p);
      Times(Exhausted(u, es[1..], p));
    }
  }

  lemma Times(n: nat)
    ensures (n + 1) * BUDGET == n * BUDGET + BUDGET && 0 * BUDGET == 0
  {
  }

  lemma SliceUse(t: Table, e: Event, p: nat)
    requires Inv(t) && Enabled(t, e) && p < NPROC && Live(t.proc[p].state)
    requires !CauseOf(t, e, p).Promotion? && !CauseOf(t, e, p).Assigned?
    ensures var u := Step(t, e); var a := t.proc[p]; var cause := CauseOf(t, e, p);
      && Inv(u)
      && var b := u.proc[p];
      if cause.Ran? && cause.ticks >= a.budget
      then b.priority == Dropped(a.priority, 1) && cause.ticks >= a.budget - b.budget + BUDGET
      else b.priority == a.priority && a.budget - b.budget == if cause.Ran? then cause.ticks else 0
  {
    hide Facts, Step, Enabled, CauseOf;
    SliceStep(t, e, p);
  }

  // ---- children ----

  ghost predicate ForksNow(t: Table, e: Event, p: nat) {
    e.Forked? && Runner(t, e) == To(p)
  }

  ghost predicate ReapsNow(t: Table, e: Event, p: nat)
    requires Inv(t) && Enabled(t, e) && p < NPROC
  {
    e.Wait? && Runner(t, e) == To(p) && WaitStep(t, e.c, p, e.now).1.Reaped?
  }

  /** Only fork, wait and exit change parents. */
  lemma SameParent(t: Table, e: Event, z: nat)
    requires Inv(t) && Enabled(t, e) && z < NPROC && !e.Forked? && !e.Wait? && !e.Exit?
    ensures var u := Step(t, e); Inv(u) && u.init == t.init && u.proc[z].parent == t.proc[z].parent
  {
    hide On, Without, Facts, Step, SliceUsed, SliceRaised;
    match e {
      case Claim(c, np) => ClaimEffect(t, c, np);
      case NoStack(c) => AbandonEffect(t, e);
      case SetUp(c) => SetUpEffect(t, c, z);
      case CopyFailed(c) => AbandonEffect(t, e);
      case Sched(c, now) =>
        SchedEffect(t, c, now);
        assert SchedRel(t, Step(t, e), z, Step(t, e).cpu[c] == To(z), now);
      case Yield(c, now) => YieldEffect(t, c, now);
      case Sleep(c, ch, now) => SleepEffect(t, c, ch, now);
      case Wake1(ch) => WakeSame(t, ch, z);
      case Kill(pid) => KillEffect(t, pid, z);
      case SetPrio(pid, prio) => SetPrioEffect(t, pid, prio, z);
    }
  }

  lemma SameChildren(t: Table, e: Event, p: nat)
    requires Inv(t) && Enabled(t, e) && !e.Forked? && !e.Wait? && !e.Exit?
    ensures Inv(Step(t, e)) && Step(t, e).init == t.init && Children(Step(t, e), p) == Children(t, p)
  {
    hide On, Facts, Step, Enabled;
    StepInv(t, e);
    SameParent(t, e, 0);
    forall z: nat | z < NPROC ensures Step(t, e).proc[z].parent == t.proc[z].parent { SameParent(t, e, z); }
  }

  lemma ForkedChildren(t: Table, c: nat, p: nat)
    requires Inv(t) && Enabled(t, Forked(c))
    ensures var u := Step(t, Forked(c)); var x := t.cpu[c].i;
      && Inv(u) && u.init == t.init && x < NPROC && t.fork[x].np !in Children(t, p)
      && Children(u, p) == if x == p then Children(t, p) + {t.fork[x].np} else Children(t, p)
  {
    hide On, Without, Step;
    ForkedEffect(t, c);
    assert ParentOk(t, t.fork[t.cpu[c].i].np);
  }

  lemma WaitChildren(t: Table, c: nat, now: Ticks, p: nat) returns (z: nat)
    requires Inv(t) && Enabled(t, Wait(c, now)) && p < NPROC
    ensures var u := Step(t, Wait(c, now));
      && Inv(u) && u.init == t.init
      && if ReapsNow(t, Wait(c, now), p) then z in Children(t, p) && Children(u, p) == Children(t, p) - {z}
         else Children(u, p) == Children(t, p)
  {
    hide On, Without, Facts, Step, WaitStep, HasZombie, SliceUsed;
    z := WaitEffect(t, c, now);
  }

  lemma ExitChildren(t: Table, c: nat, p: nat)
    requires Inv(t) && Enabled(t, Exit(c)) && p < NPROC && p != t.cpu[c].i
    ensures var u := Step(t, Exit(c));
      && Inv(u) && u.init == t.init && Children(t, p) <= Children(u, p)
      && (p != t.init ==> Children(u, p) == Children(t, p))
      && (p == t.init ==> Children(u, p) == Children(t, p) + Children(t, t.cpu[c].i))
  {
    hide On, Step;
    StepInv(t, Exit(c));
    CpuOf(t, c);
    ExitFields(t, c, p);
    var x := t.cpu[c].i;
    assert t.proc[x].parent != To(x) by { assert ParentOk(t, x); }
    forall z: nat | z < NPROC
      ensures Step(t, Exit(c)).proc[z].parent == if t.proc[z].parent == To(x) then To(t.init) else t.proc[z].parent
    {
      ExitFields(t, c, z);
    }
  }

  /** Calls of fork by p that returned a child, and calls of wait by p that returned a pid. */
  ghost function Forks(t: Table, es: seq<Event>, p: nat): nat
    requires Inv(t) && Legal(t, es)
    decreases |es|
  {
    if es == [] then 0
    else StepInv(t, es[0]); (if ForksNow(t, es[0], p) then 1 else 0) + Forks(Step(t, es[0]), es[1..], p)
  }

  ghost function Reaps(t: Table, es: seq<Event>, p: nat): nat
    requires Inv(t) && Legal(t, es) && p < NPROC
    decreases |es|
  {
    if es == [] then 0
    else StepInv(t, es[0]); (if ReapsNow(t, es[0], p) then 1 else 0) + Reaps(Step(t, es[0]), es[1..], p)
  }

  lemma ChildrenStep(t: Table, e: Event, p: nat)
    requires Inv(t) && Enabled(t, e) && p < NPROC && (StepInv(t, e); Live(Step(t, e).proc[p].state))
    ensures var u := Step(t, e);
      && Inv(u) && u.init == t.init
      && var n := |Children(t, p)| + (if ForksNow(t, e, p) then 1 else 0) - (if ReapsNow(t, e, p) then 1 else 0);
      |Children(u, p)| >= n && (p != t.init ==> |Children(u, p)| == n)
  {
    hide On, Facts, Step, Children, WaitStep;
    match e {
      case Forked(c) =>
        ForkedChildren(t, c, p);
        CardAdd(Children(t, p), t.fork[t.cpu[c].i].np);
      case Wait(c, now) => var z := WaitChildren(t, c, now, p);
      case Exit(c) =>
        ExitFields(t, c, p);
        ExitChildren(t, c, p);
        CardinalityMono(Children(t, p), Children(Step(t, e), p));
      case _ => SameChildren(t, e, p);
    }
  }

  /** A process has one child more for every fork and one less for every pid that wait returned; init adopts besides. */
  lemma {:induction false} ChildCount(t: Table, es: seq<Event>, p: nat)
    requires Inv(t) && Legal(t, es) && p < NPROC && LiveThroughout(t, es, p)
    ensures var u := Exec(t, es);
      && u.init == t.init
      && var n := |Children(t, p)| + Forks(t, es, p) - Reaps(t, es, p);
      |Children(u, p)| >= n && (p != t.init ==> |Children(u, p)| == n)
    decreases |es|
  {
    hide Facts, Step, Enabled, Children, ForksNow, ReapsNow;
    if es != [] {
      StepInv(t, es[0]);
      ChildrenStep(t, es[0], p);
      ChildCount(Step(t, es[0]), es[1..], p);
    }
  }

  /**
    fork and wait fit together: a process that had no child, and has forked more
    often than wait has given it a pid, is not told by wait that it has no
    children; and unless it is init, which adopts, it is told so, if not killed,
    exactly when the two are even.
   */
  lemma WaitCountsForks(t: Table, es: seq<Event>, p: nat, c: nat, at: Ticks)
    requires Inv(t) && Legal(t, es) && p < NPROC && LiveThroughout(t, es, p) && Children(t, p) == {}
    requires Enabled(Exec(t, es), Wait(c, at)) && Exec(t, es).cpu[c] == To(p)
    ensures var u := Exec(t, es); var r := WaitStep(u, c, p, at).1;
      && (Forks(t, es, p) > Reaps(t, es, p) && !u.proc[p].killed ==> r != Failed)
      && (p != t.init && !u.proc[p].killed ==> (r == Failed <==> Forks(t, es, p) == Reaps(t, es, p)))
  {
    hide On, Facts, Step, WaitStep, Forks, Reaps, HasZombie;
    var u := Exec(t, es);
    ChildCount(t, es, p);
    var z := WaitEffect(u, c, at);
    ChildrenAre(u, p);
    if HasZombie(u, p) { ZombieIsChild(u, p); }
    assert |Children(t, p)| == 0;
    assert Children(u, p) == {} <==> |Children(u, p)| == 0;
  }

  lemma ZombieIsChild(t: Table, p: nat)
    requires HasZombie(t, p)
    ensures HasChild(t, p)
  {
  }

  // ---- the killed mark ----

  /** The mark is set by kill and cleared by wait, and by nothing else. */
  lemma KilledStep(t: Table, e: Event, x: nat)
    requires Inv(t) && Enabled(t, e) && x < NPROC
    ensures var u := Step(t, e); var r := t.proc[x];
      && Inv(u)
      && u.proc[x].killed == (if r.state == ZOMBIE && u.proc[x].state == UNUSED then false
                              else r.killed || (r.state != UNUSED && e == Kill(r.pid)))
      && (u.proc[x].state == UNUSED && r.state != UNUSED ==> r.state == ZOMBIE || e.NoStack? || e.CopyFailed?)
  {
    hide On, Without, Facts, Step, Children, SliceUsed, SliceRaised, HasZombie, WaitStep;
    match e {
      case Claim(c, np) => ClaimEffect(t, c, np);
      case NoStack(c) => AbandonEffect(t, e);
      case SetUp(c) => SetUpEffect(t, c, x);
      case CopyFailed(c) => AbandonEffect(t, e);
      case Forked(c) => ForkedEffect(t, c);
      case Exit(c) => ExitFields(t, c, x);
      case Wait(c, now) => var z := WaitEffect(t, c, now);
      case Sched(c, now) =>
        SchedEffect(t, c, now);
        assert SchedRel(t, Step(t, e), x, Step(t, e).cpu[c] == To(x), now);
      case Yield(c, now) => YieldEffect(t, c, now);
      case Sleep(c, ch, now) => SleepEffect(t, c, ch, now);
      case Wake1(ch) => WakeSame(t, ch, x);
      case Kill(pid) => KillEffect(t, pid, x);
      case SetPrio(pid, prio) => SetPrioEffect(t, pid, prio, x);
    }
  }

  /** No free slot carries a mark, so no process is born marked. */
  ghost predicate Clean(t: Table) {
    forall x :: 0 <= x < |t.proc| && t.proc[x].state == UNUSED ==> !t.proc[x].killed
  }

  /** A fork that fails after its embryo was killed. */
  ghost predicate LeavesMark(t: Table, e: Event)
    requires Inv(t) && Enabled(t, e)
  {
    (e.NoStack? || e.CopyFailed?) && (ForkingOk(t, e.c); t.proc[t.fork[t.cpu[e.c].i].np].killed)
  }

  /** Free slots stay unmarked over an event exactly unless it is the failure of a fork whose embryo was killed. */
  lemma CleanIff(t: Table, e: Event)
    requires Inv(t) && Enabled(t, e) && Clean(t)
    ensures Clean(Step(t, e)) <==> !LeavesMark(t, e)
  {
    hide On, Without, Facts, Step;
    StepInv(t, e);
    var u := Step(t, e);
    if e.NoStack? || e.CopyFailed? {
      AbandonEffect(t, e);
      var np := t.fork[t.cpu[e.c].i].np;
      assert u.proc[np].state == UNUSED && u.proc[np].killed == t.proc[np].killed;
    } else {
      forall x | 0 <= x < NPROC && u.proc[x].state == UNUSED ensures !u.proc[x].killed { KilledStep(t, e, x); }
    }
  }

  /**
    It does happen, from any state in which fork can start: the embryo is killed by
    its pid, the fork fails, and the next fork from the slot has a marked process
    with a pid nobody has called kill on.
   */
  lemma BornKilled(t: Table, c: nat, np: nat)
    requires Inv(t) && Enabled(t, Claim(c, np))
    ensures var es := [Claim(c, np), Kill(t.nextpid), NoStack(c), Claim(c, np)];
      && Legal(t, es)
      && var u := Exec(t, es);
         Shape(u) && u.proc[np].state == EMBRYO && u.proc[np].pid == t.nextpid + 1 && u.proc[np].killed
  {
    hide On, Without, Facts, Step, Owner;
    var e1, e2, e3 := Kill(t.nextpid), NoStack(c), Claim(c, np);
    ClaimEffect(t, c, np);
    var t1 := Step(t, e3);
    KillEffect(t1, t.nextpid, np);
    var t2 := Step(t1, e1);
    AbandonEffect(t2, e2);
    var t3 := Step(t2, e2);
    ClaimEffect(t3, c, np);
    var t4 := Step(t3, e3);
    var s1, s2, s3 := [e3], [e2, e3], [e1, e2, e3];
    var s4 := [e3] + s3;
    assert s4[1..] == s3 && s3[1..] == s2 && s2[1..] == s1 && s1[1..] == [];
    assert Legal(t3, s1) && Exec(t3, s1) == t4;
    assert Legal(t2, s2) && Exec(t2, s2) == t4;
    assert Legal(t1, s3) && Exec(t1, s3) == t4;
    assert Legal(t, s4) && Exec(t, s4) == t4;
  }

  // ---- first come, first served within a level ----

  ghost predicate Ahead(s: seq<nat>, p: nat, q: nat) {
    exists i, j :: 0 <= i < j < |s| && s[i] == p && s[j] == q
  }

  lemma AheadGrows(s: seq<nat>, r: seq<nat>, p: nat, q: nat)
    requires Ahead(s, p, q) && s <= r
    ensures Ahead(r, p, q)
  {
    var i, j :| 0 <= i < j < |s| && s[i] == p && s[j] == q;
    assert r[i] == p && r[j] == q;
  }

  lemma AheadBehind(s: seq<nat>, r: seq<nat>, p: nat, q: nat)
    requires Ahead(s, p, q)
    ensures Ahead(r + s, p, q)
  {
    var i, j :| 0 <= i < j < |s| && s[i] == p && s[j] == q;
    assert (r + s)[|r| + i] == p && (r + s)[|r| + j] == q;
  }

  lemma {:induction false} AheadWithout(s: seq<nat>, x: nat, p: nat, q: nat)
    requires Ahead(s, p, q) && x != p && x != q
    ensures Ahead(Without(s, x), p, q)
    decreases |s|
  {
    var i, j :| 0 <= i < j < |s| && s[i] == p && s[j] == q;
    if s[0] == x {
      assert s[1..][i-1] == p && s[1..][j-1] == q;
    } else if i > 0 {
      assert s[1..][i-1] == p && s[1..][j-1] == q;
      AheadWithout(s[1..], x, p, q);
      AheadBehind(Without(s[1..], x), [s[0]], p, q);
    } else {
      assert s[1..][j-1] == q;
      StillIn(s[1..], x, q);
      var k :| 0 <= k < |Without(s[1..], x)| && Without(s[1..], x)[k] == q;
      assert Without(s, x)[0] == p && Without(s, x)[k+1] == q;
    }
  }

  lemma {:induction false} StillIn(s: seq<nat>, x: nat, q: nat)
    requires q in s && q != x
    ensures q in Without(s, x)
  {
    if s[0] != x && s[0] != q { StillIn(s[1..], x, q); }
  }

  /** p and q are runnable at one level, and p came first. */
  ghost predicate Before(t: Table, p: nat, q: nat)
    requires Shape(t) && p < NPROC && q < NPROC
  {
    && t.proc[p].state == RUNNABLE && t.proc[q].state == RUNNABLE && t.proc[p].priority == t.proc[q].priority
    && Ahead(t.q[ReadyQ(t.proc[p].priority)], p, q)
  }

  lemma MoveBefore(t: Table, x: nat, r: Proc, p: nat, q: nat)
    requires Partition(t) && x < NPROC && r.priority <= MAXPRIO && p < NPROC && q < NPROC && x != p && x != q
    requires Before(t, p, q)
    ensures Before(Move(t, x, r), p, q)
  {
    hide Ahead, Without, On;
    var k := ReadyQ(t.proc[p].priority);
    var s := t.q[k];
    AheadWithout(s, x, p, q);
    AheadGrows(s, s + [x], p, q);
    AheadGrows(Without(s, x), Without(s, x) + [x], p, q);
  }

  lemma GrowBefore(t: Table, u: Table, p: nat, q: nat)
    requires Shape(t) && Shape(u) && p < NPROC && q < NPROC && Before(t, p, q) && QueuesGrow(t, u)
    requires u.proc[p].state == RUNNABLE && u.proc[p].priority == t.proc[p].priority
    requires u.proc[q].state == RUNNABLE && u.proc[q].priority == t.proc[q].priority
    ensures Before(u, p, q)
  {
    hide Ahead;
    var k := ReadyQ(t.proc[p].priority);
    AheadGrows(t.q[k], u.q[k], p, q);
  }

  lemma PromoteBefore(t: Table, now: Ticks, p: nat, q: nat)
    requires Inv(t) && p < NPROC && q < NPROC && Before(t, p, q)
    ensures Inv(Promote(t, now)) && Before(Promote(t, now), p, q)
  {
    hide Ahead, On, Facts;
    PromoteFacts(t, now);
    var u := Promote(t, now);
    var j := t.proc[p].priority;
    var k := ReadyQ(u.proc[p].priority);
    assert u.q[k] == ShiftedReady(t.q, k);
    if j == MAXPRIO && MAXPRIO > 0 {
      AheadGrows(t.q[k], t.q[k] + t.q[k-1], p, q);
    } else if j + 1 == MAXPRIO {
      AheadBehind(t.q[k-1], t.q[k], p, q);
    }
  }

  lemma DispatchBefore(t: Table, c: nat, now: Ticks, p: nat, q: nat)
    requires Inv(t) && c < NCPU && t.cpu[c] == Null && p < NPROC && q < NPROC && Before(t, p, q)
    requires Partition(Dispatch(t, c, now)) && Dispatch(t, c, now).proc[p].state == RUNNABLE
    ensures Before(Dispatch(t, c, now), p, q)
  {
    hide On, Without, Facts, Ahead;
    DispatchEffect(t, c, now);
    var j := TopReady(t.q, MAXPRIO);
    if j >= 0 {
      QueueKnown(t, ReadyQ(j));
      var x := t.q[ReadyQ(j)][0];
      assert x != q by { HeadIsFirst(t.q[ReadyQ(t.proc[p].priority)], p, q); }
      MoveBefore(t, x, t.proc[x].(state := RUNNING, ticksIn := now, chan := NoChan), p, q);
    }
  }

  lemma HeadIsFirst(s: seq<nat>, p: nat, q: nat)
    requires Ahead(s, p, q) && NoDup(s)
    ensures s[0] != q
  {
  }

  lemma SchedBefore(t: Table, c: nat, now: Ticks, p: nat, q: nat)
    requires Inv(t) && Enabled(t, Sched(c, now)) && p < NPROC && q < NPROC && Before(t, p, q)
    requires Partition(Step(t, Sched(c, now))) && Step(t, Sched(c, now)).proc[p].state == RUNNABLE
    ensures Before(Step(t, Sched(c, now)), p, q)
  {
    hide On, Facts, Dispatch, Before;
    if now >= t.promoteAt {
      PromoteBefore(t, now, p, q);
      PromoteRest(t, now);
      DispatchBefore(Promote(t, now), c, now, p, q);
    } else {
      DispatchBefore(t, c, now, p, q);
    }
  }

  lemma ExitBefore(t: Table, c: nat, p: nat, q: nat)
    requires Inv(t) && Enabled(t, Exit(c)) && p < NPROC && q < NPROC && Before(t, p, q)
    ensures Shape(Step(t, Exit(c))) && Before(Step(t, Exit(c)), p, q)
  {
    hide On, Without, Facts, Wakeup, Ahead;
    CpuOf(t, c);
    var x := t.cpu[c].i;
    var ch := ChanOf(t.proc[x].parent);
    WakeupEffect(t, ch);
    var t1 := Wakeup(t, ch);
    GrowBefore(t, t1, p, q);
    ReparentPartition(t1, x);
    var t2 := Reparent(t1, x);
    assert Before(t2, p, q);
    WakeupEffect(t2, OnProc(t.init));
    var t3 := if HasZombie(t1, x) then Wakeup(t2, OnProc(t.init)) else t2;
    assert HasZombie(t1, x) ==> Before(t3, p, q) by { GrowBefore(t2, Wakeup(t2, OnProc(t.init)), p, q); }
    MoveBefore(t3, x, t3.proc[x].(state := ZOMBIE), p, q);
  }

  lemma ForkBefore(t: Table, c: nat, p: nat, q: nat)
    requires Inv(t) && Runs(t, c) && t.fork[t.cpu[c].i] != NotForking && p < NPROC && q < NPROC && Before(t, p, q)
    ensures var x := t.cpu[c].i; var np := t.fork[x].np;
      && x < NPROC && np < NPROC
      && Before(Abandon(t, x, np), p, q) && Before(Publish(t, x, np), p, q) && Before(Build(t, x, np), p, q)
  {
    hide On, Without, Ahead;
    CpuOf(t, c);
    EmbryoIsOther(t, c);
    var x := t.cpu[c].i;
    var np := t.fork[x].np;
    MoveBefore(t, np, t.proc[np].(state := UNUSED), p, q);
    MoveBefore(t, np, t.proc[np].(parent := To(x), state := RUNNABLE), p, q);
  }

  lemma KillBefore(t: Table, pid: int, p: nat, q: nat)
    requires Inv(t) && p < NPROC && q < NPROC && Before(t, p, q)
    ensures Shape(KillStep(t, pid)) && Before(KillStep(t, pid), p, q)
  {
    hide On, Without, Facts, Owner, Ahead;
    var l := Owner(t, pid, NPROC);
    if l.To? {
      var r := t.proc[l.i].(killed := true);
      var t1 := t.(proc := t.proc[l.i := r]);
      assert Partition(t1) && Before(t1, p, q);
      if r.state == SLEEPING { MoveBefore(t1, l.i, r.(state := RUNNABLE), p, q); }
    }
  }

  lemma SetPrioBefore(t: Table, pid: int, prio: int, p: nat, q: nat)
    requires Inv(t) && p < NPROC && q < NPROC && Before(t, p, q) && pid != t.proc[p].pid && pid != t.proc[q].pid
    ensures Shape(SetPriorityStep(t, pid, prio)) && Before(SetPriorityStep(t, pid, prio), p, q)
  {
    hide On, Without, Facts, Owner, Ahead;
    if SetApplies(t, pid, prio) {
      var x := Owner(t, pid, NPROC).i;
      MoveBefore(t, x, t.proc[x].(priority := prio, budget := BUDGET), p, q);
    }
  }

  lemma WaitBefore(t: Table, c: nat, now: Ticks, p: nat, q: nat)
    requires Inv(t) && Enabled(t, Wait(c, now)) && p < NPROC && q < NPROC && Before(t, p, q)
    ensures Shape(Step(t, Wait(c, now))) && Before(Step(t, Wait(c, now)), p, q)
  {
    hide On, Without, Facts, Charged, Ahead, Move;
    CpuOf(t, c);
    var x := t.cpu[c].i;
    ZombieFound(t, x);
    var z := FirstChild(t.proc, t.q[StateQ(ZOMBIE)], x);
    if z.To? {
      MoveBefore(t, z.i, Reap(t.proc[z.i]), p, q);
    } else {
      LeaveBefore(t, c, OnProc(x), now, p, q);
    }
  }

  lemma LeaveBefore(t: Table, c: nat, ch: Chan, now: Ticks, p: nat, q: nat)
    requires Inv(t) && Runs(t, c) && p < NPROC && q < NPROC && Before(t, p, q)
    ensures var x := t.cpu[c].i;
      && x < NPROC
      && (var u := SleepStep(t, c, x, ch, now); Shape(u) && Before(u, p, q))
      && (var u := YieldStep(t, c, x, now); Shape(u) && Before(u, p, q))
  {
    hide On, Without, Facts, Ahead;
    CpuOf(t, c);
    var x := t.cpu[c].i;
    MoveBefore(t, x, Charged(t.proc[x], now).(chan := ch, state := SLEEPING), p, q);
    MoveBefore(t, x, Charged(t.proc[x], now).(state := RUNNABLE), p, q);
  }

  /** Over any event, a process stays behind the one before it for as long as that one waits. */
  lemma StepBefore(t: Table, e: Event, p: nat, q: nat)
    requires Inv(t) && Enabled(t, e) && p < NPROC && q < NPROC && Before(t, p, q)
    requires LeavesAlone(e, t.proc[p].pid) && LeavesAlone(e, t.proc[q].pid)
    requires (StepInv(t, e); Step(t, e).proc[p].state == RUNNABLE)
    ensures Inv(Step(t, e)) && Before(Step(t, e), p, q)
    ensures Step(t, e).proc[p].pid == t.proc[p].pid && Step(t, e).proc[q].pid == t.proc[q].pid
  {
    hide On, Without, Facts, Ahead, Before, SchedStep, WaitStep, ExitStep, KillStep, SetPriorityStep, Wakeup,
      SleepStep, YieldStep, Abandon, Publish, Build;
    StepInv(t, e);
    RunnablePair(t, p, q);
    StepRunnable(t, e, p);
    StepRunnable(t, e, q);
    match e {
      case Claim(c, np) => ClaimBefore(t, c, np, p, q);
      case NoStack(c) => ForkBefore(t, c, p, q);
      case SetUp(c) => ForkBefore(t, c, p, q);
      case CopyFailed(c) => ForkBefore(t, c, p, q);
      case Forked(c) => ForkBefore(t, c, p, q);
      case Exit(c) => ExitBefore(t, c, p, q);
      case Wait(c, now) => WaitBefore(t, c, now, p, q);
      case Sched(c, now) => SchedBefore(t, c, now, p, q);
      case Yield(c, now) => LeaveBefore(t, c, NoChan, now, p, q);
      case Sleep(c, ch, now) => LeaveBefore(t, c, ch, now, p, q);
      case Wake1(ch) => WakeBefore(t, ch, p, q);
      case Kill(pid) => KillBefore(t, pid, p, q);
      case SetPrio(pid, prio) => SetPrioBefore(t, pid, prio, p, q);
    }
  }

  lemma RunnablePair(t: Table, p: nat, q: nat)
    requires Shape(t) && p < NPROC && q < NPROC && Before(t, p, q)
    ensures t.proc[p].state == RUNNABLE && t.proc[q].state == RUNNABLE
  {
  }

  lemma ClaimBefore(t: Table, c: nat, np: nat, p: nat, q: nat)
    requires Inv(t) && Enabled(t, Claim(c, np)) && p < NPROC && q < NPROC && Before(t, p, q)
    ensures Shape(Step(t, Claim(c, np))) && Before(Step(t, Claim(c, np)), p, q)
  {
    hide On, Without, Facts, Ahead;
    CpuOf(t, c);
    MoveBefore(t, np, t.proc[np].(state := EMBRYO, pid := t.nextpid), p, q);
  }

  lemma WakeBefore(t: Table, ch: Chan, p: nat, q: nat)
    requires Inv(t) && p < NPROC && q < NPROC && Before(t, p, q)
    ensures Shape(Wakeup(t, ch)) && Before(Wakeup(t, ch), p, q)
  {
    hide On, Facts, Wakeup, Ahead;
    WakeupEffect(t, ch);
    GrowBefore(t, Wakeup(t, ch), p, q);
  }

  /**
    Nobody is overtaken within a level: as long as p stays runnable, and setpriority
    is not called on either, a process that came after it stays runnable, at the
    same level and behind it, through every promotion; it is not dispatched first.
   */
  lemma {:induction false} NoOvertaking(t: Table, es: seq<Event>, p: nat, q: nat)
    requires Inv(t) && Legal(t, es) && p < NPROC && q < NPROC && Before(t, p, q)
    requires RunnableThroughout(t, es, p)
    requires AllLeaveAlone(es, t.proc[p].pid) && AllLeaveAlone(es, t.proc[q].pid)
    ensures RunnableThroughout(t, es, q) && Before(Exec(t, es), p, q)
    decreases |es|
  {
    hide Facts, Step, Enabled, Ahead;
    if es != [] {
      assert LeavesAlone(es[0], t.proc[p].pid) && LeavesAlone(es[0], t.proc[q].pid);
      StepInv(t, es[0]);
      assert RunnableThroughout(Step(t, es[0]), es[1..], p);
      StepBefore(t, es[0], p, q);
      NoOvertaking(Step(t, es[0]), es[1..], p, q);
    }
  }
}
