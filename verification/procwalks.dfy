/**
  What the list walks of proc.c have done so far, round by round: wakeup1, the
  adoption of exit, the promotion of the scheduler, userinit.  Each ends in the
  matching step of Scheduler.
 */
module ProcWalks {
  import opened Seqs
  import opened Scheduler
  import opened SchedulerRuns
  import opened ProcLists

  ghost predicate Can(t: Table, e: Event) {
    Inv(t) && Enabled(t, e)
  }

  ghost predicate Took(t: Table, e: Event, u: Table) {
    Can(t, e) && u == Step(t, e)
  }

  /** Only wait sleeps on a process, on itself, and only when no child is a zombie. */
  ghost predicate CanSleep(t: Table, c: nat, ch: Chan, now: Ticks) {
    && Inv(t) && Runs(t, c) && t.fork[t.cpu[c].i] == NotForking && SlicesOk(t, c, now)
    && (ch.Other? || (ch == OnProc(t.cpu[c].i) && !HasZombie(t, t.cpu[c].i)))
  }

  ghost predicate Slept(t: Table, c: nat, ch: Chan, now: Ticks, u: Table) {
    CanSleep(t, c, ch, now) && t.cpu[c].i < NPROC && u == SleepStep(t, c, t.cpu[c].i, ch, now)
  }

  ghost predicate Woke(t: Table, ch: Chan, u: Table) {
    Partition(t) && u == Wakeup(t, ch)
  }

  /** wakeup1 has come from table v0 to table t; entry j of the sleep list s of v0 is next, kept stays asleep. */
  ghost predicate Waking(v0: Table, t: Table, kept: seq<nat>, s: seq<nat>, j: nat, ch: Chan) {
    && Partition(v0) && Partition(t) && Known(s) && j <= |s|
    && s == v0.q[StateQ(SLEEPING)] && t.q[StateQ(SLEEPING)] == kept + s[j..]
    && Wake(t, s[j..], ch) == Wake(v0, s, ch)
  }

  lemma WakeStart(v0: Table, ch: Chan)
    requires Partition(v0)
    ensures Waking(v0, v0, [], v0.q[StateQ(SLEEPING)], 0, ch) && |v0.q| == NQ
  {
    var s := v0.q[StateQ(SLEEPING)];
    QueueKnown(v0, StateQ(SLEEPING));
    assert s[0..] == s && [] + s == s;
  }

  lemma WakeNext(v0: Table, t: Table, next: seq<Link>, pt: Ptrs, kept: seq<nat>, s: seq<nat>, j: nat, ch: Chan)
    requires Waking(v0, t, kept, s, j, ch) && IsList(next, pt, t.q[StateQ(SLEEPING)]) && j < |s|
    ensures s[j] < NPROC == |t.proc| == |next| && next[s[j]] == Ahead(s, j + 1)
    ensures Shape(t) && Partition(t) && t.proc[s[j]].state == SLEEPING
    ensures
      var r := t.proc[s[j]];
      if r.chan == ch then Waking(v0, Move(t, s[j], r.(state := RUNNABLE)), kept, s, j + 1, ch)
      else Waking(v0, t, kept + [s[j]], s, j + 1, ch)
  {
    hide On, Wake, Without, NoDup, Move;
    WalkOn(next, pt, t.q[StateQ(SLEEPING)], kept, s, j);
    QueueKnown(t, StateQ(SLEEPING));
    WakeFirst(t, s, j, ch);
    MoveQueues(t, s[j], t.proc[s[j]].(state := RUNNABLE));
    MovePartition(t, s[j], t.proc[s[j]].(state := RUNNABLE));
    WithoutMiddle(kept, s, j);
  }

  lemma WakeFirst(t: Table, s: seq<nat>, j: nat, ch: Chan)
    requires Shape(t) && Known(s) && j < |s|
    ensures Wake(t, s[j..], ch) ==
      var r := t.proc[s[j]];
      Wake(if r.chan == ch then Move(t, s[j], r.(state := RUNNABLE)) else t, s[j+1..], ch)
  {
    assert s[j..][1..] == s[j+1..];
  }

  lemma WakeDone(v0: Table, t: Table, kept: seq<nat>, s: seq<nat>, ch: Chan)
    requires Waking(v0, t, kept, s, |s|, ch)
    ensures Partition(t) && Woke(v0, ch, t)
  {
    assert s[|s|..] == [];
  }

  lemma NoneRunnable(t: Table)
    requires Partition(t)
    ensures t.q[StateQ(RUNNABLE)] == []
  {
    if t.q[StateQ(RUNNABLE)] != [] { assert On(t.q, StateQ(RUNNABLE), t.q[StateQ(RUNNABLE)][0]); }
  }

  /** Every process whose home is queue k is somewhere on it. */
  lemma AllOn(t: Table, k: nat)
    requires Partition(t) && k < NQ
    ensures forall p :: 0 <= p < NPROC && Home(t.proc[p]) == k ==> exists i :: 0 <= i < |t.q[k]| && t.q[k][i] == p
  {
    forall p | 0 <= p < NPROC && Home(t.proc[p]) == k ensures exists i :: 0 <= i < |t.q[k]| && t.q[k][i] == p {
      assert On(t.q, Home(t.proc[p]), p);
    }
  }

  /** Pids are unique, so a search by pid finds the owner or there is none. */
  lemma OwnerIs(t: Table, pid: int, l: Link)
    requires Inv(t)
    requires l.To? ==> l.i < NPROC && t.proc[l.i].state != UNUSED && t.proc[l.i].pid == pid
    requires l == Null ==> forall p :: 0 <= p < NPROC && 1 <= StateQ(t.proc[p].state) < 6 ==> t.proc[p].pid != pid
    ensures Owner(t, pid, NPROC) == l
  {
    hide On, NoDup, Owner;
    var o := Owner(t, pid, NPROC);
    assert PidInv(t);
  }

  lemma SameHomes(t: Table, u: Table)
    requires Partition(t) && u.q == t.q && |u.proc| == NPROC && |u.cpu| == NCPU && |u.fork| == NPROC
    requires forall p :: 0 <= p < NPROC ==>
      u.proc[p].priority == t.proc[p].priority && Home(u.proc[p]) == Home(t.proc[p])
    ensures Partition(u)
  {
    hide On, NoDup;
  }

  ghost predicate FirstChildIs(t: Table, k: nat, cur: nat, l: Link) {
    Partition(t) && k < NQ && (QueueKnown(t, k); FirstChild(t.proc, t.q[k], cur) == l)
  }

  ghost predicate Waited(t: Table, c: nat, now: Ticks, u: Table, r: WaitResult) {
    Can(t, Event.Wait(c, now)) && t.cpu[c].i < NPROC && (u, r) == WaitStep(t, c, t.cpu[c].i, now)
  }

  // ---- exit's change of parents and its wakeups of init, interleaved, against Reparent and one Wakeup ----

  ghost predicate SameButParents(t: Table, u: Table) {
    && u == t.(proc := u.proc) && |u.proc| == |t.proc|
    && forall z :: 0 <= z < |t.proc| ==> u.proc[z] == t.proc[z].(parent := u.proc[z].parent)
  }

  ghost predicate ParentsFinal(t1: Table, u: Table, cur: nat, done: set<nat>) {
    && |t1.proc| == |u.proc|
    && forall z :: 0 <= z < |t1.proc| ==>
         u.proc[z].parent == if z in done && IsChild(t1, z, cur) then To(t1.init) else t1.proc[z].parent
  }

  ghost predicate ZombieIn(t1: Table, cur: nat, done: set<nat>) {
    exists z :: 0 <= z < |t1.proc| && z in done && IsChild(t1, z, cur) && t1.proc[z].state == ZOMBIE
  }

  /** exit has come from t1 to u: the parents of the processes in done are final, w if init has been woken. */
  ghost predicate Adopting(t1: Table, u: Table, cur: nat, w: bool, done: set<nat>) {
    && Partition(t1) && Partition(u)
    && SameButParents(if w then Wakeup(t1, OnProc(t1.init)) else t1, u)
    && ParentsFinal(t1, u, cur, done)
    && (w <==> ZombieIn(t1, cur, done))
  }

  ghost function Adopted(u: Table, cur: nat, z: nat): Table
    requires z < |u.proc|
  {
    if u.proc[z].parent == To(cur) then u.(proc := u.proc[z := u.proc[z].(parent := To(u.init))]) else u
  }

  lemma SameButParentsPartition(t: Table, u: Table)
    requires Partition(t) && SameButParents(t, u)
    ensures Partition(u)
  {
    SameHomes(t, u);
  }

  lemma {:induction false} WakeSameButParents(t: Table, u: Table, s: seq<nat>, ch: Chan)
    requires Shape(t) && Shape(u) && SameButParents(t, u) && Known(s)
    ensures SameButParents(Wake(t, s, ch), Wake(u, s, ch))
    decreases |s|
  {
    if s != [] {
      var r, r' := t.proc[s[0]], u.proc[s[0]];
      if r.chan == ch {
        WakeSameButParents(Move(t, s[0], r.(state := RUNNABLE)), Move(u, s[0], r'.(state := RUNNABLE)), s[1..], ch);
      } else {
        WakeSameButParents(t, u, s[1..], ch);
      }
    }
  }

  lemma {:induction false} WakeIdle(t: Table, s: seq<nat>, ch: Chan)
    requires Shape(t) && Known(s) && forall i :: 0 <= i < |s| ==> t.proc[s[i]].chan != ch
    ensures Wake(t, s, ch) == t
    decreases |s|
  {
    if s != [] { WakeIdle(t, s[1..], ch); }
  }

  /** Waking init commutes with changes of parents, and a second time does nothing. */
  lemma WakeupAgain(t1: Table, u: Table, w: bool, ch: Chan)
    requires Partition(t1) && Partition(u) && SameButParents(if w then Wakeup(t1, ch) else t1, u)
    ensures SameButParents(Wakeup(t1, ch), Wakeup(u, ch))
    ensures forall z :: 0 <= z < NPROC ==> Wakeup(u, ch).proc[z].parent == u.proc[z].parent
  {
    hide On, NoDup, Wake;
    WakeupEffect(u, ch);
    WakeupEffect(t1, ch);
    QueueKnown(u, StateQ(SLEEPING));
    if w {
      WakeIdle(u, u.q[StateQ(SLEEPING)], ch);
    } else {
      WakeSameButParents(t1, u, u.q[StateQ(SLEEPING)], ch);
    }
  }

  lemma ParentsStep(t1: Table, u: Table, cur: nat, done: set<nat>, z: nat)
    requires ParentsFinal(t1, u, cur, done) && u.init == t1.init
    requires z < |u.proc| && z !in done && t1.proc[z].state != UNUSED
    ensures ParentsFinal(t1, Adopted(u, cur, z), cur, done + {z})
    ensures ZombieIn(t1, cur, done + {z}) <==>
      ZombieIn(t1, cur, done) || (t1.proc[z].parent == To(cur) && t1.proc[z].state == ZOMBIE)
    ensures u.proc[z].parent == t1.proc[z].parent
  {
    if ZombieIn(t1, cur, done) {
      var x :| 0 <= x < |t1.proc| && x in done && IsChild(t1, x, cur) && t1.proc[x].state == ZOMBIE;
      assert x in done + {z};
    }
  }

  /** Up to parents, u is t1 or t1 with init woken. */
  lemma Likeness(t1: Table, u: Table, w: bool, ch: Chan, z: nat)
    requires Partition(t1) && SameButParents(if w then Wakeup(t1, ch) else t1, u) && z < NPROC
    ensures u.init == t1.init && |u.proc| == NPROC
    ensures (u.proc[z].state == UNUSED <==> t1.proc[z].state == UNUSED)
      && (u.proc[z].state == ZOMBIE <==> t1.proc[z].state == ZOMBIE)
  {
    hide On, NoDup, Wake;
    WakeupEffect(t1, ch);
  }

  lemma AdoptStep(t1: Table, u: Table, cur: nat, w: bool, done: set<nat>, z: nat)
    requires Adopting(t1, u, cur, w, done) && z < NPROC && z !in done && u.proc[z].state != UNUSED
    ensures var v := Adopted(u, cur, z);
      && Partition(v)
      && if u.proc[z].parent == To(cur) && u.proc[z].state == ZOMBIE
         then Adopting(t1, Wakeup(v, OnProc(v.init)), cur, true, done + {z})
         else Adopting(t1, v, cur, w, done + {z})
  {
    hide Partition, Wakeup, ParentsFinal, ZombieIn;
    var ch := OnProc(t1.init);
    Likeness(t1, u, w, ch, z);
    var v := Adopted(u, cur, z);
    ParentsStep(t1, u, cur, done, z);
    SameButParentsPartition(u, v);
    if u.proc[z].parent == To(cur) && u.proc[z].state == ZOMBIE {
      WakeupAgain(t1, v, w, ch);
      WokenPartition(v, ch);
      SameParents(t1, v, Wakeup(v, ch), cur, done + {z});
    }
  }

  lemma WokenPartition(t: Table, ch: Chan)
    requires Partition(t)
    ensures Partition(Wakeup(t, ch)) && |t.proc| == NPROC && |Wakeup(t, ch).proc| == NPROC
    ensures forall k :: 0 <= k < 6 && k != StateQ(SLEEPING) ==> k < |t.q| && Wakeup(t, ch).q[k] == t.q[k]
  {
    hide On, NoDup, Wake;
    WakeupEffect(t, ch);
  }

  lemma SameParents(t1: Table, u: Table, v: Table, cur: nat, done: set<nat>)
    requires ParentsFinal(t1, u, cur, done) && |v.proc| == |u.proc|
    requires forall z :: 0 <= z < |u.proc| ==> v.proc[z].parent == u.proc[z].parent
    ensures ParentsFinal(t1, v, cur, done)
  {
  }

  lemma AdoptOne(t1: Table, u: Table, cur: nat, w: bool, done: set<nat>, s: seq<nat>, j: nat, k: nat)
    requires j < |s| && Adopting(t1, u, cur, w, done + Elements(s[..j])) && 0 < k < NQ
    requires k < |u.q| && s == u.q[k] && forall x :: x in s ==> x !in done
    ensures s[j] < NPROC == |u.proc| && Partition(u) && (k != StateQ(ZOMBIE) ==> u.proc[s[j]].state != ZOMBIE)
    ensures var v := Adopted(u, cur, s[j]);
      && Partition(v)
      && if u.proc[s[j]].parent == To(cur) && u.proc[s[j]].state == ZOMBIE
         then
           && Adopting(t1, Wakeup(v, OnProc(v.init)), cur, true, done + Elements(s[..j+1]))
           && Wakeup(v, OnProc(v.init)).q[k] == s
         else Adopting(t1, v, cur, w, done + Elements(s[..j+1]))
  {
    hide Partition, Adopting, Wakeup;
    AdoptingQueue(t1, u, cur, w, done + Elements(s[..j]), k, j);
    ElementsNext(s, j);
    assert done + Elements(s[..j+1]) == done + Elements(s[..j]) + {s[j]};
    AdoptStep(t1, u, cur, w, done + Elements(s[..j]), s[j]);
    var v := Adopted(u, cur, s[j]);
    WokenPartition(v, OnProc(v.init));
  }

  lemma AdoptingQueue(t1: Table, u: Table, cur: nat, w: bool, done: set<nat>, k: nat, j: nat)
    requires Adopting(t1, u, cur, w, done) && 0 < k < NQ && k < |u.q| && j < |u.q[k]|
    ensures Partition(t1) && Partition(u) && |u.proc| == NPROC
    ensures var z := u.q[k][j];
      && z < NPROC && u.proc[z].state != UNUSED && (u.proc[z].state == ZOMBIE <==> k == StateQ(ZOMBIE))
      && z !in u.q[k][..j]
  {
    QueueKnown(u, k);
  }

  ghost predicate AdoptedAll(t1: Table, cur: nat, u: Table) {
    && Partition(t1) && Partition(u) && Partition(Reparent(t1, cur))
    && u == if HasZombie(t1, cur) then Wakeup(Reparent(t1, cur), OnProc(t1.init)) else Reparent(t1, cur)
  }

  /** The scan has passed the lists of states below i, and of state RUNNABLE (if that is i) those above priority j. */
  ghost predicate Upto(t1: Table, done: set<nat>, i: nat, j: int) {
    forall z: nat :: z in done <==> z < |t1.proc| && Past(t1.proc[z], i, j)
  }

  ghost predicate Past(r: Proc, i: nat, j: int) {
    r.state != UNUSED && (StateQ(r.state) < i || (i == StateQ(RUNNABLE) && r.state == RUNNABLE && r.priority > j))
  }

  lemma AdoptStart(t1: Table, cur: nat)
    requires Partition(t1)
    ensures Adopting(t1, t1, cur, false, {}) && Upto(t1, {}, 1, MAXPRIO) && |t1.q| == NQ
  {
  }

  lemma UptoQueue(t1: Table, done: set<nat>, i: nat, j: int, k: nat)
    requires Partition(t1) && Upto(t1, done, i, j) && 1 <= i < 6 && 0 <= j <= MAXPRIO
    requires k == if i == StateQ(RUNNABLE) then ReadyQ(j) else i
    requires i != StateQ(RUNNABLE) ==> j == MAXPRIO
    ensures forall x :: x in t1.q[k] ==> x !in done
    ensures Upto(t1, done + Elements(t1.q[k]), if i == StateQ(RUNNABLE) then i else i + 1,
                 if i == StateQ(RUNNABLE) then j - 1 else MAXPRIO)
  {
    hide Partition, Past, Home;
    PartitionApart(t1);
    QueueSet(t1, k);
    forall r: Proc | r.priority <= MAXPRIO
      ensures Home(r) == k ==> !Past(r, i, j)
      ensures Past(r, if i == StateQ(RUNNABLE) then i else i + 1, if i == StateQ(RUNNABLE) then j - 1 else MAXPRIO)
              <==> Past(r, i, j) || Home(r) == k
    {
      PastNext(r, i, j);
    }
  }

  lemma PastNext(r: Proc, i: nat, j: int)
    requires r.priority <= MAXPRIO && 1 <= i < 6 && 0 <= j <= MAXPRIO && (i != StateQ(RUNNABLE) ==> j == MAXPRIO)
    ensures var k := if i == StateQ(RUNNABLE) then ReadyQ(j) else i;
      && (Home(r) == k ==> !Past(r, i, j))
      && (Past(r, if i == StateQ(RUNNABLE) then i else i + 1, if i == StateQ(RUNNABLE) then j - 1 else MAXPRIO) <==>
            Past(r, i, j) || Home(r) == k)
  {
  }

  lemma UptoReady(t1: Table, done: set<nat>)
    requires Upto(t1, done, StateQ(RUNNABLE), -1)
    ensures Upto(t1, done, StateQ(RUNNABLE) + 1, MAXPRIO)
  {
  }

  lemma QueueSet(t: Table, k: nat)
    requires Partition(t) && k < NQ
    ensures forall z: nat :: z in Elements(t.q[k]) <==> z < NPROC && Home(t.proc[z]) == k
  {
    hide NoDup;
    forall z: nat ensures z in Elements(t.q[k]) <==> z < NPROC && Home(t.proc[z]) == k {
      assert z < NPROC ==> On(t.q, Home(t.proc[z]), z);
      assert z in t.q[k] <==> On(t.q, k, z);
    }
  }

  lemma AdoptDone(t1: Table, u: Table, cur: nat, w: bool, done: set<nat>)
    requires Adopting(t1, u, cur, w, done) && Upto(t1, done, 6, MAXPRIO)
    ensures AdoptedAll(t1, cur, u)
  {
    hide On, NoDup, Wakeup;
    var ch := OnProc(t1.init);
    ReparentPartition(t1, cur);
    assert w <==> HasZombie(t1, cur);
    if w {
      WakeupAgain(t1, Reparent(t1, cur), false, ch);
      SameAs(Wakeup(t1, ch), u, Wakeup(Reparent(t1, cur), ch));
    } else {
      SameAs(t1, u, Reparent(t1, cur));
    }
  }

  lemma SameAs(t: Table, u: Table, v: Table)
    requires SameButParents(t, u) && SameButParents(t, v)
    requires forall z :: 0 <= z < |u.proc| ==> u.proc[z].parent == v.proc[z].parent
    ensures u == v
  {
    assert forall z :: 0 <= z < |u.proc| ==> u.proc[z] == v.proc[z];
    assert u.proc == v.proc;
  }

  lemma ExitEnd(t: Table, c: nat, cur: nat, u: Table)
    requires Partition(t) && c < NCPU && cur < NPROC && t.proc[cur].state == RUNNING
    requires AdoptedAll(Wakeup(t, ChanOf(t.proc[cur].parent)), cur, u)
    ensures Partition(u) && Shape(u) && u.proc[cur].state == RUNNING && u.cpu == t.cpu
    ensures ExitStep(t, c, cur) == Move(u, cur, u.proc[cur].(state := ZOMBIE)).(cpu := t.cpu[c := Null])
  {
    hide Wake, Move, On, NoDup;
    var t1 := Wakeup(t, ChanOf(t.proc[cur].parent));
    WakeupEffect(t, ChanOf(t.proc[cur].parent));
    WakeupEffect(Reparent(t1, cur), OnProc(t1.init));
  }

  ghost predicate MayExit(t: Table, c: nat) {
    Inv(t) && Runs(t, c) && t.fork[t.cpu[c].i] == NotForking
  }

  // ---- promotion in place, list by list, against Promote ----

  /** The processes of s have been promoted, the others are as before. */
  ghost predicate ProcsLifted(a: seq<Proc>, b: seq<Proc>, s: seq<nat>) {
    && |a| == |b|
    && forall z: nat :: z < |a| ==> b[z] == if z in s then Promoted(a[z]) else a[z]
  }

  lemma ProcsLiftedNext(a: seq<Proc>, b: seq<Proc>, s: seq<nat>, j: nat)
    requires NoDup(s) && j < |s| && s[j] < |a| && ProcsLifted(a, b, s[..j])
    ensures |b| == |a| && b[s[j]] == a[s[j]] && ProcsLifted(a, b[s[j] := Promoted(b[s[j]])], s[..j+1])
  {
    assert s[..j+1] == s[..j] + [s[j]];
    assert s[j] !in s[..j];
  }

  ghost predicate LiftedProcs(t: Table, u: Table, s: seq<nat>) {
    u == t.(proc := u.proc) && ProcsLifted(t.proc, u.proc, s)
  }

  ghost predicate IsLifted(t: Table, k: nat, u: Table) {
    k < |t.q| && LiftedProcs(t, u, t.q[k])
  }

  lemma LiftedStart(t: Table, k: nat)
    requires Partition(t) && k < NQ
    ensures LiftedProcs(t, t, t.q[k][..0])
  {
  }

  lemma LiftedNext(t: Table, u: Table, k: nat, j: nat)
    requires Partition(t) && (k == StateQ(SLEEPING) || k == StateQ(RUNNING)) && j < |t.q[k]|
    requires LiftedProcs(t, u, t.q[k][..j])
    ensures var z := t.q[k][j];
      && z < NPROC == |u.proc| && (u.proc[z].state == SLEEPING || u.proc[z].state == RUNNING)
      && u.proc[z].priority <= MAXPRIO
      && LiftedProcs(t, u.(proc := u.proc[z := Promoted(u.proc[z])]), t.q[k][..j+1])
  {
    hide On, NoDup, ProcsLifted;
    QueueKnown(t, k);
    ProcsLiftedNext(t.proc, u.proc, t.q[k], j);
  }

  lemma LiftedPartition(t: Table, u: Table, k: nat)
    requires Partition(t) && IsLifted(t, k, u) && (k == StateQ(SLEEPING) || k == StateQ(RUNNING))
    ensures Partition(u)
  {
    hide NoDup;
    QueueKnown(t, k);
    forall p: nat | p < NPROC ensures u.proc[p].priority <= MAXPRIO && Home(u.proc[p]) == Home(t.proc[p]) {
      if p in t.q[k] { assert On(t.q, k, p); }
    }
    SamePlaces(t, u);
  }

  lemma SamePlaces(t: Table, u: Table)
    requires Partition(t) && u.q == t.q && |u.proc| == NPROC && |u.cpu| == NCPU && |u.fork| == NPROC
    requires forall p :: 0 <= p < NPROC ==> u.proc[p].priority <= MAXPRIO && Home(u.proc[p]) == Home(t.proc[p])
    ensures Partition(u)
  {
    hide On, NoDup;
  }

  ghost function RaisedQ(q: seq<seq<nat>>, level: nat, m: nat): seq<seq<nat>>
    requires |q| == NQ && level < MAXPRIO && m <= |q[ReadyQ(level)]|
  {
    var s := q[ReadyQ(level)];
    q[ReadyQ(level) := s[m..]][ReadyQ(level + 1) := q[ReadyQ(level + 1)] + s[..m]]
  }

  /** The first m processes of ready queue `level` of t have moved up. */
  ghost predicate Raising(t: Table, u: Table, level: nat, m: nat) {
    && Partition(t) && Partition(u) && level < MAXPRIO && m <= |t.q[ReadyQ(level)]|
    && u == t.(proc := u.proc, q := RaisedQ(t.q, level, m))
    && ProcsLifted(t.proc, u.proc, t.q[ReadyQ(level)][..m])
  }

  lemma RaisingStart(t: Table, level: nat)
    requires Partition(t) && level < MAXPRIO
    ensures |t.q| == NQ && Raising(t, t, level, 0)
  {
    var s := t.q[ReadyQ(level)];
    assert s[0..] == s && t.q[ReadyQ(level + 1)] + s[..0] == t.q[ReadyQ(level + 1)];
  }

  lemma RaisingNext(t: Table, u: Table, level: nat, m: nat, next: seq<Link>, pt: Ptrs)
    requires Raising(t, u, level, m) && |t.q| == NQ && m < |t.q[ReadyQ(level)]|
    requires |u.q| == NQ && IsList(next, pt, u.q[ReadyQ(level)])
    ensures var p := t.q[ReadyQ(level)][m];
      && p < NPROC == |u.proc| == |next| && next[p] == Ahead(t.q[ReadyQ(level)], m + 1)
      && Partition(u) && Shape(u) && u.proc[p].state == RUNNABLE && u.proc[p].priority == level
      && Raising(t, Move(u, p, Promoted(u.proc[p])), level, m + 1)
  {
    hide On, NoDup, ProcsLifted, IsList;
    var s := t.q[ReadyQ(level)];
    QueueKnown(t, ReadyQ(level));
    ProcsLiftedNext(t.proc, u.proc, s, m);
    assert u.q[ReadyQ(level)] == [] + s[m..];
    WalkOn(next, pt, u.q[ReadyQ(level)], [], s, m);
    MovePartition(u, s[m], Promoted(u.proc[s[m]]));
    RaisedQNext(t.q, level, m);
  }

  lemma RaisedQNext(q: seq<seq<nat>>, level: nat, m: nat)
    requires |q| == NQ && level < MAXPRIO && m < |q[ReadyQ(level)]|
    ensures
      var p, r := q[ReadyQ(level)][m], RaisedQ(q, level, m);
      var r' := r[ReadyQ(level) := Without(r[ReadyQ(level)], p)];
      r'[ReadyQ(level + 1) := r'[ReadyQ(level + 1)] + [p]] == RaisedQ(q, level, m + 1)
  {
    var s := q[ReadyQ(level)];
    assert s[m..][0] == s[m] && s[m..][1..] == s[m+1..];
    assert q[ReadyQ(level + 1)] + s[..m] + [s[m]] == q[ReadyQ(level + 1)] + s[..m+1];
  }

  ghost predicate IsPromoted(t: Table, now: Ticks, u: Table) {
    Partition(t) && u == Promote(t, now)
  }

  predicate Lifts(r: Proc, i: nat, j: int) {
    (r.state == SLEEPING && i > 2) || (r.state == RUNNABLE && r.priority > j) || (r.state == RUNNING && i > 4)
  }

  /** The queues when the levels above j have moved up. */
  ghost function ShiftedTo(q: seq<seq<nat>>, k: int, j: int): seq<nat>
    requires |q| == NQ && 0 <= k < NQ && -1 <= j < MAXPRIO
  {
    if k <= ReadyQ(0) + j || k < 6 then q[k]
    else if k == ReadyQ(MAXPRIO) then if j < MAXPRIO - 1 then q[k] + q[k-1] else q[k]
    else if k == ReadyQ(0) + j + 1 then []
    else q[k-1]
  }

  ghost predicate ProcsAt(a: seq<Proc>, b: seq<Proc>, i: nat, j: int) {
    && |a| == |b|
    && forall z: nat :: z < |a| ==> b[z] == if Lifts(a[z], i, j) then Promoted(a[z]) else a[z]
  }

  ghost predicate QueuesAt(q: seq<seq<nat>>, r: seq<seq<nat>>, j: int) {
    && |q| == NQ && |r| == NQ && -1 <= j < MAXPRIO
    && forall k: nat :: k < NQ ==> r[k] == ShiftedTo(q, k, j)
  }

  /** Promotion has done the lists of states below i, and the ready queues above level j. */
  ghost predicate Progress(t: Table, u: Table, i: nat, j: int) {
    && Partition(t) && Partition(u) && u == t.(proc := u.proc, q := u.q)
    && ProcsAt(t.proc, u.proc, i, j) && QueuesAt(t.q, u.q, j)
  }

  lemma ProgressStart(t: Table)
    requires Partition(t)
    ensures Progress(t, t, 2, MAXPRIO - 1)
  {
  }

  lemma ProgressPartition(t: Table, u: Table, i: nat, j: int)
    requires Progress(t, u, i, j)
    ensures Partition(u) && |u.q| == NQ
  {
  }

  lemma ProgressRunnable(t: Table, u: Table)
    requires Progress(t, u, 3, MAXPRIO - 1)
    ensures |u.q| == NQ && u.q[StateQ(RUNNABLE)] == []
  {
    NoneRunnable(u);
  }

  lemma ProgressMiddle(t: Table, u: Table, i: nat)
    requires i > 0 && Progress(t, u, if i == 4 then 3 else i, if i <= 3 then MAXPRIO - 1 else -1)
    ensures Progress(t, u, i, if i <= 3 then MAXPRIO - 1 else -1)
  {
  }

  lemma ProgressList(t: Table, u: Table, v: Table, i: nat, j: int)
    requires Progress(t, u, i, j) && IsLifted(u, i, v) && Partition(v)
      && (i == StateQ(SLEEPING) || i == StateQ(RUNNING))
    ensures Progress(t, v, i + 1, j)
  {
    hide Partition, ProcsLifted, ProcsAt;
    PartitionApart(t);
    assert u.q[i] == t.q[i];
    Membership(t, i);
    ProcsNext(t.proc, u.proc, v.proc, t.q[i], i, i, j, i + 1, j);
  }

  lemma ProgressLevel(t: Table, u: Table, v: Table, j: nat)
    requires Progress(t, u, 3, j) && j < |u.q| - 6 && Raising(u, v, j, |u.q[ReadyQ(j)]|)
    ensures Progress(t, v, 3, j - 1)
  {
    hide Partition, ProcsLifted, ProcsAt;
    PartitionApart(t);
    var s := u.q[ReadyQ(j)];
    assert s == t.q[ReadyQ(j)] && s[..|s|] == s;
    Membership(t, ReadyQ(j));
    ProcsNext(t.proc, u.proc, v.proc, s, ReadyQ(j), 3, j, 3, j - 1);
    LevelQueues(t.q, u.q, j);
  }

  lemma Membership(t: Table, k: nat)
    requires Partition(t) && k < NQ
    ensures forall z: nat :: z in t.q[k] <==> z < NPROC && Home(t.proc[z]) == k
  {
    hide On, NoDup;
    QueueSet(t, k);
    forall z: nat ensures z in t.q[k] <==> z < NPROC && Home(t.proc[z]) == k {
      assert z in t.q[k] <==> z in Elements(t.q[k]);
    }
  }

  lemma ProcsNext(a: seq<Proc>, b: seq<Proc>, c: seq<Proc>, s: seq<nat>, k: nat, i: nat, j: int, i': nat, j': int)
    requires ProcsAt(a, b, i, j) && ProcsLifted(b, c, s)
    requires forall z: nat :: z in s <==> z < |a| && Home(a[z]) == k
    requires (i == k && i' == i + 1 && j' == j && k in {2, 4}) || (k == 6 + j && i == i' == 3 && j' == j - 1 && 0 <= j)
    ensures ProcsAt(a, c, i', j')
  {
    forall z: nat | z < |a| ensures c[z] == if Lifts(a[z], i', j') then Promoted(a[z]) else a[z] {}
  }

  lemma LevelQueues(q: seq<seq<nat>>, r: seq<seq<nat>>, j: nat)
    requires QueuesAt(q, r, j)
    ensures QueuesAt(q, RaisedQ(r, j, |r[ReadyQ(j)]|), j - 1)
  {
    var s := r[ReadyQ(j)];
    assert s[|s|..] == [] && s[..|s|] == s;
    var r' := RaisedQ(r, j, |s|);
    forall k: nat | k < NQ ensures r'[k] == ShiftedTo(q, k, j - 1) {}
  }

  lemma ProgressDone(t: Table, u: Table, now: Ticks)
    requires Progress(t, u, 5, -1)
    ensures Partition(u.(promoteAt := U32(now + TICKS_TO_PROMOTE)))
    ensures IsPromoted(t, now, u.(promoteAt := U32(now + TICKS_TO_PROMOTE)))
  {
    hide On, NoDup;
    var w := Promote(t, now);
    assert u.proc == w.proc;
    assert u.q == w.q;
    PromotePartition(t, now);
  }

  lemma TopReadyNext(q: seq<seq<nat>>, j: int)
    requires |q| == NQ && -1 <= j <= MAXPRIO
    ensures j < 0 ==> TopReady(q, j) == -1
    ensures j >= 0 ==> TopReady(q, j) == if q[ReadyQ(j)] != [] then j else TopReady(q, j - 1)
  {
  }

  lemma ReadyHead(t: Table, j: nat)
    requires Partition(t) && j <= MAXPRIO && t.q[ReadyQ(j)] != []
    ensures var p := t.q[ReadyQ(j)][0]; p < NPROC && t.proc[p].state == RUNNABLE && t.proc[p].priority == j
  {
    QueueKnown(t, ReadyQ(j));
  }

  /** The queues when processes 0 to n - 1 are on the free list. */
  ghost function FreeUpto(n: nat): (q: seq<seq<nat>>)
    ensures |q| == NQ && |q[0]| == n && (forall i :: 0 <= i < n ==> q[0][i] == i) && forall k :: 0 < k < NQ ==>
      q[k] == []
  {
    [seq(n, i => i)] + seq(NQ - 1, k => [])
  }

  ghost predicate AllFree(t: Table) {
    && |t.proc| == NPROC
      && t == Table(t.proc, FreeUpto(NPROC), seq(NCPU, c => Null), seq(NPROC, p => NotForking), 1, 0, 0)
    && forall p :: 0 <= p < NPROC ==> t.proc[p] == Proc(UNUSED, 0, Null, NoChan, false, 0, 0, 0)
  }

  lemma FreePartition(t: Table)
    requires AllFree(t)
    ensures Partition(t)
  {
    forall k, p: nat ensures On(t.q, k, p) <==> k == 0 && p < NPROC {
      if k == 0 && p < NPROC { assert t.q[0][p] == p; }
    }
    assert forall k :: 0 <= k < NQ ==> NoDup(t.q[k]);
  }

  /** The steps of userinit on the process table end in Booted. */
  lemma BootSteps(t: Table, now: Ticks)
    requires AllFree(t)
    ensures Partition(t) && Shape(t) && t.nextpid == 1 && t.q[StateQ(UNUSED)] != [] && t.q[StateQ(UNUSED)][0] == 0
    ensures t.proc[0].state == UNUSED
    ensures
      var u := Move(t, 0, t.proc[0].(state := EMBRYO, pid := 1));
      var v := u.(proc := u.proc[0 := u.proc[0].(budget := BUDGET, priority := MAXPRIO, ticksIn := 0)], nextpid := 2);
      && u.proc[0].state == EMBRYO && Partition(v) && Shape(v)
      && Move(v, 0, v.proc[0].(state := RUNNABLE)).(promoteAt := U32(now + TICKS_TO_PROMOTE)) == Booted(now)
  {
    hide On, NoDup;
    FreePartition(t);
    var u := Move(t, 0, t.proc[0].(state := EMBRYO, pid := 1));
    MovePartition(t, 0, t.proc[0].(state := EMBRYO, pid := 1));
    var v := u.(proc := u.proc[0 := u.proc[0].(budget := BUDGET, priority := MAXPRIO, ticksIn := 0)], nextpid := 2);
    SamePlaces(u, v);
    var w, b := Move(v, 0, v.proc[0].(state := RUNNABLE)), Booted(now);
    assert w.proc == b.proc;
    BootQueues(t, v, w);
    assert w.q == b.q;
  }

  lemma BootQueues(t: Table, v: Table, w: Table)
    requires AllFree(t) && Shape(t) && Shape(v) && v.proc[0].state == EMBRYO
    requires v.q == Move(t, 0, t.proc[0].(state := EMBRYO, pid := 1)).q
    requires w == Move(v, 0, v.proc[0].(state := RUNNABLE)) && v.proc[0].priority == MAXPRIO
    ensures forall k :: 0 <= k < NQ ==> w.q[k] == BootQueue(k)
  {
    assert t.q[0] == seq(NPROC, i => i) && t.q[0][0] == 0;
    assert t.q[0][1..] == seq(NPROC - 1, i => i + 1);
    assert v.q[0] == t.q[0][1..] && v.q[1] == [0] && w.q[1] == [];
  }

  lemma FreeNext(n: nat)
    ensures forall l: int :: !On(FreeUpto(n), l, n)
    ensures FreeUpto(n)[StateQ(UNUSED) := FreeUpto(n)[StateQ(UNUSED)] + [n]] == FreeUpto(n + 1)
  {
    assert seq(n, i => i) + [n] == seq(n + 1, i => i);
  }

  lemma EmbryoOf(t: Table, c: nat)
    requires Inv(t) && Runs(t, c) && t.fork[t.cpu[c].i] != NotForking
    ensures t.fork[t.cpu[c].i].np < NPROC && t.proc[t.fork[t.cpu[c].i].np].state == EMBRYO
  {
    assert ForkOk(t, t.cpu[c].i);
  }

  lemma NothingListed(next: seq<Link>, pts: seq<Ptrs>, q: seq<seq<nat>>)
    requires |pts| == |q| == NQ && |next| == NPROC
    requires forall k :: 0 <= k < NQ ==> pts[k] == Ptrs(Null, Null) && q[k] == []
    ensures q == FreeUpto(0) && Linked(next, pts, q) && Apart(q)
  {
    assert seq(0, i => i) == [];
  }
}
