/**
  The admission protocol of log.c: begin_op reserves space, end_op commits when
  the last operation leaves, everybody else sleeps on &log.  Each event is one
  critical section of log.lock, but for log_write: it reads its guard before it
  takes the lock, so the guard and the append are two events.  Any number of
  processes take part.
 */
module LogAdmission {
  import opened Seqs

  /** MAXOPBLOCKS, LOGSIZE and log.size (the superblock's nlog). */
  datatype Params = Params(maxOp: nat, logSize: nat, size: nat)

  /** Past log_write's guard with a block, and not yet appended it. */
  datatype Pending = None | Passed(b: nat)

  datatype Proc =
    | Outside
    | Waiting(asleep: bool)          // in begin_op's loop
    | Inside(wrote: set<nat>, next: Pending)     // between begin_op and end_op; blocks it has logged
    | Committing                     // in end_op, running commit()

  datatype State = State(proc: seq<Proc>, logged: set<nat>, outstanding: nat, committing: bool)

  datatype Event =
    | Begin(p: nat)                  // one pass of begin_op's loop
    | Rouse(p: nat)                  // kill() wakes a sleeper
    | Guard(p: nat, b: nat)          // log_write's two tests, before acquire(&log.lock)
    | Append(p: nat)                 // the rest of log_write, under log.lock
    | End(p: nat)                    // end_op up to release(&log.lock)
    | Committed(p: nat)              // the second critical section of end_op

  function Init(k: nat): State {
    State(seq(k, i => Outside), {}, 0, false)
  }

  function Reserved(c: Params, ops: nat): nat {
    ops * c.maxOp
  }

  lemma ReservedNext(c: Params, ops: nat)
    ensures Reserved(c, ops + 1) == Reserved(c, ops) + c.maxOp
  {
  }

  predicate Room(c: Params, s: State) {
    |s.logged| + Reserved(c, s.outstanding + 1) <= c.logSize
  }

  /** The panics of log_write, both checked before looking for the block. */
  predicate WritePanics(c: Params, s: State) {
    |s.logged| >= c.logSize || |s.logged| >= c.size - 1 || s.outstanding < 1
  }

  /** An operation keeps to MAXOPBLOCKS distinct blocks. */
  predicate WithinAllowance(c: Params, s: State, p: nat, b: nat) {
    p < |s.proc| && s.proc[p].Inside? && s.proc[p].next == None && |s.proc[p].wrote + {b}| <= c.maxOp
  }

  predicate Enabled(c: Params, s: State, e: Event) {
    e.p < |s.proc| &&
    match e
    case Begin(p) => s.proc[p] == Outside || s.proc[p] == Waiting(false)
    case Rouse(p) => s.proc[p] == Waiting(true)
    case Guard(p, b) => WithinAllowance(c, s, p, b) && !WritePanics(c, s)
    case Append(p) => s.proc[p].Inside? && s.proc[p].next.Passed?
    case End(p) => s.proc[p].Inside? && s.proc[p].next == None && !s.committing    // else panic("log.committing")
    case Committed(p) => s.proc[p] == Committing
  }

  function WakeAll(proc: seq<Proc>): (r: seq<Proc>)
    ensures |r| == |proc|
    ensures forall i :: 0 <= i < |proc| ==> r[i] == if proc[i].Waiting? then Waiting(false) else proc[i]
  {
    seq(|proc|, i requires 0 <= i < |proc| => if proc[i].Waiting? then Waiting(false) else proc[i])
  }

  function Step(c: Params, s: State, e: Event): State
    requires Enabled(c, s, e)
  {
    match e
    case Begin(p) =>
      if s.committing || !Room(c, s) then s.(proc := s.proc[p := Waiting(true)])
      else s.(proc := s.proc[p := Inside({}, None)], outstanding := s.outstanding + 1)
    case Rouse(p) => s.(proc := s.proc[p := Waiting(false)])
    case Guard(p, b) => s.(proc := s.proc[p := s.proc[p].(next := Passed(b))])
    case Append(p) =>
      var b := s.proc[p].next.b;
      s.(proc := s.proc[p := Inside(s.proc[p].wrote + {b}, None)], logged := s.logged + {b})
    case End(p) =>
      if s.outstanding == 1 then
        s.(proc := s.proc[p := Committing], outstanding := 0, committing := true)
      else
        var left: nat := if s.outstanding == 0 then 0 else s.outstanding - 1;
        s.(proc := WakeAll(s.proc[p := Outside]), outstanding := left)
    case Committed(p) =>
      s.(proc := WakeAll(s.proc[p := Outside]), logged := {}, committing := false)
  }

  // ---- counting operations and their unused allowances ----

  function Share(c: Params, q: Proc): int {
    if q.Inside? then c.maxOp - |q.wrote| else 0
  }

  function Unused(c: Params, proc: seq<Proc>): int {
    if proc == [] then 0 else Unused(c, proc[..|proc|-1]) + Share(c, proc[|proc|-1])
  }

  function One(q: Proc): nat {
    if q.Inside? then 1 else 0
  }

  function Ops(proc: seq<Proc>): nat {
    if proc == [] then 0 else Ops(proc[..|proc|-1]) + One(proc[|proc|-1])
  }

  lemma {:induction false} Update(c: Params, proc: seq<Proc>, p: nat, q: Proc)
    requires p < |proc|
    ensures Unused(c, proc[p := q]) == Unused(c, proc) - Share(c, proc[p]) + Share(c, q)
    ensures Ops(proc[p := q]) == Ops(proc) - One(proc[p]) + One(q)
  {
    var n := |proc| - 1;
    if p < n {
      assert proc[p := q][..n] == proc[..n][p := q];
      Update(c, proc[..n], p, q);
    } else {
      assert proc[p := q][..n] == proc[..n];
    }
  }

  lemma {:induction false} WakeKeeps(c: Params, proc: seq<Proc>)
    ensures Unused(c, WakeAll(proc)) == Unused(c, proc) && Ops(WakeAll(proc)) == Ops(proc)
  {
    if proc != [] {
      var n := |proc| - 1;
      assert WakeAll(proc)[..n] == WakeAll(proc[..n]);
      WakeKeeps(c, proc[..n]);
    }
  }

  lemma {:induction false} UnusedBounds(c: Params, proc: seq<Proc>)
    requires forall i :: 0 <= i < |proc| && proc[i].Inside? ==> |proc[i].wrote| <= c.maxOp
    ensures 0 <= Unused(c, proc) <= Reserved(c, Ops(proc))
    ensures forall i :: 0 <= i < |proc| ==> Share(c, proc[i]) <= Unused(c, proc)
    ensures Ops(proc) == 0 <==> forall i :: 0 <= i < |proc| ==> !proc[i].Inside?
  {
    hide Reserved;
    if proc == [] {
      assert Ops(proc) == 0;
    } else {
      var n := |proc| - 1;
      UnusedBounds(c, proc[..n]);
      assert forall i :: 0 <= i < n ==> proc[..n][i] == proc[i];
      ReservedNext(c, Ops(proc[..n]));
    }
  }

  // ---- the invariant ----

  ghost predicate Inv(c: Params, s: State) {
    && s.outstanding == Ops(s.proc)
    && (forall i :: 0 <= i < |s.proc| && s.proc[i].Inside? ==>
          |s.proc[i].wrote| <= c.maxOp && s.proc[i].wrote <= s.logged)
    && (forall i :: 0 <= i < |s.proc| && s.proc[i].Inside? && s.proc[i].next.Passed? ==>
          |s.proc[i].wrote + {s.proc[i].next.b}| <= c.maxOp)
    && |s.logged| + Unused(c, s.proc) <= c.logSize
    && (s.committing ==> s.outstanding == 0)
    && (!s.committing && s.outstanding == 0 ==> s.logged == {})
    && (forall i :: 0 <= i < |s.proc| && s.proc[i].Committing? ==> s.committing)
    && (s.committing ==> exists i :: 0 <= i < |s.proc| && s.proc[i].Committing?)
    && (forall i, j :: 0 <= i < j < |s.proc| ==> !(s.proc[i].Committing? && s.proc[j].Committing?))
    && (forall i :: 0 <= i < |s.proc| && s.proc[i] == Waiting(true) ==> s.committing || !Room(c, s))
  }

  lemma InitInv(c: Params, k: nat)
    ensures Inv(c, Init(k))
  {
    UnusedBounds(c, Init(k).proc);
  }

  lemma CommitterStays(s: State, t: State, p: nat)
    requires s.committing && |t.proc| == |s.proc| && p < |s.proc| && !s.proc[p].Committing?
    requires exists i :: 0 <= i < |s.proc| && s.proc[i].Committing?
    requires forall i :: 0 <= i < |s.proc| && i != p ==> t.proc[i] == s.proc[i]
    ensures exists i :: 0 <= i < |t.proc| && t.proc[i].Committing?
  {
    var i :| 0 <= i < |s.proc| && s.proc[i].Committing?;
    assert t.proc[i].Committing?;
  }

  lemma StepInv(c: Params, s: State, e: Event)
    requires Inv(c, s) && Enabled(c, s, e)
    ensures Inv(c, Step(c, s, e))
  {
    match e {
      case Begin(p) => if s.committing || !Room(c, s) { WaitInv(c, s, p); } else { EnterInv(c, s, p); }
      case Rouse(p) => RouseInv(c, s, p);
      case Guard(p, b) => GuardInv(c, s, p, b);
      case Append(p) => AppendInv(c, s, p);
      case End(p) => EndInv(c, s, p);
      case Committed(p) => CommittedInv(c, s, p);
    }
  }

  lemma RouseInv(c: Params, s: State, p: nat)
    requires Inv(c, s) && Enabled(c, s, Rouse(p))
    ensures Inv(c, Step(c, s, Rouse(p)))
  {
    hide Reserved, Unused, Ops;
    Update(c, s.proc, p, Waiting(false));
    if s.committing { CommitterStays(s, Step(c, s, Rouse(p)), p); }
  }

  lemma CommittedInv(c: Params, s: State, p: nat)
    requires Inv(c, s) && Enabled(c, s, Committed(p))
    ensures Inv(c, Step(c, s, Committed(p)))
  {
    hide Reserved;
    UnusedBounds(c, s.proc);
    Update(c, s.proc, p, Outside);
    WakeKeeps(c, s.proc[p := Outside]);
    UnusedBounds(c, Step(c, s, Committed(p)).proc);
  }

  lemma WaitInv(c: Params, s: State, p: nat)
    requires Inv(c, s) && Enabled(c, s, Begin(p)) && (s.committing || !Room(c, s))
    ensures Inv(c, Step(c, s, Begin(p)))
  {
    hide Reserved, Unused, Ops;
    Update(c, s.proc, p, Waiting(true));
    if s.committing { CommitterStays(s, Step(c, s, Begin(p)), p); }
  }

  lemma EnterInv(c: Params, s: State, p: nat)
    requires Inv(c, s) && Enabled(c, s, Begin(p)) && !s.committing && Room(c, s)
    ensures Inv(c, Step(c, s, Begin(p)))
  {
    hide Reserved, Unused, Ops;
    UnusedBounds(c, s.proc);
    var t := Step(c, s, Begin(p));
    Update(c, s.proc, p, t.proc[p]);
    ReservedNext(c, s.outstanding);
  }

  lemma GuardInv(c: Params, s: State, p: nat, b: nat)
    requires Inv(c, s) && Enabled(c, s, Guard(p, b))
    ensures Inv(c, Step(c, s, Guard(p, b)))
  {
    hide Reserved, Unused, Ops;
    UnusedBounds(c, s.proc);
    Update(c, s.proc, p, s.proc[p].(next := Passed(b)));
  }

  lemma AppendInv(c: Params, s: State, p: nat)
    requires Inv(c, s) && Enabled(c, s, Append(p))
    ensures Inv(c, Step(c, s, Append(p)))
  {
    hide Reserved, Unused, Ops;
    UnusedBounds(c, s.proc);
    var b, t := s.proc[p].next.b, Step(c, s, Append(p));
    Update(c, s.proc, p, t.proc[p]);
    CardAdd(s.logged, b);
    CardAdd(s.proc[p].wrote, b);
  }

  lemma EndInv(c: Params, s: State, p: nat)
    requires Inv(c, s) && Enabled(c, s, End(p))
    ensures Inv(c, Step(c, s, End(p)))
  {
    hide Reserved;
    UnusedBounds(c, s.proc);
    if s.outstanding == 1 { LastEndInv(c, s, p); } else { EarlyEndInv(c, s, p); }
  }

  lemma LastEndInv(c: Params, s: State, p: nat)
    requires Inv(c, s) && Enabled(c, s, End(p)) && s.outstanding == 1
    ensures Inv(c, Step(c, s, End(p)))
  {
    hide Reserved, Unused, Ops;
    var t := Step(c, s, End(p));
    Update(c, s.proc, p, Committing);
    assert t.proc[p].Committing?;
    UnusedBounds(c, t.proc);
  }

  lemma EarlyEndInv(c: Params, s: State, p: nat)
    requires Inv(c, s) && Enabled(c, s, End(p)) && s.outstanding >= 2
    ensures Inv(c, Step(c, s, End(p)))
  {
    hide Reserved, Unused, Ops;
    Update(c, s.proc, p, Outside);
    WakeKeeps(c, s.proc[p := Outside]);
  }

  // ---- whole runs ----

  ghost predicate Legal(c: Params, s: State, es: seq<Event>)
    decreases |es|
  {
    es == [] || (Enabled(c, s, es[0]) && Legal(c, Step(c, s, es[0]), es[1..]))
  }

  ghost function Exec(c: Params, s: State, es: seq<Event>): State
    requires Legal(c, s, es)
    decreases |es|
  {
    if es == [] then s else Exec(c, Step(c, s, es[0]), es[1..])
  }

  lemma {:induction false} RunInv(c: Params, s: State, es: seq<Event>)
    requires Inv(c, s) && Legal(c, s, es)
    ensures Inv(c, Exec(c, s, es))
    decreases |es|
  {
    if es != [] {
      StepInv(c, s, es[0]);
      RunInv(c, Step(c, s, es[0]), es[1..]);
    }
  }

  /**
    In every state of every run, for any number of processes: the logged blocks
    together with the unused allowances of the operations inside fit in LOGSIZE;
    while a commit runs nobody is inside, so nothing is logged then and the
    "log.committing" panic cannot fire; an idle log is empty; an operation's
    blocks stay in the log until it leaves; and whoever sleeps on &log has a
    reason to: a commit is running or there is no room for one more operation.
   */
  lemma AdmissionHolds(c: Params, k: nat, es: seq<Event>)
    requires Legal(c, Init(k), es)
    ensures var s := Exec(c, Init(k), es);
      && |s.logged| <= |s.logged| + Unused(c, s.proc) <= c.logSize
      && s.outstanding == Ops(s.proc)
      && (forall i :: 0 <= i < |s.proc| && s.proc[i].Inside? ==>
            !s.committing && s.outstanding >= 1 && s.proc[i].wrote <= s.logged
              && Share(c, s.proc[i]) <= Unused(c, s.proc))
      && (s.outstanding == 0 && !s.committing ==> s.logged == {})
      && (forall i :: 0 <= i < |s.proc| && s.proc[i] == Waiting(true) ==> s.committing || !Room(c, s))
  {
    InitInv(c, k);
    RunInv(c, Init(k), es);
    UnusedBounds(c, Exec(c, Init(k), es).proc);
  }

  // ---- what a commit has in it, told from the calls alone ----

  /** The block p passed log_write's tests with last. */
  function Tested(es: seq<Event>, p: nat): nat
    decreases |es|
  {
    if es == [] then 0
    else if es[|es|-1].Guard? && es[|es|-1].p == p then es[|es|-1].b
    else Tested(es[..|es|-1], p)
  }

  /** The blocks given to log_write since the last commit. */
  function Told(es: seq<Event>): set<nat>
    decreases |es|
  {
    if es == [] then {}
    else
      var e, past := es[|es|-1], es[..|es|-1];
      if e.Append? then Told(past) + {Tested(past, e.p)} else if e.Committed? then {} else Told(past)
  }

  ghost predicate AsTold(s: State, es: seq<Event>) {
    && s.logged == Told(es)
    && forall p :: 0 <= p < |s.proc| && s.proc[p].Inside? && s.proc[p].next.Passed? ==>
         s.proc[p].next.b == Tested(es, p)
  }

  lemma StepTold(c: Params, s: State, e: Event, es: seq<Event>)
    requires Enabled(c, s, e) && AsTold(s, es)
    ensures AsTold(Step(c, s, e), es + [e])
  {
    hide Room;
    assert (es + [e])[..|es|] == es && (es + [e])[|es|] == e;
  }

  lemma {:induction false} RunTold(c: Params, s: State, es: seq<Event>, past: seq<Event>)
    requires Legal(c, s, es) && AsTold(s, past)
    ensures AsTold(Exec(c, s, es), past + es)
    decreases |es|
  {
    hide AsTold, Enabled, Step;
    if es == [] {
      assert past + es == past;
    } else {
      StepTold(c, s, es[0], past);
      assert past + es == (past + [es[0]]) + es[1..];
      RunTold(c, Step(c, s, es[0]), es[1..], past + [es[0]]);
    }
  }

  /** Group commit: a commit has in it exactly the blocks that any operation gave to log_write since the last one. */
  lemma CommitHasAll(c: Params, k: nat, es: seq<Event>)
    requires Legal(c, Init(k), es)
    ensures Exec(c, Init(k), es).logged == Told(es)
  {
    assert [] + es == es;
    RunTold(c, Init(k), es, []);
  }

  // ---- when does log_write panic? ----

  /** No operation within its allowance is stopped when it logs a block that is new to it. */
  ghost predicate NewWritesSafe(c: Params) {
    forall k: nat, es: seq<Event>, p: nat, b: nat ::
      Legal(c, Init(k), es) && WithinAllowance(c, Exec(c, Init(k), es), p, b)
      && b !in Exec(c, Init(k), es).proc[p].wrote
      ==> !WritePanics(c, Exec(c, Init(k), es))
  }

  lemma RoomForNewWrite(c: Params, k: nat, es: seq<Event>, p: nat, b: nat)
    requires c.size > c.logSize
    requires Legal(c, Init(k), es) && WithinAllowance(c, Exec(c, Init(k), es), p, b)
    requires b !in Exec(c, Init(k), es).proc[p].wrote
    ensures !WritePanics(c, Exec(c, Init(k), es))
  {
    AdmissionHolds(c, k, es);
    CardAdd(Exec(c, Init(k), es).proc[p].wrote, b);
  }

  /** Three operations are let in; then they log blocks 0, 1, 2, ... in turn. */
  function Filling(m: nat): seq<Event> {
    if m == 0 then [Begin(0), Begin(1), Begin(2)]
    else Filling(m - 1) + [Guard(Turn(m - 1), m - 1)] + [Append(Turn(m - 1))]
  }

  function Turn(b: nat): (i: nat)
    ensures i < 3
  {
    b % 3
  }

  function Turns(m: nat, i: nat): nat {
    if m == 0 then 0 else Turns(m - 1, i) + if Turn(m - 1) == i then 1 else 0
  }

  lemma {:induction false} TurnsAre(m: nat, i: nat)
    requires i < 3
    ensures Turns(m, i) == (m + 2 - i) / 3
  {
    if m > 0 { TurnsAre(m - 1, i); }
  }

  /** The blocks below m that operation i has logged. */
  function Third(m: nat, i: nat): (r: set<nat>)
    ensures forall b: nat :: b in r <==> b < m && Turn(b) == i
    ensures |r| == Turns(m, i)
  {
    if m == 0 then {}
    else if Turn(m - 1) == i then Third(m - 1, i) + {m - 1}
    else Third(m - 1, i)
  }

  function Filled(m: nat): State {
    State([Inside(Third(m, 0), None), Inside(Third(m, 1), None), Inside(Third(m, 2), None)], Span(0, m), 3, false)
  }

  lemma FilledAt(m: nat, i: nat)
    requires i < 3
    ensures Filled(m).proc[i] == Inside(Third(m, i), None)
  {
  }

  lemma {:induction false} ExecSnoc(c: Params, s: State, es: seq<Event>, e: Event)
    requires Legal(c, s, es) && Enabled(c, Exec(c, s, es), e)
    ensures Legal(c, s, es + [e]) && Exec(c, s, es + [e]) == Step(c, Exec(c, s, es), e)
    decreases |es|
  {
    if es == [] {
      assert [e][1..] == [];
    } else {
      assert (es + [e])[1..] == es[1..] + [e];
      ExecSnoc(c, Step(c, s, es[0]), es[1..], e);
    }
  }

  lemma ThreeBegin(c: Params)
    requires c.maxOp > 0 && c.logSize == 3 * c.maxOp
    ensures Legal(c, Init(3), [Begin(0), Begin(1), Begin(2)])
    ensures Exec(c, Init(3), [Begin(0), Begin(1), Begin(2)]) == Filled(0)
  {
    var s1 := Step(c, Init(3), Begin(0));
    var s2 := Step(c, s1, Begin(1));
    var s3 := Step(c, s2, Begin(2));
    ExecSnoc(c, Init(3), [], Begin(0));
    ExecSnoc(c, Init(3), [Begin(0)], Begin(1));
    ExecSnoc(c, Init(3), [Begin(0), Begin(1)], Begin(2));
    assert [] + [Begin(0)] == [Begin(0)];
    assert [Begin(0)] + [Begin(1)] == [Begin(0), Begin(1)];
    assert [Begin(0), Begin(1)] + [Begin(2)] == [Begin(0), Begin(1), Begin(2)];
    assert s3.proc == [Inside({}, None), Inside({}, None), Inside({}, None)];
    assert Third(0, 0) == Third(0, 1) == Third(0, 2) == {} == Span(0, 0);
  }

  /** The operations whose turn is next have room for blocks m and m + 1. */
  lemma FilledAllows(c: Params, m: nat, b: nat)
    requires m <= b < 3 * c.maxOp && b <= m + 1
    ensures WithinAllowance(c, Filled(m), Turn(b), b) && b !in Filled(m).proc[Turn(b)].wrote
  {
    hide Third, Turn;
    FilledAt(m, Turn(b));
    TurnsAre(m, Turn(b));
    CardAdd(Third(m, Turn(b)), b);
    TurnRoom(m, b, c.maxOp);
  }

  lemma TurnRoom(m: nat, b: nat, maxOp: nat)
    requires m <= b < 3 * maxOp
    ensures (m + 2 - Turn(b)) / 3 < maxOp && Turn(b + 1) != Turn(b)
  {
  }

  lemma ThirdNext(m: nat, i: nat)
    ensures Third(m + 1, i) == if i == Turn(m) then Third(m, i) + {m} else Third(m, i)
  {
  }

  lemma FilledNext(m: nat)
    ensures var p, s := Turn(m), Filled(m);
      && |s.proc| == 3 && s.logged == Span(0, m) && s.outstanding == 3 && !s.committing
      && State(s.proc[p := Inside(Third(m, p) + {m}, None)], s.logged + {m}, 3, false) == Filled(m + 1)
  {
    hide Third, Turn, Turns;
    ThirdNext(m, 0);
    ThirdNext(m, 1);
    ThirdNext(m, 2);
    OneOfThree(Inside(Third(m, 0), None), Inside(Third(m, 1), None), Inside(Third(m, 2), None),
               Turn(m), Inside(Third(m, Turn(m)) + {m}, None));
    assert Span(0, m) + {m} == Span(0, m + 1);
  }

  lemma OneOfThree(x: Proc, y: Proc, z: Proc, i: nat, w: Proc)
    requires i < 3
    ensures [x, y, z][i := w] == [if i == 0 then w else x, if i == 1 then w else y, if i == 2 then w else z]
  {
  }

  lemma FilledStep(c: Params, m: nat)
    requires c.logSize == 3 * c.maxOp && m < c.logSize && m + 1 < c.size
    ensures Enabled(c, Filled(m), Guard(Turn(m), m))
    ensures Enabled(c, Step(c, Filled(m), Guard(Turn(m), m)), Append(Turn(m)))
    ensures Step(c, Step(c, Filled(m), Guard(Turn(m), m)), Append(Turn(m))) == Filled(m + 1)
  {
    hide Third, Span, Turn, Turns, Filled;
    FilledAllows(c, m, m);
    FilledNext(m);
    FilledAt(m, Turn(m));
    var proc, p := Filled(m).proc, Turn(m);
    assert proc[p := proc[p].(next := Passed(m))][p := Inside(Third(m, p) + {m}, None)]
        == proc[p := Inside(Third(m, p) + {m}, None)];
  }

  lemma {:induction false} FillingRuns(c: Params, m: nat)
    requires c.maxOp > 0 && c.logSize == 3 * c.maxOp && m <= c.logSize && (m == 0 || m < c.size)
    ensures Legal(c, Init(3), Filling(m)) && Exec(c, Init(3), Filling(m)) == Filled(m)
  {
    if m == 0 {
      ThreeBegin(c);
    } else {
      var p := Turn(m - 1);
      FillingRuns(c, m - 1);
      FilledStep(c, m - 1);
      ExecSnoc(c, Init(3), Filling(m - 1), Guard(p, m - 1));
      ExecSnoc(c, Init(3), Filling(m - 1) + [Guard(p, m - 1)], Append(p));
    }
  }

  lemma SmallLogStopsNewWrite(c: Params)
    requires c.maxOp > 0 && c.logSize == 3 * c.maxOp && c.size <= c.logSize
    ensures !NewWritesSafe(c)
  {
    var m := if c.size == 0 then 0 else c.size - 1;
    FillingRuns(c, m);
    FilledAllows(c, m, m);
    assert Legal(c, Init(3), Filling(m)) && WithinAllowance(c, Exec(c, Init(3), Filling(m)), Turn(m), m);
  }

  /**
    The reservation keeps log_write from panicking on new blocks exactly when the
    on-disk log has a slot for each of the LOGSIZE blocks besides its header.
    mkfs makes nlog == LOGSIZE, one block too few.
   */
  lemma NewWritesSafeIff(c: Params)
    requires c.maxOp > 0 && c.logSize == 3 * c.maxOp
    ensures NewWritesSafe(c) <==> c.size > c.logSize
  {
    if c.size > c.logSize {
      forall k: nat, es: seq<Event>, p: nat, b: nat |
        Legal(c, Init(k), es) && WithinAllowance(c, Exec(c, Init(k), es), p, b)
        && b !in Exec(c, Init(k), es).proc[p].wrote
        ensures !WritePanics(c, Exec(c, Init(k), es))
      {
        RoomForNewWrite(c, k, es, p, b);
      }
    } else {
      SmallLogStopsNewWrite(c);
    }
  }

  /** No operation is stopped when it logs a block again. */
  ghost predicate RewritesSafe(c: Params) {
    forall k: nat, es: seq<Event>, p: nat, b: nat ::
      Legal(c, Init(k), es) && WithinAllowance(c, Exec(c, Init(k), es), p, b)
      && b in Exec(c, Init(k), es).proc[p].wrote
      ==> !WritePanics(c, Exec(c, Init(k), es))
  }

  /** A run that stops an operation on a block it already logged: the guard comes before absorption. */
  lemma FullLogStopsRewrite(c: Params)
    requires c.maxOp > 0 && c.logSize == 3 * c.maxOp && c.size > 1
    ensures !RewritesSafe(c)
  {
    var m := if c.size > c.logSize then c.logSize else c.size - 1;
    FillingRuns(c, m);
    var s := Filled(m);
    assert 0 in s.proc[0].wrote;
    TurnsAre(m, 0);
    CardAdd(s.proc[0].wrote, 0);
    assert WithinAllowance(c, Exec(c, Init(3), Filling(m)), 0, 0);
  }

  /** With no slot at all, nothing is ever logged. */
  lemma {:induction false} NothingLogged(c: Params, s: State, es: seq<Event>)
    requires c.size <= 1 && Legal(c, s, es) && s.logged == {}
    requires forall i :: 0 <= i < |s.proc| && s.proc[i].Inside? ==> s.proc[i] == Inside({}, None)
    ensures var t := Exec(c, s, es);
      t.logged == {} && forall i :: 0 <= i < |t.proc| && t.proc[i].Inside? ==> t.proc[i] == Inside({}, None)
    decreases |es|
  {
    if es != [] { NothingLogged(c, Step(c, s, es[0]), es[1..]); }
  }

  /** Logging a block again is safe for no size of the log area that takes any block. */
  lemma RewritesSafeIff(c: Params)
    requires c.maxOp > 0 && c.logSize == 3 * c.maxOp
    ensures RewritesSafe(c) <==> c.size <= 1
  {
    if c.size <= 1 {
      forall k: nat, es: seq<Event>, p: nat, b: nat |
        Legal(c, Init(k), es) && WithinAllowance(c, Exec(c, Init(k), es), p, b)
        ensures b !in Exec(c, Init(k), es).proc[p].wrote
      {
        NothingLogged(c, Init(k), es);
      }
    } else {
      FullLogStopsRewrite(c);
    }
  }

  // ---- does every logged block have a slot? ----

  /** The logged blocks never outnumber the slots behind the header. */
  ghost predicate SlotsSuffice(c: Params) {
    forall k: nat, es: seq<Event> :: Legal(c, Init(k), es) ==> |Exec(c, Init(k), es).logged| <= c.size - 1
  }

  /** Two operations pass the guard at the last free slot, and both append. */
  function Overfilling(c: Params): seq<Event>
    requires c.size >= 2
  {
    var m := c.size - 2;
    Filling(m) + [Guard(Turn(m), m)] + [Guard(Turn(m + 1), m + 1)] + [Append(Turn(m))] + [Append(Turn(m + 1))]
  }

  lemma OverfillingRuns(c: Params)
    requires c.maxOp > 0 && c.logSize == 3 * c.maxOp && 2 <= c.size <= c.logSize
    ensures Legal(c, Init(3), Overfilling(c)) && |Exec(c, Init(3), Overfilling(c)).logged| == c.size
  {
    hide Filling, Filled, Turn, Step, Enabled;
    var m := c.size - 2;
    var p, q, es := Turn(m), Turn(m + 1), Filling(m);
    FillingRuns(c, m);
    BothPass(c, m);
    var t := Step(c, Step(c, Filled(m), Guard(p, m)), Guard(q, m + 1));
    BothAppend(c, t, m, p, q);
    ExecSnoc(c, Init(3), es, Guard(p, m));
    ExecSnoc(c, Init(3), es + [Guard(p, m)], Guard(q, m + 1));
    ExecSnoc(c, Init(3), es + [Guard(p, m)] + [Guard(q, m + 1)], Append(p));
    ExecSnoc(c, Init(3), es + [Guard(p, m)] + [Guard(q, m + 1)] + [Append(p)], Append(q));
  }

  lemma BothPass(c: Params, m: nat)
    requires c.maxOp > 0 && c.logSize == 3 * c.maxOp && m + 2 == c.size <= c.logSize
    ensures Enabled(c, Filled(m), Guard(Turn(m), m))
    ensures var s := Step(c, Filled(m), Guard(Turn(m), m));
      && Enabled(c, s, Guard(Turn(m + 1), m + 1))
      && var t := Step(c, s, Guard(Turn(m + 1), m + 1));
      && |t.proc| == 3 && Turn(m) != Turn(m + 1) && t.logged == Span(0, m)
      && t.proc[Turn(m)].Inside? && t.proc[Turn(m)].next == Passed(m)
      && t.proc[Turn(m + 1)].Inside? && t.proc[Turn(m + 1)].next == Passed(m + 1)
  {
    hide Third, Span, Turn, Turns, Filled;
    FilledNext(m);
    FilledAllows(c, m, m);
    FilledAllows(c, m, m + 1);
    TurnRoom(m, m, c.maxOp);
    FilledAt(m, Turn(m));
    FilledAt(m, Turn(m + 1));
  }

  lemma BothAppend(c: Params, t: State, m: nat, p: nat, q: nat)
    requires p < |t.proc| && q < |t.proc| && p != q && t.logged == Span(0, m)
    requires t.proc[p].Inside? && t.proc[p].next == Passed(m) && t.proc[q].Inside? && t.proc[q].next == Passed(m + 1)
    ensures Enabled(c, t, Append(p)) && Enabled(c, Step(c, t, Append(p)), Append(q))
    ensures |Step(c, Step(c, t, Append(p)), Append(q)).logged| == m + 2
  {
    assert Span(0, m) + {m} + {m + 1} == Span(0, m + 2);
  }

  /**
    Every logged block has a slot, in every run, exactly if the area has a slot
    for each of LOGSIZE blocks (or none at all).  mkfs makes nlog == LOGSIZE: with
    it two log_writes that pass the guard together log one block too many.
   */
  lemma SlotsSufficeIff(c: Params)
    requires c.maxOp > 0 && c.logSize == 3 * c.maxOp && c.size >= 1
    ensures SlotsSuffice(c) <==> c.size > c.logSize || c.size == 1
  {
    if c.size > c.logSize || c.size == 1 {
      forall k: nat, es: seq<Event> | Legal(c, Init(k), es) ensures |Exec(c, Init(k), es).logged| <= c.size - 1 {
        AdmissionHolds(c, k, es);
        if c.size == 1 { NothingLogged(c, Init(k), es); }
      }
    } else {
      OverfillingRuns(c);
    }
  }
}
