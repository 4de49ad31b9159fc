/** Any number of readers and writers on one pipe, in any order of sections, with kills. */
module PipeRuns {
  import opened Pipes

  datatype Task = Idle | Writing(rest: seq<Byte>) | WriteSleep(rest: seq<Byte>) | Reading(n: nat) | ReadSleep(n: nat)

  /** returned: all that the reads have returned, in order. */
  datatype Sys = Sys(pipe: State, task: seq<Task>, killed: seq<bool>, returned: seq<Byte>)

  datatype Event =
    | CallWrite(p: nat, data: seq<Byte>)
    | CallRead(p: nat, n: nat)
    | Run(p: nat)                  // one section of the call p is in
    | CloseOf(writable: bool)      // the last descriptor of that end is closed
    | Kill(p: nat)

  /** An end stays open while a process is in a call on it. */
  ghost predicate Enabled(s: Sys, e: Event) {
    && |s.killed| == |s.task| && (!e.CloseOf? ==> e.p < |s.task|)
    && match e
       case CallWrite(p, data) => s.task[p] == Idle && s.pipe.writeopen
       case CallRead(p, n) => s.task[p] == Idle && s.pipe.readopen
       case Run(p) => s.task[p].Writing? || s.task[p].Reading?
       case CloseOf(true) => forall p: nat :: p < |s.task| ==> !s.task[p].Writing? && !s.task[p].WriteSleep?
       case CloseOf(false) => forall p: nat :: p < |s.task| ==> !s.task[p].Reading? && !s.task[p].ReadSleep?
       case Kill(p) => true
  }

  /** wakeup(&nread) and wakeup(&nwrite). */
  function WakeReaders(ts: seq<Task>): (us: seq<Task>)
    ensures |us| == |ts|
    ensures forall p: nat :: p < |ts| ==> us[p] == if ts[p].ReadSleep? then Reading(ts[p].n) else ts[p]
  {
    seq(|ts|, p requires 0 <= p < |ts| => if ts[p].ReadSleep? then Reading(ts[p].n) else ts[p])
  }

  function WakeWriters(ts: seq<Task>): (us: seq<Task>)
    ensures |us| == |ts|
    ensures forall p: nat :: p < |ts| ==> us[p] == if ts[p].WriteSleep? then Writing(ts[p].rest) else ts[p]
  {
    seq(|ts|, p requires 0 <= p < |ts| => if ts[p].WriteSleep? then Writing(ts[p].rest) else ts[p])
  }

  ghost function Step(s: Sys, e: Event): Sys
    requires Enabled(s, e) && Fits(s.pipe)
  {
    match e
    case CallWrite(p, data) => s.(task := s.task[p := Writing(data)])
    case CallRead(p, n) => s.(task := s.task[p := Reading(n)])
    case CloseOf(w) =>
      s.(pipe := CloseEnd(s.pipe, w), task := if w then WakeReaders(s.task) else WakeWriters(s.task))
    case Kill(p) =>
      s.(killed := s.killed[p := true],
         task := s.task[p := match s.task[p]
                             case WriteSleep(rest) => Writing(rest)
                             case ReadSleep(n) => Reading(n)
                             case t => t])
    case Run(p) =>
      if s.task[p].Writing? then
        var (pipe, r) := WriteSection(s.pipe, s.task[p].rest, s.killed[p]);
        match r
        case Written => s.(pipe := pipe, task := WakeReaders(s.task[p := Idle]))
        case WriteWaits(k) =>
          s.(pipe := pipe, task := WakeReaders(s.task[p := WriteSleep(if k <= |s.task[p].rest|
            then s.task[p].rest[k..] else [])]))
        case WriteFailed => s.(pipe := pipe, task := s.task[p := Idle])
      else
        var (pipe, r) := ReadSection(s.pipe, s.task[p].n, s.killed[p]);
        match r
        case Got(bytes) => s.(pipe := pipe, task := WakeWriters(s.task[p := Idle]), returned := s.returned + bytes)
        case ReadWaits => s.(task := s.task[p := ReadSleep(s.task[p].n)])
        case ReadFailed => s.(task := s.task[p := Idle])
  }

  ghost predicate Inv(s: Sys) {
    && Fits(s.pipe) && |s.killed| == |s.task| && s.returned == s.pipe.stored[..s.pipe.taken]
    && (forall p: nat :: p < |s.task| ==> TaskOk(s, p))
  }

  ghost predicate TaskOk(s: Sys, p: nat)
    requires p < |s.task|
  {
    && (s.task[p].Reading? || s.task[p].ReadSleep? ==> s.pipe.readopen)
    && (s.task[p].Writing? || s.task[p].WriteSleep? ==> s.pipe.writeopen)
  }

  lemma StepInv(s: Sys, e: Event)
    requires Inv(s) && Enabled(s, e)
    ensures Inv(Step(s, e))
    ensures s.pipe.stored <= Step(s, e).pipe.stored && s.returned <= Step(s, e).returned
  {
    var t := Step(s, e);
    assert e.Run? ==> TaskOk(s, e.p);
    forall p: nat | p < |t.task| ensures TaskOk(t, p) { assert TaskOk(s, p); }
  }

  /** For n > 0 a read returns no bytes exactly when the write end is closed and every stored byte has been read. */
  lemma EndOfFile(s: State, n: nat, killed: bool)
    requires Fits(s) && n > 0
    ensures ReadSection(s, n, killed).1 == Got([]) <==> !s.writeopen && s.taken == |s.stored|
  {
    var k := if n < |s.stored| - s.taken then n else |s.stored| - s.taken;
    assert |s.stored[s.taken..s.taken+k]| == k;
  }

  // ---- runs ----

  ghost predicate Legal(s: Sys, es: seq<Event>)
    requires Inv(s)
    decreases |es|
  {
    es == [] || (Enabled(s, es[0]) && (StepInv(s, es[0]); Legal(Step(s, es[0]), es[1..])))
  }

  ghost function Exec(s: Sys, es: seq<Event>): (t: Sys)
    requires Inv(s) && Legal(s, es)
    ensures Inv(t)
    decreases |es|
  {
    if es == [] then s else StepInv(s, es[0]); Exec(Step(s, es[0]), es[1..])
  }

  function Start(n: nat): Sys {
    Sys(State([], 0, true, true), seq(n, p => Idle), seq(n, p => false), [])
  }

  ghost predicate History(n: nat, es: seq<Event>) {
    Legal(Start(n), es)
  }

  /** What has been read is a prefix of what has been stored, and at most PIPESIZE bytes are between the two. */
  lemma PipeFifo(n: nat, es: seq<Event>)
    requires History(n, es)
    ensures var s := Exec(Start(n), es);
      s.returned <= s.pipe.stored && |s.pipe.stored| <= |s.returned| + PIPESIZE
  {
  }

  // ---- who may be left asleep ----

  /** No reader sleeps on a pipe it could read from or see the end of, no writer on one it could write to. */
  ghost predicate NoneStranded(s: Sys) {
    forall p: nat :: p < |s.task| ==>
      && (s.task[p].ReadSleep? ==> s.pipe.taken == |s.pipe.stored| && s.pipe.writeopen)
      && (s.task[p].WriteSleep? ==> Room(s.pipe) == 0 && s.pipe.readopen)
  }

  /** A killed writer that fills the pipe and gives up does not wake the readers. */
  ghost predicate GivesUp(s: Sys, e: Event) {
    && e.Run? && e.p < |s.task| && e.p < |s.killed| && s.task[e.p].Writing? && s.killed[e.p]
    && |s.task[e.p].rest| > Room(s.pipe) > 0
  }

  ghost predicate ReaderAsleep(s: Sys) {
    exists q: nat :: q < |s.task| && s.task[q].ReadSleep?
  }

  /** A step strands someone exactly when a killed writer stores bytes and gives up while a reader sleeps. */
  lemma StrandedIff(s: Sys, e: Event)
    requires Inv(s) && NoneStranded(s) && Enabled(s, e)
    ensures NoneStranded(Step(s, e)) <==> !(GivesUp(s, e) && ReaderAsleep(s))
  {
    var t := Step(s, e);
    assert e.Run? ==> TaskOk(s, e.p);
    if GivesUp(s, e) && ReaderAsleep(s) {
      var q: nat :| q < |s.task| && s.task[q].ReadSleep?;
      assert TaskOk(s, q);
      assert t.task[q].ReadSleep? && t.pipe.taken < |t.pipe.stored|;
    } else {
      forall p: nat | p < |t.task|
        ensures t.task[p].ReadSleep? ==> t.pipe.taken == |t.pipe.stored| && t.pipe.writeopen
        ensures t.task[p].WriteSleep? ==> Room(t.pipe) == 0 && t.pipe.readopen
      {
        assert TaskOk(s, p);
        assert s.task[p].ReadSleep? ==> ReaderAsleep(s);
      }
    }
  }

  ghost predicate NobodyGivesUp(s: Sys, es: seq<Event>)
    requires Inv(s) && Legal(s, es)
    decreases |es|
  {
    es == [] || (!GivesUp(s, es[0]) && (StepInv(s, es[0]); NobodyGivesUp(Step(s, es[0]), es[1..])))
  }

  lemma {:induction false} RunStrandsNone(s: Sys, es: seq<Event>)
    requires Inv(s) && Legal(s, es) && NoneStranded(s) && NobodyGivesUp(s, es)
    ensures NoneStranded(Exec(s, es))
    decreases |es|
  {
    if es != [] {
      StepInv(s, es[0]);
      StrandedIff(s, es[0]);
      RunStrandsNone(Step(s, es[0]), es[1..]);
    }
  }

  /** In a run in which no killed writer gives up on a part-filled pipe, nobody is ever left asleep. */
  lemma NobodyLeftAsleep(n: nat, es: seq<Event>)
    requires History(n, es) && NobodyGivesUp(Start(n), es)
    ensures NoneStranded(Exec(Start(n), es))
  {
    RunStrandsNone(Start(n), es);
  }

  /** With a kill it can happen: a reader sleeps, a writer is killed, fills the pipe and returns. */
  lemma KilledWriterStrandsReader(data: seq<Byte>)
    requires |data| == PIPESIZE + 1
    ensures var es := [CallRead(0, 1), Run(0), CallWrite(1, data), Kill(1), Run(1)];
      && History(2, es)
      && var s := Exec(Start(2), es);
         |s.task| == 2 && s.task[0] == ReadSleep(1) && s.pipe.stored == data[..PIPESIZE] && s.pipe.taken == 0
  {
    var s0 := Start(2);
    var s1 := s0.(task := [Reading(1), Idle]);
    assert s1.task == s0.task[0 := Reading(1)] && s1 == Step(s0, CallRead(0, 1));
    var s2 := s1.(task := [ReadSleep(1), Idle]);
    assert s2 == Step(s1, Run(0));
    var s3 := s2.(task := [ReadSleep(1), Writing(data)]);
    assert s3 == Step(s2, CallWrite(1, data));
    var s4 := s3.(killed := [false, true]);
    assert s4 == Step(s3, Kill(1));
    var s5 := Step(s4, Run(1));
    var e1, e2, e3, e4 := [Run(1)], [Kill(1), Run(1)], [CallWrite(1, data), Kill(1), Run(1)],
      [Run(0), CallWrite(1, data), Kill(1), Run(1)];
    var e5 := [CallRead(0, 1)] + e4;
    assert e5[1..] == e4 && e4[1..] == e3 && e3[1..] == e2 && e2[1..] == e1 && e1[1..] == [];
    assert Legal(s4, e1) && Exec(s4, e1) == s5;
    assert Legal(s3, e2) && Exec(s3, e2) == s5;
    assert Legal(s2, e3) && Exec(s2, e3) == s5;
    assert Legal(s1, e4) && Exec(s1, e4) == s5;
    assert Legal(s0, e5) && Exec(s0, e5) == s5;
  }

  /** Only a reader's own step returns bytes: at most as many as it asked for, and its call is over. */
  lemma ReaderStep(s: Sys, e: Event)
    requires Inv(s) && Enabled(s, e) && Step(s, e).returned != s.returned
    ensures e.Run? && s.task[e.p].Reading? && |Step(s, e).returned| <= |s.returned| + s.task[e.p].n
    ensures |Step(s, e).task| == |s.task| && Step(s, e).task[e.p] == Idle
  {
    hide WriteSection, ReadSection, Room;
    if e.Run? && s.task[e.p].Reading? { ReadTakes(s.pipe, s.task[e.p].n, s.killed[e.p]); }
  }

  // ---- whose bytes are stored ----

  function Rest(t: Task): seq<Byte> {
    if t.Writing? || t.WriteSleep? then t.rest else []
  }

  /** What a call of write hands over. */
  function Given(e: Event, p: nat): seq<Byte> {
    if e.CallWrite? && e.p == p then e.data else []
  }

  /** What one step of p puts into the pipe. */
  ghost function Put(s: Sys, e: Event, p: nat): seq<Byte>
    requires Inv(s) && Enabled(s, e)
  {
    StepInv(s, e);
    if e == Run(p) then Step(s, e).pipe.stored[|s.pipe.stored|..] else []
  }

  /** A writer that is killed, or whose readers are gone, may end its call early. */
  ghost predicate MayFail(s: Sys, p: nat)
    requires Inv(s) && p < |s.task|
  {
    s.killed[p] || !s.pipe.readopen
  }

  lemma FlagsStep(s: Sys, e: Event, p: nat)
    requires Inv(s) && Enabled(s, e) && p < |s.task|
    ensures var t := Step(s, e);
      && |t.task| == |s.task| && Inv(t) && (t.killed[p] <==> s.killed[p] || e == Kill(p))
      && (t.pipe.readopen <==> s.pipe.readopen && e != CloseOf(false))
      && (t.pipe.writeopen <==> s.pipe.writeopen && e != CloseOf(true))
  {
    StepInv(s, e);
  }

  lemma OthersStep(s: Sys, e: Event, p: nat)
    requires Inv(s) && Enabled(s, e) && p < |s.task| && e != Run(p)
    ensures |Step(s, e).task| == |s.task| && Rest(Step(s, e).task[p]) == Rest(s.task[p]) + Given(e, p)
  {
    hide Room, WriteSection, ReadSection;
    assert Rest(s.task[p]) + [] == Rest(s.task[p]);
    assert e.CallWrite? ==> [] + e.data == e.data;
  }

  lemma OwnStep(s: Sys, p: nat)
    requires Inv(s) && Enabled(s, Run(p))
    ensures var t := Step(s, Run(p));
      && |t.task| == |s.task| && s.pipe.stored <= t.pipe.stored
      && var put := t.pipe.stored[|s.pipe.stored|..];
      && put <= Rest(s.task[p])
      && (put + Rest(t.task[p]) == Rest(s.task[p]) || (MayFail(s, p) && Rest(t.task[p]) == []))
  {
    hide WriteSection, ReadSection;
    if s.task[p].Writing? {
      var rest := s.task[p].rest;
      WriteStores(s.pipe, rest, s.killed[p]);
      var (pipe, r) := WriteSection(s.pipe, rest, s.killed[p]);
      assert r.WriteWaits? ==> pipe.stored[|s.pipe.stored|..] + rest[r.stored..] == rest by {
        if r.WriteWaits? { assert pipe.stored[|s.pipe.stored|..] == rest[..r.stored]; }
      }
      assert r.Written? ==> pipe.stored[|s.pipe.stored|..] + [] == rest;
    } else {
      ReadTakes(s.pipe, s.task[p].n, s.killed[p]);
    }
  }

  lemma WriterStep(s: Sys, e: Event, p: nat)
    requires Inv(s) && Enabled(s, e) && p < |s.task|
    ensures var t := Step(s, e);
      && |t.task| == |s.task| && Inv(t) && (MayFail(s, p) ==> MayFail(t, p))
      && Put(s, e, p) <= Rest(s.task[p])
      && (Put(s, e, p) + Rest(t.task[p]) == Rest(s.task[p]) + Given(e, p) || (MayFail(s, p) && Rest(t.task[p]) == []))
  {
    hide Step, Rest;
    FlagsStep(s, e, p);
    if e == Run(p) {
      OwnStep(s, p);
      assert Rest(s.task[p]) + Given(e, p) == Rest(s.task[p]);
    } else {
      OthersStep(s, e, p);
      assert [] + Rest(Step(s, e).task[p]) == Rest(Step(s, e).task[p]);
    }
  }

  /** What p has put into the pipe in the course of a run. */
  ghost function Sent(s: Sys, es: seq<Event>, p: nat): seq<Byte>
    requires Inv(s) && Legal(s, es)
    decreases |es|
  {
    if es == [] then [] else StepInv(s, es[0]); Put(s, es[0], p) + Sent(Step(s, es[0]), es[1..], p)
  }

  /** What p has handed to write in the course of a run. */
  function Passed(es: seq<Event>, p: nat): seq<Byte>
    decreases |es|
  {
    if es == [] then [] else Given(es[0], p) + Passed(es[1..], p)
  }

  /** Until it is killed or the read end is closed, a writer has stored what it handed over, but for what is left. */
  lemma {:induction false} SentIsPassed(s: Sys, es: seq<Event>, p: nat)
    requires Inv(s) && Legal(s, es) && p < |s.task| && |Exec(s, es).task| == |s.task| && !MayFail(Exec(s, es), p)
    ensures !MayFail(s, p) && Sent(s, es, p) + Rest(Exec(s, es).task[p]) == Rest(s.task[p]) + Passed(es, p)
    decreases |es|
  {
    hide Put, Given, Rest, MayFail, Enabled;
    if es != [] {
      var t := Step(s, es[0]);
      WriterStep(s, es[0], p);
      SentIsPassed(t, es[1..], p);
      var left := Rest(Exec(s, es).task[p]);
      calc {
        (Put(s, es[0], p) + Sent(t, es[1..], p)) + left;
        Put(s, es[0], p) + (Sent(t, es[1..], p) + left);
        Put(s, es[0], p) + (Rest(t.task[p]) + Passed(es[1..], p));
        (Put(s, es[0], p) + Rest(t.task[p])) + Passed(es[1..], p);
        (Rest(s.task[p]) + Given(es[0], p)) + Passed(es[1..], p);
        Rest(s.task[p]) + (Given(es[0], p) + Passed(es[1..], p));
      }
    } else {
      assert [] + Rest(s.task[p]) == Rest(s.task[p]) + [];
    }
  }

  lemma {:induction false} TasksStay(s: Sys, es: seq<Event>)
    requires Inv(s) && Legal(s, es)
    ensures |Exec(s, es).task| == |s.task|
    decreases |es|
  {
    if es != [] {
      StepInv(s, es[0]);
      TasksStay(Step(s, es[0]), es[1..]);
    }
  }

  ghost predicate CallsWrite(e: Event, p: nat) {
    e.CallWrite? && e.p == p
  }

  /**
    One call of write, from any state, up to p's next call: what it has stored is
    the front of what it was given, the rest is still to come while the call
    lasts, and a call that ends short was by a killed process or one with no reader.
   */
  lemma {:induction false} OneCall(s: Sys, es: seq<Event>, p: nat)
    requires Inv(s) && Legal(s, es) && p < |s.task|
    requires forall i :: 0 <= i < |es| ==> !CallsWrite(es[i], p)
    ensures var t := Exec(s, es);
      && |t.task| == |s.task| && Sent(s, es, p) <= Rest(s.task[p]) && (MayFail(s, p) ==> MayFail(t, p))
      && (Sent(s, es, p) + Rest(t.task[p]) == Rest(s.task[p]) || (MayFail(t, p) && Rest(t.task[p]) == []))
    decreases |es|
  {
    hide Put, Rest, MayFail, Enabled;
    if es != [] {
      var u := Step(s, es[0]);
      WriterStep(s, es[0], p);
      assert !CallsWrite(es[0], p);
      OneCall(u, es[1..], p);
      var put, more, left := Put(s, es[0], p), Sent(u, es[1..], p), Rest(Exec(s, es).task[p]);
      assert (put + more) + left == put + (more + left);
      assert put + Rest(u.task[p]) == Rest(s.task[p]) + [] ==> put + Rest(u.task[p]) == Rest(s.task[p]);
      assert Rest(u.task[p]) == [] ==> put + more == put;
    } else {
      assert [] + Rest(s.task[p]) == Rest(s.task[p]);
    }
  }

  // ---- the pipe as a whole ----

  /** Who stored each byte that the run adds to the pipe. */
  ghost function Writers(s: Sys, es: seq<Event>): seq<nat>
    requires Inv(s) && Legal(s, es)
    decreases |es|
  {
    if es == [] then []
    else
      StepInv(s, es[0]);
      var t := Step(s, es[0]);
      seq(|t.pipe.stored| - |s.pipe.stored|, i => if es[0].Run? then es[0].p else 0) + Writers(t, es[1..])
  }

  /** The bytes of one writer among all bytes. */
  function Pick(bytes: seq<Byte>, who: seq<nat>, p: nat): seq<Byte>
    requires |bytes| == |who|
  {
    if bytes == [] then [] else (if who[0] == p then [bytes[0]] else []) + Pick(bytes[1..], who[1..], p)
  }

  lemma {:induction false} PickAdd(a: seq<Byte>, b: seq<Byte>, v: seq<nat>, w: seq<nat>, p: nat)
    requires |a| == |v| && |b| == |w|
    ensures Pick(a + b, v + w, p) == Pick(a, v, p) + Pick(b, w, p)
    decreases |a|
  {
    if a == [] {
      assert a + b == b && v + w == w;
    } else {
      var h := if v[0] == p then [a[0]] else [];
      assert Pick(a + b, v + w, p) == h + Pick(a[1..] + b, v[1..] + w, p) by {
        assert (a + b)[1..] == a[1..] + b && (v + w)[1..] == v[1..] + w;
      }
      assert Pick(a, v, p) == h + Pick(a[1..], v[1..], p);
      hide Pick;
      PickAdd(a[1..], b, v[1..], w, p);
      assert h + (Pick(a[1..], v[1..], p) + Pick(b, w, p)) == (h + Pick(a[1..], v[1..], p)) + Pick(b, w, p);
    }
  }

  lemma {:induction false} PickOne(a: seq<Byte>, v: seq<nat>, p: nat, q: nat)
    requires |a| == |v| && forall i :: 0 <= i < |v| ==> v[i] == q
    ensures Pick(a, v, p) == if q == p then a else []
    decreases |a|
  {
    if a != [] {
      PickOne(a[1..], v[1..], p, q);
      assert a == [a[0]] + a[1..];
    }
  }

  /** Only a writer's own step adds to the pipe. */
  lemma StepAdds(s: Sys, e: Event)
    requires Inv(s) && Enabled(s, e)
    ensures Inv(Step(s, e)) && Step(s, e).pipe.stored == s.pipe.stored + if e.Run? then Put(s, e, e.p) else []
  {
    StepInv(s, e);
  }

  /** The pipe's bytes are the writers' bytes, each writer's in its own order: nothing else, nothing twice. */
  lemma {:induction false} StoredIsMerged(s: Sys, es: seq<Event>, p: nat)
    requires Inv(s) && Legal(s, es)
    ensures var stored := Exec(s, es).pipe.stored;
      && s.pipe.stored <= stored && |Writers(s, es)| == |stored| - |s.pipe.stored|
      && Sent(s, es, p) == Pick(stored[|s.pipe.stored|..], Writers(s, es), p)
    decreases |es|
  {
    hide TaskOk, Enabled, Step, Pick, Put;
    if es == [] {
      assert s.pipe.stored[|s.pipe.stored|..] == [];
      PickOne([], [], p, p);
    } else {
      var t := Step(s, es[0]);
      StepAdds(s, es[0]);
      StoredIsMerged(t, es[1..], p);
      var stored := Exec(s, es).pipe.stored;
      var a, b := t.pipe.stored[|s.pipe.stored|..], stored[|t.pipe.stored|..];
      assert stored[|s.pipe.stored|..] == a + b;
      var q := if es[0].Run? then es[0].p else 0;
      var v := seq(|a|, i => q);
      assert Writers(s, es) == v + Writers(t, es[1..]);
      PickAdd(a, b, v, Writers(t, es[1..]), p);
      PickOne(a, v, p, q);
      PutIs(s, es[0], p);
    }
  }

  lemma PutIs(s: Sys, e: Event, p: nat)
    requires Inv(s) && Enabled(s, e)
    ensures Inv(Step(s, e)) && s.pipe.stored <= Step(s, e).pipe.stored
    ensures var a, q := Step(s, e).pipe.stored[|s.pipe.stored|..], if e.Run? then e.p else 0;
      Put(s, e, p) == if q == p then a else []
  {
    StepAdds(s, e);
  }

  /** The flags are what the run says: killed after a kill, an end open until it is closed. */
  lemma {:induction false} FlagsTold(s: Sys, es: seq<Event>, p: nat)
    requires Inv(s) && Legal(s, es) && p < |s.task|
    ensures var t := Exec(s, es);
      && |t.killed| == |s.task| && (t.killed[p] <==> s.killed[p] || Kill(p) in es)
      && (t.pipe.readopen <==> s.pipe.readopen && CloseOf(false) !in es)
      && (t.pipe.writeopen <==> s.pipe.writeopen && CloseOf(true) !in es)
    decreases |es|
  {
    hide Step;
    if es != [] {
      FlagsStep(s, es[0], p);
      FlagsTold(Step(s, es[0]), es[1..], p);
      assert es == [es[0]] + es[1..];
    }
  }

  /**
    What a writer hands over arrives: from the start on, if p is not killed and the
    read end is not closed, p's bytes in the pipe are what it handed to write, in
    order, but for what its unfinished call has left.
   */
  lemma WritesArrive(n: nat, es: seq<Event>, p: nat)
    requires History(n, es) && p < n && Kill(p) !in es && CloseOf(false) !in es
    ensures var s := Exec(Start(n), es);
      && |s.task| == n && |Writers(Start(n), es)| == |s.pipe.stored|
      && Pick(s.pipe.stored, Writers(Start(n), es), p) + Rest(s.task[p]) == Passed(es, p)
  {
    var s := Exec(Start(n), es);
    TasksStay(Start(n), es);
    FlagsTold(Start(n), es, p);
    SentIsPassed(Start(n), es, p);
    StoredIsMerged(Start(n), es, p);
    assert s.pipe.stored[0..] == s.pipe.stored;
    assert Rest(Start(n).task[p]) + Passed(es, p) == Passed(es, p);
  }

  lemma OnlyPuts(s: Sys, e: Event, p: nat)
    requires Inv(s) && Enabled(s, e) && (e.Run? && e.p != p ==> Put(s, e, e.p) == [])
    ensures Step(s, e).pipe.stored == s.pipe.stored + Put(s, e, p)
  {
    StepAdds(s, e);
  }

  lemma {:induction false} OneWriter(s: Sys, es: seq<Event>, p: nat)
    requires Inv(s) && Legal(s, es) && p < |s.task|
    requires forall q: nat :: q < |s.task| && q != p ==> Rest(s.task[q]) == []
    requires forall i :: 0 <= i < |es| && es[i].CallWrite? ==> es[i].p == p
    ensures Exec(s, es).pipe.stored == s.pipe.stored + Sent(s, es, p)
    decreases |es|
  {
    hide Rest, Put, MayFail, Step;
    if es != [] {
      var t := Step(s, es[0]);
      StepAdds(s, es[0]);
      forall q: nat | q < |s.task| ensures |t.task| == |s.task| && (q != p ==> Rest(t.task[q]) == [])
        ensures q != p ==> Put(s, es[0], q) == []
      {
        WriterStep(s, es[0], q);
      }
      assert t.pipe.stored == s.pipe.stored + Put(s, es[0], p) by { OnlyPuts(s, es[0], p); }
      OneWriter(t, es[1..], p);
      assert (s.pipe.stored + Put(s, es[0], p)) + Sent(t, es[1..], p)
          == s.pipe.stored + (Put(s, es[0], p) + Sent(t, es[1..], p));
    } else {
      assert s.pipe.stored + [] == s.pipe.stored;
    }
  }

  /** With one writer the readers get the front of what it wrote: end to end, told from the calls alone. */
  lemma EndToEnd(n: nat, es: seq<Event>, p: nat)
    requires History(n, es) && p < n && Kill(p) !in es && CloseOf(false) !in es
    requires forall i :: 0 <= i < |es| && es[i].CallWrite? ==> es[i].p == p
    ensures var s := Exec(Start(n), es);
      && |s.task| == n && s.returned <= Passed(es, p) && |Passed(es, p)| <= |s.returned| + PIPESIZE + |Rest(s.task[p])|
  {
    var s := Exec(Start(n), es);
    TasksStay(Start(n), es);
    FlagsTold(Start(n), es, p);
    SentIsPassed(Start(n), es, p);
    OneWriter(Start(n), es, p);
    assert Rest(Start(n).task[p]) + Passed(es, p) == Passed(es, p);
    assert [] + Sent(Start(n), es, p) == Sent(Start(n), es, p);
  }
}
