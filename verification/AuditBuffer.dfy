/** `AuditLogger`: a buffer, a flush timer and any number of flushes in flight.

    Between two awaits nothing else runs. A log pushes its event, waits for the external
    logger if there is one, then arms the timer and perhaps flushes; a flush takes the whole
    buffer, writes it event by event, and puts the whole batch back when one write fails. */
module AuditBuffer {
  import opened Wrappers

  /** Events are numbered in the order they are logged. */
  type Event = nat

  /** `flushTimer`: null, waiting to fire, or fired and never cleared. */
  datatype Timer = Off | Armed | Spent

  datatype Flight = Flight(batch: seq<Event>, written: nat)

  /** `returning` counts the logs that have pushed their event and still wait for the external
      logger; `accepted` is every write storage took, repeats included. */
  datatype State = State(maxBufferSize: nat, logged: nat, returning: nat, buffer: seq<Event>, timer: Timer, flights: seq<Flight>, accepted: seq<Event>)

  /** What storage does with one write: take it, or throw with or without having stored it. */
  datatype Answer = Accepts | Throws(stored: bool)

  datatype Step =
    | Log                          // push an event
    | Return(critical: bool)       // a log goes on after its external logger
    | Fire                         // the timer's callback
    | Flush                        // `flush` or `close` from outside
    | Write(flight: nat, answer: Answer)

  function StartFlush(s: State): State
  {
    if s.buffer == [] then s
    else s.(buffer := [], timer := Off, flights := s.flights + [Flight(s.buffer, 0)])
  }

  /** A log past its external logger sees to it that there is a timer, armed or not. */
  function Rearmed(s: State): State
    requires s.returning > 0
  {
    s.(returning := s.returning - 1, timer := if s.timer.Off? then Armed else s.timer)
  }

  function Landed(flights: seq<Flight>, i: nat): seq<Flight>
    requires i < |flights|
  {
    flights[..i] + flights[i + 1..]
  }

  function WriteOp(s: State, i: nat, answer: Answer): State
    requires i < |s.flights| && s.flights[i].written < |s.flights[i].batch|
  {
    var f := s.flights[i];
    var event := f.batch[f.written];
    match answer
    case Accepts =>
      s.(accepted := s.accepted + [event],
         flights := if f.written + 1 == |f.batch| then Landed(s.flights, i)
                    else s.flights[i := f.(written := f.written + 1)])
    case Throws(stored) =>
      s.(accepted := if stored then s.accepted + [event] else s.accepted,
         flights := Landed(s.flights, i), buffer := f.batch + s.buffer)
  }

  function Apply(s: State, step: Step): State
  {
    match step
    case Log => s.(logged := s.logged + 1, returning := s.returning + 1, buffer := s.buffer + [s.logged])
    case Return(critical) =>
      if s.returning == 0 then s
      else
        var t := Rearmed(s);
        if critical || |t.buffer| >= t.maxBufferSize then StartFlush(t) else t
    case Fire => if s.timer.Armed? then StartFlush(s.(timer := Spent)) else s
    case Flush => StartFlush(s)
    case Write(i, answer) =>
      if i < |s.flights| && s.flights[i].written < |s.flights[i].batch| then WriteOp(s, i, answer) else s
  }

  function Exec(s: State, steps: seq<Step>): State
    decreases |steps|
  {
    if steps == [] then s else Exec(Apply(s, steps[0]), steps[1..])
  }

  function Fresh(maxBufferSize: nat): State { State(maxBufferSize, 0, 0, [], Off, [], []) }

  // --- the logger ------------------------------------------------------------------------------

  /** A flush with nothing else running: take the buffer, then write until a write throws. */
  function FlushAlone(s: State, answers: seq<Answer>, n: nat): State
    requires n <= |answers|
  {
    if n == 0 then StartFlush(s) else Apply(FlushAlone(s, answers, n - 1), Write(0, answers[n - 1]))
  }

  /** The state after `n` writes that storage took. */
  function Writing(s: State, n: nat): State
    requires s.flights == [] && n <= |s.buffer|
  {
    if s.buffer == [] then s
    else s.(buffer := [], timer := Off, flights := if n < |s.buffer| then [Flight(s.buffer, n)] else [],
            accepted := s.accepted + s.buffer[..n])
  }

  lemma WriteGoesOn(s: State, n: nat)
    requires s.flights == [] && n < |s.buffer|
    ensures Apply(Writing(s, n), Write(0, Accepts)) == Writing(s, n + 1)
  {
    var t := Writing(s, n);
    assert s.buffer[..n + 1] == s.buffer[..n] + [s.buffer[n]];
    assert t.flights[0 := Flight(s.buffer, n + 1)] == [Flight(s.buffer, n + 1)] && Landed(t.flights, 0) == [];
    assert t.accepted + [s.buffer[n]] == s.accepted + s.buffer[..n + 1];
  }

  lemma {:induction false} FlushAloneWrites(s: State, answers: seq<Answer>, n: nat)
    requires s.flights == [] && |answers| == |s.buffer| && n <= |answers|
    requires forall i :: 0 <= i < n ==> answers[i].Accepts?
    ensures FlushAlone(s, answers, n) == Writing(s, n)
  {
    if n > 0 {
      FlushAloneWrites(s, answers, n - 1);
      WriteGoesOn(s, n - 1);
    }
  }

  class AuditLogger {
    var s: State

    /** A size of zero counts as none given. */
    constructor (maxBufferSize: nat)
      ensures s == Fresh(if maxBufferSize == 0 then 100 else maxBufferSize)
    {
      s := Fresh(if maxBufferSize == 0 then 100 else maxBufferSize);
    }

    /** `log` up to its external logger. */
    method Push() returns (e: Event)
      modifies this
      ensures s == Apply(old(s), Log) && e == old(s.logged)
    {
      e := s.logged;
      s := s.(logged := e + 1, returning := s.returning + 1, buffer := s.buffer + [e]);
    }

    /** `flush` up to its first write. */
    method Take() returns (batch: seq<Event>)
      modifies this
      ensures s == StartFlush(old(s)) && batch == old(s.buffer)
    {
      batch := s.buffer;
      if batch != [] {
        s := s.(buffer := [], timer := Off);
        s := s.(flights := s.flights + [Flight(batch, 0)]);
      }
    }

    /** `log` after its external logger. */
    method Return(critical: bool)
      requires s.returning > 0
      modifies this
      ensures s == Apply(old(s), Step.Return(critical))
    {
      s := s.(returning := s.returning - 1);
      if s.timer.Off? { s := s.(timer := Armed); }
      if critical || |s.buffer| >= s.maxBufferSize { var _ := Take(); }
    }

    /** `flush` with nothing else running; `answers` are storage's, one per event. */
    method Flush(answers: seq<Answer>) returns (done: nat)
      requires s.flights == [] && |answers| == |s.buffer|
      modifies this
      ensures done <= |answers| && s == FlushAlone(old(s), answers, done)
      ensures forall i :: 0 <= i < done - 1 ==> answers[i].Accepts?
      ensures done < |answers| ==> done > 0 && answers[done - 1].Throws?
      ensures var failed := done > 0 && answers[done - 1].Throws?;
        && s.flights == [] && s.buffer == (if failed then old(s.buffer) else [])
        && s.accepted == old(s.accepted) + old(s.buffer)[..if failed && !answers[done - 1].stored then done - 1 else done]
    {
      ghost var before := s;
      var batch := Take();
      done := 0;
      while done < |batch|
        invariant done <= |batch| == |answers| && batch == before.buffer
        invariant s == Writing(before, done)
        invariant forall i :: 0 <= i < done ==> answers[i].Accepts?
      {
        FlushAloneWrites(before, answers, done);
        WriteGoesOn(before, done);
        if answers[done].Throws? {
          assert batch[..done + 1] == batch[..done] + [batch[done]];
          s := s.(accepted := if answers[done].stored then s.accepted + [batch[done]] else s.accepted,
                  flights := Landed(s.flights, 0), buffer := batch + s.buffer);
          return done + 1;
        }
        s := s.(accepted := s.accepted + [batch[done]],
                flights := if done + 1 == |batch| then Landed(s.flights, 0) else s.flights[0 := Flight(batch, done + 1)]);
        done := done + 1;
      }
      FlushAloneWrites(before, answers, done);
    }
  }

  // --- conservation ------------------------------------------------------------------------

  /** What a flight has still to write. */
  function Rest(f: Flight): seq<Event> { if f.written <= |f.batch| then f.batch[f.written..] else [] }

  function Times(events: seq<Event>, e: Event): (n: nat)
    ensures n > 0 <==> e in events
  {
    if events == [] then 0 else (if events[0] == e then 1 else 0) + Times(events[1..], e)
  }

  function Left(f: Flight, e: Event): nat { Times(Rest(f), e) }

  /** What the first `n` flights have still to write. */
  function Rests(flights: seq<Flight>, n: nat, e: Event): nat
    requires n <= |flights|
  {
    if n == 0 then 0 else Rests(flights, n - 1, e) + Left(flights[n - 1], e)
  }

  /** How often an event has been accepted, is to be written, or waits. */
  function Total(s: State, e: Event): nat { Times(s.accepted, e) + Rests(s.flights, |s.flights|, e) + Times(s.buffer, e) }

  function LoggedOnce(s: State, e: Event): nat { if e < s.logged then 1 else 0 }

  function CanWrite(s: State, i: nat): bool { i < |s.flights| && s.flights[i].written < |s.flights[i].batch| }

  /** How often a step repeats an event: a failed write puts its whole batch back, with what
      storage has of it already. */
  function Repeats(s: State, step: Step, e: Event): nat
  {
    if step.Write? && CanWrite(s, step.flight) && step.answer.Throws? then
      var f := s.flights[step.flight];
      Times(f.batch[..f.written], e) + if step.answer.stored && f.batch[f.written] == e then 1 else 0
    else 0
  }

  function RunRepeats(s: State, steps: seq<Step>, e: Event): nat
    decreases |steps|
  {
    if steps == [] then 0 else Repeats(s, steps[0], e) + RunRepeats(Apply(s, steps[0]), steps[1..], e)
  }

  lemma {:induction false} TimesJoin(a: seq<Event>, b: seq<Event>, e: Event)
    ensures Times(a + b, e) == Times(a, e) + Times(b, e)
    decreases |a|
  {
    if a == [] {
      assert a + b == b;
    } else {
      TimesJoin(a[1..], b, e);
      assert (a + b)[1..] == a[1..] + b;
    }
  }

  lemma {:induction false} RestsAgree(a: seq<Flight>, b: seq<Flight>, n: nat, e: Event)
    requires n <= |a| && n <= |b| && forall k :: 0 <= k < n ==> a[k] == b[k]
    ensures Rests(a, n, e) == Rests(b, n, e)
  {
    if n > 0 { RestsAgree(a, b, n - 1, e); }
  }

  lemma {:induction false} RestsWithout(a: seq<Flight>, b: seq<Flight>, i: nat, n: nat, e: Event)
    requires i <= n == |b| && |a| == n + 1
    requires forall k :: 0 <= k < n ==> b[k] == a[if k < i then k else k + 1]
    ensures Rests(a, n + 1, e) == Rests(b, n, e) + Left(a[i], e)
    decreases n
  {
    if i == n {
      RestsAgree(a, b, n, e);
    } else {
      RestsWithout(a[..n], b[..n - 1], i, n - 1, e);
      RestsAgree(a, a[..n], n, e);
      RestsAgree(b, b[..n - 1], n - 1, e);
    }
  }

  lemma RestsLanded(flights: seq<Flight>, i: nat, e: Event)
    requires i < |flights|
    ensures Rests(flights, |flights|, e) == Rests(Landed(flights, i), |Landed(flights, i)|, e) + Left(flights[i], e)
  {
    RestsWithout(flights, Landed(flights, i), i, |flights| - 1, e);
  }

  lemma RestsUpdated(flights: seq<Flight>, i: nat, f: Flight, e: Event)
    requires i < |flights|
    ensures Rests(flights[i := f], |flights|, e) + Left(flights[i], e) == Rests(flights, |flights|, e) + Left(f, e)
  {
    RestsLanded(flights, i, e);
    RestsLanded(flights[i := f], i, e);
    LandsTheSame(flights, i, f);
  }

  lemma LandsTheSame(flights: seq<Flight>, i: nat, f: Flight)
    requires i < |flights|
    ensures Landed(flights[i := f], i) == Landed(flights, i)
  {
    assert flights[i := f][..i] == flights[..i] && flights[i := f][i + 1..] == flights[i + 1..];
  }

  lemma TimesOne(events: seq<Event>, x: Event, e: Event)
    ensures Times(events + [x], e) == Times(events, e) + if x == e then 1 else 0
  {
    TimesJoin(events, [x], e);
    assert [x][1..] == [];
  }

  lemma StartConserves(s: State, e: Event)
    ensures Total(StartFlush(s), e) == Total(s, e)
  {
    if s.buffer != [] {
      var f := Flight(s.buffer, 0);
      RestsAgree(s.flights, s.flights + [f], |s.flights|, e);
      assert Rest(f) == s.buffer;
    }
  }

  /** What one write takes out of a flight, and what of its batch is behind it. */
  lemma BatchAt(f: Flight, e: Event)
    requires f.written < |f.batch|
    ensures Left(f, e) == (if f.batch[f.written] == e then 1 else 0) + Left(f.(written := f.written + 1), e)
    ensures Times(f.batch, e) == Times(f.batch[..f.written], e) + Left(f, e)
  {
    var rest := Rest(f);
    assert rest[0] == f.batch[f.written] && rest[1..] == Rest(f.(written := f.written + 1));
    TimesSplit(f.batch, f.written, e);
  }

  lemma TimesSplit(events: seq<Event>, n: nat, e: Event)
    requires n <= |events|
    ensures Times(events, e) == Times(events[..n], e) + Times(events[n..], e)
  {
    TimesJoin(events[..n], events[n..], e);
    assert events == events[..n] + events[n..];
  }

  lemma WrittenOnce(s: State, i: nat, e: Event)
    requires CanWrite(s, i)
    ensures var u := WriteOp(s, i, Accepts); var f := s.flights[i];
      Rests(u.flights, |u.flights|, e) + (if f.batch[f.written] == e then 1 else 0) == Rests(s.flights, |s.flights|, e)
  {
    var f := s.flights[i];
    BatchAt(f, e);
    if f.written + 1 == |f.batch| {
      RestsLanded(s.flights, i, e);
      assert Rest(f.(written := f.written + 1)) == [];
    } else {
      RestsUpdated(s.flights, i, f.(written := f.written + 1), e);
    }
  }

  lemma AcceptConserves(s: State, i: nat, e: Event)
    requires CanWrite(s, i)
    ensures Total(WriteOp(s, i, Accepts), e) == Total(s, e)
  {
    var f := s.flights[i];
    WrittenOnce(s, i, e);
    TimesOne(s.accepted, f.batch[f.written], e);
  }

  lemma ThrowConserves(s: State, i: nat, stored: bool, e: Event)
    requires CanWrite(s, i)
    ensures Total(WriteOp(s, i, Throws(stored)), e) == Total(s, e) + Repeats(s, Write(i, Throws(stored)), e)
  {
    var f := s.flights[i];
    BatchAt(f, e);
    RestsLanded(s.flights, i, e);
    TimesOne(s.accepted, f.batch[f.written], e);
    TimesJoin(f.batch, s.buffer, e);
  }

  lemma QuietConserves(s: State, step: Step, e: Event)
    requires !step.Write?
    ensures var t := Apply(s, step); Total(t, e) + LoggedOnce(s, e) == Total(s, e) + LoggedOnce(t, e)
  {
    match step
    case Log => TimesOne(s.buffer, s.logged, e);
    case Return(_) => if s.returning > 0 { StartConserves(Rearmed(s), e); }
    case Fire => StartConserves(s.(timer := Spent), e);
    case Flush => StartConserves(s, e);
  }

  /** One step adds the event it logs and what a failed write repeats; it drops nothing. */
  lemma StepConserves(s: State, step: Step, e: Event)
    ensures var t := Apply(s, step);
      t.logged >= s.logged && Total(t, e) + LoggedOnce(s, e) == Total(s, e) + Repeats(s, step, e) + LoggedOnce(t, e)
  {
    match step
    case Write(i, Accepts) => if CanWrite(s, i) { AcceptConserves(s, i, e); }
    case Write(i, Throws(stored)) => if CanWrite(s, i) { ThrowConserves(s, i, stored, e); }
    case _ => QuietConserves(s, step, e);
  }

  lemma ExecStep(s: State, step: Step, rest: seq<Step>)
    ensures Exec(s, [step] + rest) == Exec(Apply(s, step), rest)
  {
    assert ([step] + rest)[1..] == rest;
  }

  lemma {:induction false} RunConserves(s: State, steps: seq<Step>, e: Event)
    ensures var t := Exec(s, steps);
      t.logged >= s.logged && Total(t, e) + LoggedOnce(s, e) == Total(s, e) + RunRepeats(s, steps, e) + LoggedOnce(t, e)
    decreases |steps|
  {
    if steps != [] {
      StepConserves(s, steps[0], e);
      RunConserves(Apply(s, steps[0]), steps[1..], e);
    }
  }

  /** However flushes overlap and whatever writes fail, what is accepted, ahead in a flight or in
      the buffer is every logged event once, and what failed writes repeated besides. */
  lemma EveryEventIsAccountedFor(maxBufferSize: nat, steps: seq<Step>, e: Event)
    ensures var t := Exec(Fresh(maxBufferSize), steps);
      Total(t, e) == (if e < t.logged then 1 else 0) + RunRepeats(Fresh(maxBufferSize), steps, e)
  {
    RunConserves(Fresh(maxBufferSize), steps, e);
  }

  ghost predicate InFlight(s: State, e: Event) { exists f :: f in s.flights && e in Rest(f) }

  ghost predicate Kept(s: State, e: Event) { e in s.accepted || e in s.buffer || InFlight(s, e) }

  lemma {:induction false} RestsAreFlights(flights: seq<Flight>, n: nat, e: Event)
    requires n <= |flights| && Rests(flights, n, e) > 0
    ensures exists f :: f in flights && e in Rest(f)
  {
    if e in Rest(flights[n - 1]) {
      assert flights[n - 1] in flights;
    } else {
      RestsAreFlights(flights, n - 1, e);
    }
  }

  /** Every event is accepted, still to be written by a flush in flight, or in the buffer. */
  lemma NothingIsLost(maxBufferSize: nat, steps: seq<Step>, e: Event)
    requires e < Exec(Fresh(maxBufferSize), steps).logged
    ensures Kept(Exec(Fresh(maxBufferSize), steps), e)
  {
    var t := Exec(Fresh(maxBufferSize), steps);
    EveryEventIsAccountedFor(maxBufferSize, steps, e);
    if Rests(t.flights, |t.flights|, e) > 0 { RestsAreFlights(t.flights, |t.flights|, e); }
  }

  // --- storage takes each event once ---------------------------------------------------------

  ghost predicate Once(events: seq<Event>) { forall e: Event :: Times(events, e) <= 1 }

  /** A write that throws after storage has taken something of its batch. */
  ghost predicate RepeatingThrow(s: State, step: Step)
  {
    && step.Write? && CanWrite(s, step.flight) && step.answer.Throws?
    && (s.flights[step.flight].written > 0 || step.answer.stored)
  }

  ghost predicate NoThrow(steps: seq<Step>) { forall k :: 0 <= k < |steps| && steps[k].Write? ==> steps[k].answer.Accepts? }

  ghost predicate Throwing(s: State, steps: seq<Step>)
  {
    exists k :: 0 <= k < |steps| && RepeatingThrow(Exec(s, steps[..k]), steps[k])
  }

  lemma {:induction false} ExecSplit(s: State, a: seq<Step>, b: seq<Step>)
    ensures Exec(s, a + b) == Exec(Exec(s, a), b)
    decreases |a|
  {
    if a == [] {
      assert a + b == b;
    } else {
      ExecSplit(Apply(s, a[0]), a[1..], b);
      assert (a + b)[1..] == a[1..] + b;
    }
  }

  lemma {:induction false} RepeatsSplit(s: State, a: seq<Step>, b: seq<Step>, e: Event)
    ensures RunRepeats(s, a + b, e) == RunRepeats(s, a, e) + RunRepeats(Exec(s, a), b, e)
    decreases |a|
  {
    if a == [] {
      assert a + b == b;
    } else {
      RepeatsSplit(Apply(s, a[0]), a[1..], b, e);
      assert (a + b)[1..] == a[1..] + b;
    }
  }

  lemma OneRepeats(s: State, step: Step)
    ensures RepeatingThrow(s, step) <==> exists e: Event :: Repeats(s, step, e) > 0
  {
    if RepeatingThrow(s, step) {
      var f := s.flights[step.flight];
      if f.written > 0 { assert f.batch[0] in f.batch[..f.written]; }
      var e := if f.written > 0 then f.batch[0] else f.batch[f.written];
      assert Repeats(s, step, e) > 0;
    }
  }

  lemma ThrowingStep(s: State, steps: seq<Step>)
    requires steps != []
    ensures Throwing(s, steps) <==> RepeatingThrow(s, steps[0]) || Throwing(Apply(s, steps[0]), steps[1..])
  {
    var t, rest := Apply(s, steps[0]), steps[1..];
    forall k | 0 < k < |steps| ensures Exec(s, steps[..k]) == Exec(t, rest[..k - 1]) && steps[k] == rest[k - 1] {
      assert steps[..k][1..] == rest[..k - 1];
    }
    assert steps[..0] == [] && Exec(s, steps[..0]) == s;
    if RepeatingThrow(s, steps[0]) { assert RepeatingThrow(Exec(s, steps[..0]), steps[0]); }
    if Throwing(t, rest) {
      var k :| 0 <= k < |rest| && RepeatingThrow(Exec(t, rest[..k]), rest[k]);
      var i := k + 1;
      assert RepeatingThrow(Exec(s, steps[..i]), steps[i]);
    }
    if Throwing(s, steps) {
      var k :| 0 <= k < |steps| && RepeatingThrow(Exec(s, steps[..k]), steps[k]);
      if k > 0 {
        var i := k - 1;
        assert RepeatingThrow(Exec(t, rest[..i]), rest[i]);
      }
    }
  }

  lemma RunRepeatsStep(s: State, steps: seq<Step>, e: Event)
    requires steps != []
    ensures RunRepeats(s, steps, e) == Repeats(s, steps[0], e) + RunRepeats(Apply(s, steps[0]), steps[1..], e)
  {}

  lemma {:induction false} ThrowingRepeats(s: State, steps: seq<Step>)
    ensures Throwing(s, steps) <==> exists e: Event :: RunRepeats(s, steps, e) > 0
    decreases |steps|
  {
    if steps != [] {
      var t, rest := Apply(s, steps[0]), steps[1..];
      ThrowingRepeats(t, rest);
      OneRepeats(s, steps[0]);
      ThrowingStep(s, steps);
      if Throwing(s, steps) {
        var e: Event :| Repeats(s, steps[0], e) > 0 || RunRepeats(t, rest, e) > 0;
        assert RunRepeats(s, steps, e) > 0;
      }
      if e: Event :| RunRepeats(s, steps, e) > 0 {
        RunRepeatsStep(s, steps, e);
        if Repeats(s, steps[0], e) > 0 { assert RepeatingThrow(s, steps[0]); } else { assert RunRepeats(t, rest, e) > 0; }
      }
    }
  }

  lemma {:induction false} NoThrowNoRepeats(s: State, steps: seq<Step>, e: Event)
    requires NoThrow(steps)
    ensures RunRepeats(s, steps, e) == 0
    decreases |steps|
  {
    if steps != [] {
      assert forall k :: 0 <= k < |steps[1..]| ==> steps[1..][k] == steps[k + 1];
      NoThrowNoRepeats(Apply(s, steps[0]), steps[1..], e);
    }
  }

  ghost predicate Sound(s: State) { forall f :: f in s.flights ==> f.written < |f.batch| }

  lemma {:induction false} RunStaysSound(s: State, steps: seq<Step>)
    requires Sound(s)
    ensures Sound(Exec(s, steps))
    decreases |steps|
  {
    if steps != [] { RunStaysSound(Apply(s, steps[0]), steps[1..]); }
  }

  /** Storage that throws no more can take all that is ahead. */
  lemma {:induction false} Drains(s: State, flushed: bool) returns (more: seq<Step>)
    requires Sound(s) && (flushed ==> s.buffer == [])
    ensures NoThrow(more)
    ensures var t := Exec(s, more); t.flights == [] && t.buffer == []
    decreases !flushed, |s.flights|, if s.flights == [] then 0 else |Rest(s.flights[0])|
  {
    if !flushed {
      var rest := Drains(Apply(s, Flush), true);
      more := [Flush] + rest;
      ExecStep(s, Flush, rest);
    } else if s.flights == [] {
      more := [];
    } else {
      var step := Write(0, Accepts);
      assert s.flights[0] in s.flights;
      var rest := Drains(Apply(s, step), true);
      more := [step] + rest;
      ExecStep(s, step, rest);
    }
  }

  /** Storage comes to hold an event twice in a run, or in what may follow without another
      failure, exactly when some write threw after storage had taken part of its batch. */
  lemma RepeatsExactlyWhen(maxBufferSize: nat, steps: seq<Step>)
    ensures var s := Fresh(maxBufferSize);
      (exists more :: NoThrow(more) && !Once(Exec(s, steps + more).accepted)) <==> Throwing(s, steps)
  {
    var s := Fresh(maxBufferSize);
    ThrowingRepeats(s, steps);
    if Throwing(s, steps) {
      RunStaysSound(s, steps);
      var more := Drains(Exec(s, steps), false);
      var e: Event :| RunRepeats(s, steps, e) > 0;
      ExecSplit(s, steps, more);
      RepeatsSplit(s, steps, more, e);
      EveryEventIsAccountedFor(maxBufferSize, steps + more, e);
      RepeatedIsLogged(s, steps + more, e);
      assert Times(Exec(s, steps + more).accepted, e) >= 2;
    } else {
      forall more | NoThrow(more) ensures Once(Exec(s, steps + more).accepted) {
        forall e: Event ensures Times(Exec(s, steps + more).accepted, e) <= 1 {
          NoThrowNoRepeats(Exec(s, steps), more, e);
          RepeatsSplit(s, steps, more, e);
          EveryEventIsAccountedFor(maxBufferSize, steps + more, e);
        }
      }
    }
  }

  /** Only logged events are anywhere. */
  ghost predicate AllLogged(s: State)
  {
    && (forall e :: e in s.buffer ==> e < s.logged)
    && (forall f, e :: f in s.flights && e in f.batch ==> e < s.logged)
  }

  lemma StepStaysLogged(s: State, step: Step)
    requires AllLogged(s)
    ensures AllLogged(Apply(s, step))
  {
    if step.Write? && CanWrite(s, step.flight) {
      var f := s.flights[step.flight];
      assert f in s.flights;
    }
  }

  lemma {:induction false} RepeatedIsLogged(s: State, steps: seq<Step>, e: Event)
    requires AllLogged(s) && RunRepeats(s, steps, e) > 0
    ensures e < Exec(s, steps).logged
    decreases |steps|
  {
    var t := Apply(s, steps[0]);
    StepStaysLogged(s, steps[0]);
    if Repeats(s, steps[0], e) > 0 {
      var f := s.flights[steps[0].flight];
      assert f in s.flights && e in f.batch;
      RunConserves(t, steps[1..], e);
    } else {
      RepeatedIsLogged(t, steps[1..], e);
    }
  }

  // --- order --------------------------------------------------------------------------------

  /** `accepted` without repeats, in order of first acceptance. */
  function Firsts(events: seq<Event>): seq<Event>
  {
    if events == [] then []
    else
      var front, last := Firsts(events[..|events| - 1]), events[|events| - 1];
      if last in front then front else front + [last]
  }

  /** The events from `from` up to `to`, in log order. */
  function Span(from: nat, to: nat): (r: seq<Event>)
    requires from <= to
    ensures |r| == to - from && forall i :: 0 <= i < |r| ==> r[i] == from + i
  {
    seq(to - from, i requires 0 <= i < to - from => from + i)
  }

  /** What is not behind us, in order: the flight's whole batch, then the buffer. */
  function Ahead(s: State): seq<Event> { (if s.flights == [] then [] else s.flights[0].batch) + s.buffer }

  function Written(s: State): nat { if s.flights == [] then 0 else s.flights[0].written }

  /** Events up to `from` are done with, events up to `seen` have been accepted. */
  ghost predicate InOrderFrom(s: State, from: nat, seen: nat)
  {
    && from <= seen <= s.logged && from + Written(s) <= seen
    && Ahead(s) == Span(from, s.logged) && Firsts(s.accepted) == Span(0, seen)
  }

  ghost predicate InOrder(s: State)
  {
    && |s.flights| <= 1
    && (forall f :: f in s.flights ==> f.written < |f.batch|)
    && exists from: nat, seen: nat :: InOrderFrom(s, from, seen)
  }

  /** No flush takes events while another is in flight. */
  ghost predicate Alone(s: State, step: Step) { |Apply(s, step).flights| <= 1 }

  lemma AcceptExtends(accepted: seq<Event>, seen: nat, e: Event)
    requires Firsts(accepted) == Span(0, seen) && e <= seen
    ensures Firsts(accepted + [e]) == if e == seen then Span(0, seen + 1) else Span(0, seen)
  {
    var all := accepted + [e];
    assert all[..|all| - 1] == accepted;
    if e < seen { assert Span(0, seen)[e] == e; }
    if e == seen { assert Span(0, seen) + [e] == Span(0, seen + 1); }
  }

  lemma FlushStaysInOrder(s: State)
    requires InOrder(s) && |StartFlush(s).flights| <= 1
    ensures InOrder(StartFlush(s))
  {
    var from: nat, seen: nat :| InOrderFrom(s, from, seen);
    var t := StartFlush(s);
    assert s.buffer != [] ==> Ahead(t) == Ahead(s);
    assert InOrderFrom(t, from, seen);
  }

  lemma LogStaysInOrder(s: State)
    requires InOrder(s)
    ensures InOrder(Apply(s, Log))
  {
    var from: nat, seen: nat :| InOrderFrom(s, from, seen);
    var t := Apply(s, Log);
    assert Ahead(t) == Ahead(s) + [s.logged];
    assert Span(from, s.logged) + [s.logged] == Span(from, s.logged + 1);
    assert InOrderFrom(t, from, seen);
  }

  lemma LandsInOrder(s: State, t: State, from: nat, seen: nat)
    requires InOrderFrom(s, from, seen) && |s.flights| == 1 && |s.flights[0].batch| == s.flights[0].written + 1
    requires t == s.(flights := [], accepted := t.accepted)
    requires Firsts(t.accepted) == Span(0, if from + s.flights[0].written == seen then seen + 1 else seen)
    ensures InOrder(t)
  {
    var batch := s.flights[0].batch;
    assert Ahead(s) == batch + s.buffer && |batch + s.buffer| == s.logged - from;
    assert s.buffer == (batch + s.buffer)[|batch|..];
    assert Span(from, s.logged)[|batch|..] == Span(from + |batch|, s.logged);
    var seen' := if from + s.flights[0].written == seen then seen + 1 else seen;
    assert InOrderFrom(t, from + |batch|, seen');
  }

  lemma GoesOnInOrder(s: State, t: State, from: nat, seen: nat)
    requires InOrderFrom(s, from, seen) && |s.flights| == 1 && s.flights[0].written + 1 < |s.flights[0].batch|
    requires t == s.(flights := [Flight(s.flights[0].batch, s.flights[0].written + 1)], accepted := t.accepted)
    requires Firsts(t.accepted) == Span(0, if from + s.flights[0].written == seen then seen + 1 else seen)
    ensures InOrder(t)
  {
    var seen' := if from + s.flights[0].written == seen then seen + 1 else seen;
    assert Ahead(t) == Ahead(s) && |s.flights[0].batch + s.buffer| == s.logged - from;
    assert InOrderFrom(t, from, seen');
  }

  lemma PutBackInOrder(s: State, t: State, from: nat, seen: nat, seen': nat)
    requires InOrderFrom(s, from, seen) && |s.flights| == 1 && seen <= seen' <= s.logged
    requires t == s.(flights := [], buffer := s.flights[0].batch + s.buffer, accepted := t.accepted)
    requires Firsts(t.accepted) == Span(0, seen')
    ensures InOrder(t)
  {
    assert Ahead(t) == Ahead(s);
    assert InOrderFrom(t, from, seen');
  }

  lemma WriteStaysInOrder(s: State, answer: Answer)
    requires InOrder(s) && |s.flights| == 1
    ensures s.flights[0].written < |s.flights[0].batch| && InOrder(WriteOp(s, 0, answer))
  {
    var from: nat, seen: nat :| InOrderFrom(s, from, seen);
    var f := s.flights[0];
    assert f in s.flights;
    var t := WriteOp(s, 0, answer);
    var e := f.batch[f.written];
    assert Ahead(s) == f.batch + s.buffer && |f.batch + s.buffer| == s.logged - from;
    assert e == Ahead(s)[f.written] == from + f.written;
    AcceptExtends(s.accepted, seen, e);
    match answer
    case Accepts =>
      if f.written + 1 == |f.batch| { LandsInOrder(s, t, from, seen); } else { GoesOnInOrder(s, t, from, seen); }
    case Throws(stored) => PutBackInOrder(s, t, from, seen, if stored && e == seen then seen + 1 else seen);
  }

  lemma StepStaysInOrder(s: State, step: Step)
    requires InOrder(s) && Alone(s, step)
    ensures InOrder(Apply(s, step))
  {
    match step
    case Log => LogStaysInOrder(s);
    case Return(critical) =>
      if s.returning > 0 {
        var t := Rearmed(s);
        TimerIsNoOrder(s, t);
        if critical || |t.buffer| >= t.maxBufferSize { FlushStaysInOrder(t); }
      }
    case Fire =>
      if s.timer.Armed? {
        TimerIsNoOrder(s, s.(timer := Spent));
        FlushStaysInOrder(s.(timer := Spent));
      }
    case Flush => FlushStaysInOrder(s);
    case Write(i, answer) =>
      if i < |s.flights| && s.flights[i].written < |s.flights[i].batch| { WriteStaysInOrder(s, answer); }
  }

  lemma TimerIsNoOrder(s: State, t: State)
    requires InOrder(s) && t == s.(timer := t.timer, returning := t.returning)
    ensures InOrder(t)
  {
    var from: nat, seen: nat :| InOrderFrom(s, from, seen);
    assert InOrderFrom(t, from, seen);
  }

  ghost predicate OneFlushAtATime(s: State, steps: seq<Step>)
    decreases |steps|
  {
    steps != [] ==> Alone(s, steps[0]) && OneFlushAtATime(Apply(s, steps[0]), steps[1..])
  }

  lemma {:induction false} RunStaysInOrder(s: State, steps: seq<Step>)
    requires InOrder(s) && OneFlushAtATime(s, steps)
    ensures InOrder(Exec(s, steps))
    decreases |steps|
  {
    if steps != [] {
      StepStaysInOrder(s, steps[0]);
      RunStaysInOrder(Apply(s, steps[0]), steps[1..]);
    }
  }

  /** While flushes do not overlap, storage first accepts events in the order they were
      logged, leaving none out, whatever writes fail in between. */
  lemma FirstAcceptancesInLogOrder(maxBufferSize: nat, steps: seq<Step>)
    requires OneFlushAtATime(Fresh(maxBufferSize), steps)
    ensures exists seen: nat :: Firsts(Exec(Fresh(maxBufferSize), steps).accepted) == Span(0, seen)
  {
    var s := Fresh(maxBufferSize);
    assert Ahead(s) == Span(0, 0);
    assert InOrderFrom(s, 0, 0);
    RunStaysInOrder(s, steps);
    var t := Exec(s, steps);
    var from: nat, seen: nat :| InOrderFrom(t, from, seen);
  }

  ghost predicate Ordered(s: State) { exists n: nat :: Firsts(s.accepted) == Span(0, n) }

  lemma {:induction false} FirstsHold(events: seq<Event>, e: Event)
    ensures e in events <==> e in Firsts(events)
    decreases |events|
  {
    if events != [] {
      var n := |events| - 1;
      FirstsHold(events[..n], e);
      assert events == events[..n] + [events[n]];
    }
  }

  lemma SeenIsAccepted(accepted: seq<Event>, seen: nat)
    requires Firsts(accepted) == Span(0, seen)
    ensures forall e: Event :: e in accepted <==> e < seen
  {
    forall e: Event ensures e in accepted <==> e < seen {
      FirstsHold(accepted, e);
      if e < seen { assert Span(0, seen)[e] == e; }
    }
  }

  /** Positions of what is ahead, in a state in order with one flush in flight. */
  lemma AheadAt(s: State, from: nat, seen: nat)
    requires InOrderFrom(s, from, seen) && |s.flights| == 1
    ensures var batch := s.flights[0].batch;
      && (forall k :: 0 <= k < |batch| ==> batch[k] == from + k)
      && (s.buffer != [] ==> s.buffer[0] == from + |batch|)
  {
    var batch := s.flights[0].batch;
    var ahead := Ahead(s);
    assert ahead == batch + s.buffer && |ahead| == s.logged - from;
    forall k | 0 <= k < |batch| ensures batch[k] == from + k { assert batch[k] == ahead[k]; }
    if s.buffer != [] { assert s.buffer[0] == ahead[|batch|]; }
  }

  lemma SkipsAhead(s: State, seen: nat, e: Event)
    requires s.accepted != [] && s.accepted[|s.accepted| - 1] == e > seen
    requires Firsts(s.accepted[..|s.accepted| - 1]) == Span(0, seen)
    ensures !Ordered(s)
  {
    assert e !in Span(0, seen);
    assert Firsts(s.accepted) == Span(0, seen) + [e];
    assert Firsts(s.accepted)[seen] == e;
  }

  /** What a write beside a second flush accepts, if it accepts anything. */
  lemma SecondFlush(s: State, from: nat, seen: nat, i: nat, answer: Answer)
    requires InOrderFrom(s, from, seen) && |s.flights| == 1 && s.flights[0].written < |s.flights[0].batch| && s.buffer != []
    ensures var u := Apply(Apply(s, Flush), Write(i, answer)); var next := from + |s.flights[0].batch|;
      && (i == 1 && answer == Accepts ==> u.accepted == s.accepted + [next])
      && (u.accepted == s.accepted || exists e: nat :: e <= next && u.accepted == s.accepted + [e])
  {
    AheadAt(s, from, seen);
    var t := Apply(s, Flush);
    assert t.flights == s.flights + [Flight(s.buffer, 0)] && t.accepted == s.accepted;
    if CanWrite(t, i) {
      var event := t.flights[i].batch[t.flights[i].written];
      assert event == if i == 0 then from + s.flights[0].written else from + |s.flights[0].batch|;
    }
  }

  lemma SeenKeepsOrder(s: State, seen: nat, u: State, next: nat)
    requires Firsts(s.accepted) == Span(0, seen) && next <= seen
    requires u.accepted == s.accepted || exists e: nat :: e <= next && u.accepted == s.accepted + [e]
    ensures Ordered(u)
  {
    if u.accepted != s.accepted {
      var e: nat :| e <= next && u.accepted == s.accepted + [e];
      AcceptExtends(s.accepted, seen, e);
    }
  }

  /** With one flush in flight and events behind it, a second flush may at once store an event
      out of order exactly when the first still holds one that storage has never taken. */
  lemma OverlapReordersExactlyWhen(s: State)
    requires InOrder(s) && |s.flights| == 1 && s.buffer != []
    ensures var t := Apply(s, Flush);
      (exists i: nat, answer: Answer :: !Ordered(Apply(t, Write(i, answer)))) <==> exists e :: e in s.flights[0].batch && e !in s.accepted
  {
    var from: nat, seen: nat :| InOrderFrom(s, from, seen);
    assert s.flights[0] in s.flights;
    var batch := s.flights[0].batch;
    var t := Apply(s, Flush);
    SeenIsAccepted(s.accepted, seen);
    AheadAt(s, from, seen);
    if seen < from + |batch| {
      var last := batch[|batch| - 1];
      assert last in batch && last !in s.accepted;
      SecondFlush(s, from, seen, 1, Accepts);
      var u := Apply(t, Write(1, Accepts));
      assert u.accepted[..|u.accepted| - 1] == s.accepted;
      SkipsAhead(u, seen, from + |batch|);
      assert !Ordered(Apply(t, Write(1, Accepts)));
    } else {
      forall i: nat, answer: Answer ensures Ordered(Apply(t, Write(i, answer))) {
        SecondFlush(s, from, seen, i, answer);
        SeenKeepsOrder(s, seen, Apply(t, Write(i, answer)), from + |batch|);
      }
    }
  }

  // --- a logged event is flushed in time -----------------------------------------------------

  /** Something will take the buffered events without another log: a timer that is to fire, or
      a log that has not yet returned from its external logger. */
  ghost predicate Covered(s: State) { s.buffer == [] || s.timer.Armed? || s.returning > 0 }

  /** A write throws with no timer armed and no log under way: its batch is put back and nothing
      is armed for it. */
  ghost predicate FailsUntimed(s: State, step: Step)
  {
    step.Write? && CanWrite(s, step.flight) && step.answer.Throws? && !s.timer.Armed? && s.returning == 0
  }

  /** The last log under way goes on over a timer that has fired without being cleared. */
  ghost predicate ReturnsOverSpent(s: State, step: Step)
  {
    && step.Return? && s.returning == 1 && s.timer.Spent? && s.buffer != []
    && !step.critical && |s.buffer| < s.maxBufferSize
  }

  ghost predicate Strands(s: State, step: Step) { FailsUntimed(s, step) || ReturnsOverSpent(s, step) }

  lemma CoverAfterStep(s: State, step: Step)
    ensures Covered(Apply(s, step)) <==>
      if Covered(s) then !Strands(s, step) else step.Log? || step.Flush?
  {}

  /** The last step that changed whether the buffer is covered left it stranded. */
  ghost predicate StrandedAt(s: State, steps: seq<Step>, k: nat)
    requires k < |steps|
  {
    && Strands(Exec(s, steps[..k]), steps[k])
    && forall j :: k < j < |steps| ==> !steps[j].Log? && !steps[j].Flush?
  }

  lemma ExecLast(s: State, steps: seq<Step>)
    requires steps != []
    ensures var n := |steps| - 1; Exec(s, steps) == Apply(Exec(s, steps[..n]), steps[n])
  {
    var n := |steps| - 1;
    ExecSplit(s, steps[..n], [steps[n]]);
    assert steps == steps[..n] + [steps[n]];
  }

  /** A run ends with events that nothing will take until another log or an explicit flush
      exactly when a write failed untimed, or a log returned over a spent timer, and neither a
      log nor an explicit flush has come since. */
  lemma {:induction false} StrandedExactlyWhen(s: State, steps: seq<Step>)
    requires Covered(s)
    ensures !Covered(Exec(s, steps)) <==> exists k :: 0 <= k < |steps| && StrandedAt(s, steps, k)
    decreases |steps|
  {
    if steps != [] {
      var n := |steps| - 1;
      var front := steps[..n];
      StrandedExactlyWhen(s, front);
      ExecLast(s, steps);
      CoverAfterStep(Exec(s, front), steps[n]);
      forall k | 0 <= k < n ensures steps[..k] == front[..k] {}
      if !Covered(Exec(s, steps)) {
        if Covered(Exec(s, front)) {
          assert StrandedAt(s, steps, n);
        } else {
          var k :| 0 <= k < n && StrandedAt(s, front, k);
          forall j | k < j < |steps| ensures !steps[j].Log? && !steps[j].Flush? {
            if j < n { assert steps[j] == front[j]; }
          }
          assert StrandedAt(s, steps, k);
        }
      }
      if k :| 0 <= k < |steps| && StrandedAt(s, steps, k) {
        if k < n {
          forall j | k < j < n ensures !front[j].Log? && !front[j].Flush? { assert front[j] == steps[j]; }
          assert StrandedAt(s, front, k);
        } else {
          StrandsUncovers(Exec(s, front), steps[n]);
        }
      }
    }
  }

  lemma StrandsUncovers(s: State, step: Step)
    requires Strands(s, step)
    ensures !Covered(Apply(s, step))
  {}

  /** No external logger: each log goes on at once. */
  ghost predicate LogsAtOnce(s: State, steps: seq<Step>)
    decreases |steps|
  {
    steps != [] ==> (s.returning > 0 ==> steps[0].Return?) && LogsAtOnce(Apply(s, steps[0]), steps[1..])
  }

  ghost predicate Prompt(s: State)
  {
    s.returning <= 1 && !s.timer.Spent? && (s.returning == 1 || s.timer.Armed? ==> s.buffer != [])
  }

  lemma {:induction false} StaysPrompt(s: State, steps: seq<Step>, k: nat)
    requires Prompt(s) && LogsAtOnce(s, steps) && k <= |steps|
    ensures Prompt(Exec(s, steps[..k]))
    decreases |steps|
  {
    if k > 0 {
      StaysPrompt(Apply(s, steps[0]), steps[1..], k - 1);
      assert steps[..k][1..] == steps[1..][..k - 1];
    }
  }

  /** Without an external logger only a failed write strands events. */
  lemma OnlyFailuresStrandPromptLogs(maxBufferSize: nat, steps: seq<Step>)
    requires LogsAtOnce(Fresh(maxBufferSize), steps)
    ensures var s := Fresh(maxBufferSize);
      !Covered(Exec(s, steps)) <==>
        exists k :: 0 <= k < |steps| && FailsUntimed(Exec(s, steps[..k]), steps[k])
          && forall j :: k < j < |steps| ==> !steps[j].Log? && !steps[j].Flush?
  {
    var s := Fresh(maxBufferSize);
    StrandedExactlyWhen(s, steps);
    if k :| 0 <= k < |steps| && StrandedAt(s, steps, k) {
      StaysPrompt(s, steps, k);
      assert FailsUntimed(Exec(s, steps[..k]), steps[k]);
    }
    if k :| 0 <= k < |steps| && FailsUntimed(Exec(s, steps[..k]), steps[k]) && forall j :: k < j < |steps| ==> !steps[j].Log? && !steps[j].Flush? {
      assert StrandedAt(s, steps, k);
    }
  }

  // --- runs that show each failure -----------------------------------------------------------

  /** Overlapping flushes may store a later event first. */
  lemma OverlapReorders()
    ensures Exec(Fresh(100), [Log, Flush, Log, Flush, Write(1, Accepts)]).accepted == [1]
  {
    assert [Log, Flush, Log, Flush, Write(1, Accepts)] == [Log] + ([Flush] + ([Log] + ([Flush] + ([Write(1, Accepts)] + []))));
    var s0 := Fresh(100);
    var s1 := Apply(s0, Log);
    assert s1.buffer == [0];
    var s2 := Apply(s1, Flush);
    var s3 := Apply(s2, Log);
    assert s3.buffer == [1];
    var s4 := Apply(s3, Flush);
    assert s4.flights == [Flight([0], 0), Flight([1], 0)];
    ExecStep(s0, Log, [Flush] + ([Log] + ([Flush] + ([Write(1, Accepts)] + []))));
    ExecStep(s1, Flush, [Log] + ([Flush] + ([Write(1, Accepts)] + [])));
    ExecStep(s2, Log, [Flush] + ([Write(1, Accepts)] + []));
    ExecStep(s3, Flush, [Write(1, Accepts)] + []);
    ExecStep(s4, Write(1, Accepts), []);
  }

  /** Two events, the second write fails, the next flush stores the first event again. */
  lemma FailureRepeatsAccepted()
    ensures Exec(Fresh(100), [Log, Log, Flush, Write(0, Accepts), Write(0, Throws(false)), Flush, Write(0, Accepts)]).accepted == [0, 0]
  {
    var last := [Flush] + ([Write(0, Accepts)] + []);
    assert [Log, Log, Flush, Write(0, Accepts), Write(0, Throws(false)), Flush, Write(0, Accepts)]
        == [Log] + ([Log] + ([Flush] + ([Write(0, Accepts)] + ([Write(0, Throws(false))] + last))));
    var s0 := Fresh(100);
    var s1 := Apply(s0, Log);
    var s2 := Apply(s1, Log);
    assert s2.buffer == [0, 1];
    var s3 := Apply(s2, Flush);
    assert s3.flights == [Flight([0, 1], 0)];
    var s4 := Apply(s3, Write(0, Accepts));
    assert s4.flights == [Flight([0, 1], 1)] && s4.accepted == [0];
    var s5 := Apply(s4, Write(0, Throws(false)));
    assert s5.flights == [] && s5.buffer == [0, 1];
    var s6 := Apply(s5, Flush);
    assert s6.flights == [Flight([0, 1], 0)];
    ExecStep(s0, Log, [Log] + ([Flush] + ([Write(0, Accepts)] + ([Write(0, Throws(false))] + last))));
    ExecStep(s1, Log, [Flush] + ([Write(0, Accepts)] + ([Write(0, Throws(false))] + last)));
    ExecStep(s2, Flush, [Write(0, Accepts)] + ([Write(0, Throws(false))] + last));
    ExecStep(s3, Write(0, Accepts), [Write(0, Throws(false))] + last);
    ExecStep(s4, Write(0, Throws(false)), last);
    ExecStep(s5, Flush, [Write(0, Accepts)] + []);
    ExecStep(s6, Write(0, Accepts), []);
  }

  /** A critical event whose write fails is put back, and nothing is armed for it. */
  lemma FailedWriteStrandsEvents()
    ensures var s := Exec(Fresh(100), [Log, Return(true), Write(0, Throws(false))]);
      s.buffer == [0] && !Covered(s) && s.flights == [] && s.accepted == []
  {
    assert [Log, Return(true), Write(0, Throws(false))] == [Log] + ([Return(true)] + ([Write(0, Throws(false))] + []));
    var s0 := Fresh(100);
    var s1 := Apply(s0, Log);
    assert s1.buffer == [0];
    var s2 := Apply(s1, Return(true));
    assert s2.flights == [Flight([0], 0)];
    ExecStep(s0, Log, [Return(true)] + ([Write(0, Throws(false))] + []));
    ExecStep(s1, Return(true), [Write(0, Throws(false))] + []);
    ExecStep(s2, Write(0, Throws(false)), []);
  }

  /** A log whose external logger outlasts another log's flush spends the timer; a log after
      it then waits for no timer at all. */
  lemma SlowExternalLoggerStrandsEvents()
    ensures var s := Exec(Fresh(100), [Log, Log, Return(true), Return(false), Fire, Log, Return(false)]);
      s.buffer == [2] && !Covered(s)
  {
    var last := [Fire] + ([Log] + ([Return(false)] + []));
    assert [Log, Log, Return(true), Return(false), Fire, Log, Return(false)]
        == [Log] + ([Log] + ([Return(true)] + ([Return(false)] + last)));
    var s0 := Fresh(100);
    var s1 := Apply(s0, Log);
    var s2 := Apply(s1, Log);
    var s3 := Apply(s2, Return(true));
    var s4 := Apply(s3, Return(false));
    var s5 := Apply(s4, Fire);
    assert s5.timer.Spent? && s5.buffer == [] && s5.logged == 2 && s5.maxBufferSize == 100 && s5.returning == 0;
    var s6 := Apply(s5, Log);
    assert s6.buffer == [2];
    ExecStep(s0, Log, [Log] + ([Return(true)] + ([Return(false)] + last)));
    ExecStep(s1, Log, [Return(true)] + ([Return(false)] + last));
    ExecStep(s2, Return(true), [Return(false)] + last);
    ExecStep(s3, Return(false), last);
    ExecStep(s4, Fire, [Log] + ([Return(false)] + []));
    ExecStep(s5, Log, [Return(false)] + []);
    ExecStep(s6, Return(false), []);
  }

  lemma SpentStep(s: State, step: Step)
    requires s.timer.Spent? && Apply(s, step).timer != Spent
    ensures s.buffer != [] && Apply(s, step).buffer == []
  {}

  ghost predicate TakesBuffer(s: State, step: Step) { s.buffer != [] && Apply(s, step).buffer == [] }

  /** Once spent, the timer stays so, and logging arms none, until some flush takes the buffer. */
  lemma {:induction false} SpentUntilFlushed(s: State, steps: seq<Step>)
    requires s.timer.Spent?
    requires forall k :: 0 <= k < |steps| ==> !TakesBuffer(Exec(s, steps[..k]), steps[k])
    ensures Exec(s, steps).timer.Spent?
    decreases |steps|
  {
    if steps != [] {
      var n := |steps| - 1;
      forall k | 0 <= k < n ensures !TakesBuffer(Exec(s, steps[..n][..k]), steps[..n][k]) {
        assert steps[..n][..k] == steps[..k] && !TakesBuffer(Exec(s, steps[..k]), steps[k]);
      }
      SpentUntilFlushed(s, steps[..n]);
      ExecLast(s, steps);
      assert !TakesBuffer(Exec(s, steps[..n]), steps[n]);
      if Apply(Exec(s, steps[..n]), steps[n]).timer != Spent { SpentStep(Exec(s, steps[..n]), steps[n]); }
    }
  }
}
