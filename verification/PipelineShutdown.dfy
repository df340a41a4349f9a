/** Shutdown: a cancelled session winds down in a bounded number of steps, in the right order. */
module PipelineShutdown {
  import opened Entities
  import opened Pipeline
  import opened PipelineOrder

  function ReaderMeasure(r: Reader): nat {
    match r
    case ReaderSelecting => 1
    case ReaderHolding(_) => 9
    case ReaderExited(_) => 0
  }

  function ForwarderMeasure(f: Forwarder): nat {
    match f
    case ForwarderSelecting => 1
    case ForwarderHolding(_) => 7
    case ForwarderExited(_) => 0
  }

  function WriterMeasure(w: Writer): nat {
    match w
    case WriterRanging => 1
    case WriterHolding(_) => 5
    case WriterLocked(_) => 4
    case WriterWritten(_) => 3
    case WriterFailed(_) => 2
    case WriterExited(_) => 0
  }

  /** The steps one subscription can still take: a queued event has the longest way to go. */
  function SubMeasure(sub: Sub): nat {
    (if sub.consumed <= |sub.history| then 9 * (|sub.history| - sub.consumed) else 0)
    + ReaderMeasure(sub.reader) + 7 * |sub.buffer| + ForwarderMeasure(sub.forwarder) + WriterMeasure(sub.writer)
  }

  function SubsMeasure(subs: seq<Sub>): nat {
    if subs == [] then 0 else SubsMeasure(subs[..|subs| - 1]) + SubMeasure(subs[|subs| - 1])
  }

  function Measure(s: Session): nat {
    SubsMeasure(s.subs)
    + Flag(s.doneCloses == 0)
    + (match s.request case Reading => 2 case AwaitingWriters => 1 case Returned => 0)
  }

  /** Every goroutine the session started has returned, and so has the request. */
  ghost predicate WoundDown(s: Session) {
    && s.request.Returned?
    && forall i :: 0 <= i < |s.subs| ==>
         s.subs[i].reader.ReaderExited? && s.subs[i].forwarder.ForwarderExited? && s.subs[i].writer.WriterExited?
  }

  function CountInternal(actions: seq<Action>): nat {
    if actions == [] then 0 else Flag(!Environment(actions[0])) + CountInternal(actions[1..])
  }

  function CountDeliveries(actions: seq<Action>): nat {
    if actions == [] then 0 else Flag(actions[0].RedisDelivers?) + CountDeliveries(actions[1..])
  }

  lemma {:induction false} SubsMeasureUpdate(subs: seq<Sub>, i: nat, sub: Sub)
    requires i < |subs|
    ensures SubsMeasure(subs[i := sub]) == SubsMeasure(subs) - SubMeasure(subs[i]) + SubMeasure(sub)
    decreases |subs|
  {
    var init := subs[..|subs| - 1];
    if i == |subs| - 1 {
      assert subs[i := sub][..|subs| - 1] == init;
    } else {
      assert subs[i := sub][..|subs| - 1] == init[i := sub];
      SubsMeasureUpdate(init, i, sub);
    }
  }

  lemma SubStepMeasure(sub: Sub, a: Action, cancelled: bool, redisClosed: bool)
    requires Disciplined(sub) && Ready(sub, a, cancelled, redisClosed) && IndexOf(a).Some?
    ensures SubMeasure(SubStep(sub, a)) + Flag(!Environment(a)) <= SubMeasure(sub) + 9 * Flag(a.RedisDelivers?)
  {
  }

  /** Every step of session code lowers the measure; only a new Redis event raises it, by nine. */
  lemma StepLowersMeasure(s: Session, a: Action)
    requires Inv(s) && Enabled(s, a)
    ensures Measure(Apply(s, a)) + Flag(!Environment(a)) <= Measure(s) + 9 * Flag(a.RedisDelivers?)
  {
    ApplyShape(s, a);
    match IndexOf(a)
    case None =>
    case Some(i) =>
      assert SubOk(s, i);
      SubsMeasureUpdate(s.subs, i, SubStep(s.subs[i], a));
      SubStepMeasure(s.subs[i], a, s.cancelled, RedisIsClosed(s, i));
  }

  /** Session code takes a bounded number of steps in any run, however the environment interleaves. */
  lemma {:induction false} RunIsBounded(s: Session, actions: seq<Action>)
    requires Inv(s) && IsRun(s, actions)
    ensures Measure(Run(s, actions)) + CountInternal(actions) <= Measure(s) + 9 * CountDeliveries(actions)
    decreases |actions|
  {
    if actions != [] {
      StepLowersMeasure(s, actions[0]);
      StepKeepsInv(s, actions[0]);
      RunIsBounded(Apply(s, actions[0]), actions[1..]);
    }
  }

  /** Some step of session code is possible until every goroutine has returned. */
  lemma CancelledCanMove(s: Session) returns (a: Action)
    requires Inv(s) && s.cancelled && !s.request.Reading? && !WoundDown(s)
    ensures Enabled(s, a) && !Environment(a)
  {
    if i :| 0 <= i < |s.subs| && !s.subs[i].reader.ReaderExited? {
      return ReaderReturns(i);
    }
    if i :| 0 <= i < |s.subs| && !s.subs[i].forwarder.ForwarderExited? {
      return ForwarderReturns(i);
    }
    if s.lock.Some? {
      var j := s.lock.value;
      LockOwnerCanMove(s);
      return if s.subs[j].writer.WriterLocked? then WriterWrites(j, true) else WriterUnlocks(j);
    }
    if i :| 0 <= i < |s.subs| && !s.subs[i].writer.WriterExited? {
      assert SubOk(s, i);
      assert s.lock == Some(i) <==> OwnsLock(s.subs[i].writer);
      return if s.subs[i].writer.WriterHolding? then WriterLocks(i) else WriterReturns(i);
    }
    LiveWritersZero(s.subs);
    return if s.doneCloses == 0 then WaiterCloses else RequestReturns;
  }

  lemma CancelledStays(s: Session, a: Action)
    requires Enabled(s, a) && s.cancelled && !s.request.Reading?
    ensures Apply(s, a).cancelled && !Apply(s, a).request.Reading?
  {
  }

  /** A way to wind down exists from every cancelled state. */
  lemma {:induction false} WindDownExists(s: Session) returns (actions: seq<Action>)
    requires Inv(s) && s.cancelled && !s.request.Reading?
    ensures IsRun(s, actions) && WoundDown(Run(s, actions))
    ensures |actions| <= Measure(s)
    decreases Measure(s)
  {
    if WoundDown(s) {
      return [];
    }
    var a := CancelledCanMove(s);
    StepLowersMeasure(s, a);
    StepKeepsInv(s, a);
    ApplyShape(s, a);
    CancelledStays(s, a);
    var rest := WindDownExists(Apply(s, a));
    actions := [a] + rest;
    assert actions[1..] == rest;
  }

  /** Session code alone, with writes that succeed. */
  ghost predicate IsUndisturbed(actions: seq<Action>) {
    forall k :: 0 <= k < |actions| ==> !Environment(actions[k]) && !(actions[k].WriterWrites? && !actions[k].ok)
  }

  lemma SomeStepSucceeds(s: Session) returns (a: Action)
    requires !Quiet(s)
    ensures Enabled(s, a) && !Environment(a) && !(a.WriterWrites? && !a.ok)
  {
    a :| !Environment(a) && Enabled(s, a);
    if a.WriterWrites? {
      a := WriterWrites(a.i, true);
    }
  }

  /** From every state, session code can go on undisturbed until it has nothing left to do. */
  lemma {:induction false} DrainExists(s: Session) returns (actions: seq<Action>)
    requires Inv(s)
    ensures IsRun(s, actions) && IsUndisturbed(actions) && Quiet(Run(s, actions))
    decreases Measure(s)
  {
    if Quiet(s) {
      return [];
    }
    var a := SomeStepSucceeds(s);
    StepLowersMeasure(s, a);
    StepKeepsInv(s, a);
    var rest := DrainExists(Apply(s, a));
    actions := [a] + rest;
    assert actions[1..] == rest;
  }

  lemma {:induction false} NothingArrives(actions: seq<Action>, i: nat)
    requires IsUndisturbed(actions)
    ensures PayloadsOf(actions, i) == [] && !Cancels(actions) && !SomeWriteFails(actions) && RedisCloses(i) !in actions
    decreases |actions|
  {
    if actions != [] {
      assert actions == [actions[0]] + actions[1..];
      assert !Environment(actions[0]);
      NothingArrives(actions[1..], i);
      SomeWriteFailsCons(actions);
    }
  }

  /** An undisturbed session can always catch up with what Redis has delivered. */
  lemma SessionCanCatchUp(s: Session, i: nat) returns (actions: seq<Action>)
    requires Inv(s) && i < |s.subs| && !s.cancelled && !s.writeFailed && !RedisIsClosed(s, i)
    ensures IsRun(s, actions) && IsUndisturbed(actions)
    ensures var t := Run(s, actions);
            && Inv(t) && i < |t.subs| && t.subs[i].history == s.subs[i].history
            && Delivered(t.log, i) == Decoded(s.subs[i].history)
  {
    actions := DrainExists(s);
    var t := Run(s, actions);
    RunKeepsInv(s, actions);
    NothingArrives(actions, i);
    FlagsTellActions(s, actions);
    HistoryIsDelivered(s, actions, i);
    ClosedByActions(s, actions, i);
    assert s.subs[i].history + [] == s.subs[i].history;
    QuietMeansDelivered(t, i);
  }

  lemma {:induction false} CancelledStaysInRun(s: Session, actions: seq<Action>)
    requires IsRun(s, actions) && s.cancelled && !s.request.Reading?
    ensures Run(s, actions).cancelled && !Run(s, actions).request.Reading?
    decreases |actions|
  {
    if actions != [] {
      CancelledStays(s, actions[0]);
      CancelledStaysInRun(Apply(s, actions[0]), actions[1..]);
    }
  }

  /**
    Shutdown.  Take any reachable state in which the read pump has ended, and any continuation of
    it.  Session code takes at most `Measure` steps plus nine for every event Redis still delivers;
    and when no step of session code is left, every goroutine and the request have returned.
   */
  lemma ShutdownCompletes(convs: seq<Id>, before: seq<Action>, after: seq<Action>)
    requires IsRun(Open(convs), before)
    requires var s := Run(Open(convs), before); !s.request.Reading? && IsRun(s, after)
    ensures var s := Run(Open(convs), before);
            var t := Run(s, after);
            && CountInternal(after) <= Measure(s) + 9 * CountDeliveries(after)
            && (Quiet(t) ==> WoundDown(t))
  {
    var s := Run(Open(convs), before);
    var t := Run(s, after);
    OpenEstablishesInv(convs);
    RunKeepsInv(Open(convs), before);
    RunKeepsInv(s, after);
    RunIsBounded(s, after);
    CancelledStaysInRun(s, after);
    if !WoundDown(t) {
      var a := CancelledCanMove(t);
    }
  }

  /**
    Channel hygiene in every reachable state: nothing was sent on a closed channel, nothing was
    closed twice, a channel is closed exactly when its sender has returned, and the request
    returns only after every writer has, whereupon Redis delivers nothing any more.
   */
  lemma ClosedOnceAndInOrder(convs: seq<Id>, actions: seq<Action>)
    requires IsRun(Open(convs), actions)
    ensures var t := Run(Open(convs), actions);
            && t.panics == 0
            && t.doneCloses <= 1
            && (forall i :: 0 <= i < |t.subs| ==>
                  && t.subs[i].outCloses == (if t.subs[i].reader.ReaderExited? then 1 else 0)
                  && t.subs[i].msgCloses == (if t.subs[i].forwarder.ForwarderExited? then 1 else 0))
            && (t.request.Returned? || t.doneCloses > 0 ==>
                  forall i :: 0 <= i < |t.subs| ==> t.subs[i].writer.WriterExited?)
            && (t.request.Returned? ==> forall i: nat, payload :: !Enabled(t, RedisDelivers(i, payload)))
  {
    var t := Run(Open(convs), actions);
    OpenEstablishesInv(convs);
    RunKeepsInv(Open(convs), actions);
    LiveWritersZero(t.subs);
    forall i | 0 <= i < |t.subs|
      ensures Disciplined(t.subs[i])
    {
      assert SubOk(t, i);
    }
  }
}
