/** Order, conservation and delivery: what every interleaving of a session keeps. */
module PipelineOrder {
  import opened Entities
  import opened Pipeline

  lemma DecodedSnoc(ps: seq<Payload>, p: Payload)
    ensures Decoded(ps + [p]) == Decoded(ps) + (if p.Event? then [p.message] else [])
  {
    assert (ps + [p])[..|ps|] == ps;
  }

  lemma DeliveredSnoc(log: seq<Written>, w: Written, i: nat)
    ensures Delivered(log + [w], i) == Delivered(log, i) + (if w.sub == i then [w.message] else [])
  {
    assert (log + [w])[..|log|] == log;
  }

  lemma {:induction false} DecodedConcat(ps: seq<Payload>, qs: seq<Payload>)
    ensures Decoded(ps + qs) == Decoded(ps) + Decoded(qs)
    decreases |qs|
  {
    if qs == [] {
      assert ps + qs == ps;
    } else {
      var init, last := qs[..|qs| - 1], qs[|qs| - 1];
      assert ps + qs == (ps + init) + [last] && qs == init + [last];
      DecodedConcat(ps, init);
      DecodedSnoc(ps + init, last);
      DecodedSnoc(init, last);
    }
  }

  lemma {:induction false} LiveWritersUpdate(subs: seq<Sub>, i: nat, sub: Sub)
    requires i < |subs|
    ensures LiveWriters(subs[i := sub]) ==
            LiveWriters(subs) - Flag(!subs[i].writer.WriterExited?) + Flag(!sub.writer.WriterExited?)
    decreases |subs|
  {
    var init := subs[..|subs| - 1];
    if i == |subs| - 1 {
      assert subs[i := sub][..|subs| - 1] == init;
    } else {
      assert subs[i := sub][..|subs| - 1] == init[i := sub];
      LiveWritersUpdate(init, i, sub);
    }
  }

  lemma {:induction false} LiveWritersZero(subs: seq<Sub>)
    ensures LiveWriters(subs) <= |subs|
    ensures LiveWriters(subs) == 0 <==> forall i :: 0 <= i < |subs| ==> subs[i].writer.WriterExited?
    decreases |subs|
  {
    if subs != [] {
      LiveWritersZero(subs[..|subs| - 1]);
    }
  }

  lemma {:induction false} LiveWritersFresh(convs: seq<Id>, n: nat)
    requires n <= |convs|
    ensures LiveWriters(Open(convs).subs[..n]) == n
  {
    if n > 0 {
      LiveWritersFresh(convs, n - 1);
      assert Open(convs).subs[..n][..n - 1] == Open(convs).subs[..n - 1];
    }
  }

  lemma OpenEstablishesInv(convs: seq<Id>)
    ensures Inv(Open(convs))
  {
    LiveWritersFresh(convs, |convs|);
    assert Open(convs).subs[..|convs|] == Open(convs).subs;
  }

  /** What a step of this subscription adds to the frame log. */
  function WrittenBy(sub: Sub, a: Action): seq<ChatMessage> {
    if a.WriterWrites? && a.ok && sub.writer.WriterLocked? then [sub.writer.msg] else []
  }

  // One lemma per hand-over point: the message changes hands and keeps its place in line.

  lemma PushConserves(sub: Sub)
    requires sub.reader.ReaderHolding?
    ensures InFlight(sub.(buffer := sub.buffer + [sub.reader.event], reader := ReaderSelecting)) == InFlight(sub)
  {
  }

  lemma ReceiveConserves(sub: Sub)
    requires sub.forwarder.ForwarderSelecting? && sub.buffer != []
    ensures InFlight(sub.(buffer := sub.buffer[1..], forwarder := ForwarderHolding(sub.buffer[0]))) == InFlight(sub)
  {
    assert [sub.buffer[0]] + sub.buffer[1..] == sub.buffer;
  }

  lemma HandOverConserves(sub: Sub)
    requires sub.forwarder.ForwarderHolding? && sub.writer.WriterRanging?
    ensures InFlight(sub.(forwarder := ForwarderSelecting, writer := WriterHolding(sub.forwarder.event))) == InFlight(sub)
  {
  }

  lemma WriteConserves(sub: Sub)
    requires sub.writer.WriterLocked?
    ensures [sub.writer.msg] + InFlight(sub.(writer := WriterWritten([]))) == InFlight(sub)
    ensures InFlight(sub.(writer := WriterWritten([sub.writer.msg]))) == InFlight(sub)
  {
  }

  /** A step moves messages along the pipe: none is duplicated, reordered or dropped from the account. */
  lemma MovesConserve(sub: Sub, a: Action, cancelled: bool, redisClosed: bool)
    requires Ready(sub, a, cancelled, redisClosed) && Disciplined(sub)
    requires !a.ReaderReceives?
    ensures WrittenBy(sub, a) + InFlight(SubStep(sub, a)) == InFlight(sub)
  {
    match a
    case ReaderPushes(_) => PushConserves(sub);
    case ForwarderReceives(_) => ReceiveConserves(sub);
    case HandsOver(_) => HandOverConserves(sub);
    case WriterWrites(_, _) => WriteConserves(sub);
    case _ =>
  }

  lemma ReceptionExtends(sub: Sub, out: seq<ChatMessage>)
    requires Conserved(sub, out) && sub.reader.ReaderSelecting? && sub.consumed < |sub.history|
    ensures Conserved(SubStep(sub, ReaderReceives(0)), out)
  {
    var p := sub.history[sub.consumed];
    var seen := sub.history[..sub.consumed];
    DecodedSnoc(seen, p);
    assert sub.history[..sub.consumed + 1] == seen + [p];
    var ahead := HeldByWriter(sub.writer) + HeldByForwarder(sub.forwarder) + sub.buffer;
    assert InFlight(sub) == ahead;
  }

  lemma SubStepKeepsDiscipline(sub: Sub, a: Action, cancelled: bool, redisClosed: bool)
    requires Disciplined(sub) && Ready(sub, a, cancelled, redisClosed)
    ensures Disciplined(SubStep(sub, a))
  {
  }

  lemma MoveKeepsPosition(sub: Sub, a: Action)
    requires !a.ReaderReceives?
    ensures SubStep(sub, a).consumed == sub.consumed && sub.history <= SubStep(sub, a).history
  {
  }

  lemma MoveExtends(sub: Sub, sub': Sub, out: seq<ChatMessage>, written: seq<ChatMessage>)
    requires Conserved(sub, out) && written + InFlight(sub') == InFlight(sub)
    requires sub'.consumed == sub.consumed && sub.history <= sub'.history
    ensures Conserved(sub', out + written)
  {
    assert (out + written) + InFlight(sub') == out + (written + InFlight(sub'));
    assert sub'.history[..sub.consumed] == sub.history[..sub.consumed];
  }

  lemma SubStepConserves(sub: Sub, a: Action, cancelled: bool, redisClosed: bool, out: seq<ChatMessage>)
    requires Disciplined(sub) && Conserved(sub, out) && Ready(sub, a, cancelled, redisClosed)
    ensures Conserved(SubStep(sub, a), out + WrittenBy(sub, a))
  {
    if a.ReaderReceives? {
      ReceptionExtends(sub, out);
      assert SubStep(sub, a) == SubStep(sub, ReaderReceives(0));
      assert out + [] == out;
    } else {
      MovesConserve(sub, a, cancelled, redisClosed);
      MoveKeepsPosition(sub, a);
      MoveExtends(sub, SubStep(sub, a), out, WrittenBy(sub, a));
    }
  }

  lemma SubStepKeepsExits(sub: Sub, a: Action, cancelled: bool, redisClosed: bool, writeFailed: bool)
    requires Disciplined(sub) && Ready(sub, a, cancelled, redisClosed)
    requires ExitsOk(sub, cancelled, redisClosed, writeFailed)
    ensures ExitsOk(SubStep(sub, a), cancelled, redisClosed || a.RedisCloses?,
                    writeFailed || (a.WriterWrites? && !a.ok))
  {
  }

  /** What a step may change outside the acting subscription. */
  lemma ApplyShape(s: Session, a: Action)
    requires Enabled(s, a)
    ensures var t := Apply(s, a);
            && t.subs == (match IndexOf(a) case Some(i) => s.subs[i := SubStep(s.subs[i], a)] case None => s.subs)
            && (s.cancelled ==> t.cancelled) && (s.writeFailed ==> t.writeFailed)
            && (s.request.Returned? ==> t.request.Returned?)
            && (IndexOf(a).Some? ==> t.cancelled == s.cancelled && t.request == s.request)
            && t.writeFailed == (s.writeFailed || (a.WriterWrites? && !a.ok))
  {
  }

  lemma DeliveredAfter(s: Session, a: Action, j: nat)
    requires Enabled(s, a) && j < |s.subs|
    ensures Delivered(Apply(s, a).log, j) ==
            Delivered(s.log, j) + (if IndexOf(a) == Some(j) then WrittenBy(s.subs[j], a) else [])
  {
    if a.WriterWrites? && a.ok {
      var m := s.subs[a.i].writer.msg;
      DeliveredSnoc(s.log, Written(a.i, m, FrameOf(s.subs[a.i].conv, m)), j);
    }
  }

  lemma ActorStaysOk(s: Session, a: Action, j: nat)
    requires SubsOk(s) && Enabled(s, a) && IndexOf(a) == Some(j)
    ensures SubOk(Apply(s, a), j)
  {
    var t := Apply(s, a);
    ApplyShape(s, a);
    DeliveredAfter(s, a, j);
    assert SubOk(s, j);
    SubStepKeepsDiscipline(s.subs[j], a, s.cancelled, RedisIsClosed(s, j));
    SubStepConserves(s.subs[j], a, s.cancelled, RedisIsClosed(s, j), Delivered(s.log, j));
    SubStepKeepsExits(s.subs[j], a, s.cancelled, RedisIsClosed(s, j), s.writeFailed);
  }

  lemma OthersStayOk(s: Session, a: Action, j: nat)
    requires SubsOk(s) && Enabled(s, a) && IndexOf(a) != Some(j) && j < |s.subs|
    ensures j < |Apply(s, a).subs| && SubOk(Apply(s, a), j)
  {
    ApplyShape(s, a);
    DeliveredAfter(s, a, j);
    assert SubOk(s, j);
    assert Delivered(s.log, j) + [] == Delivered(s.log, j);
  }

  lemma StepKeepsSubs(s: Session, a: Action)
    requires SubsOk(s) && Enabled(s, a)
    ensures SubsOk(Apply(s, a))
  {
    ApplyShape(s, a);
    forall j | 0 <= j < |Apply(s, a).subs|
      ensures SubOk(Apply(s, a), j)
    {
      if IndexOf(a) == Some(j) {
        ActorStaysOk(s, a, j);
      } else {
        OthersStayOk(s, a, j);
      }
    }
  }

  lemma StepKeepsLock(s: Session, a: Action)
    requires LockOk(s) && SubsOk(s) && Enabled(s, a)
    ensures LockOk(Apply(s, a))
  {
    var t := Apply(s, a);
    ApplyShape(s, a);
    forall i | 0 <= i < |t.subs|
      ensures t.lock == Some(i) <==> OwnsLock(t.subs[i].writer)
    {
      assert s.lock == Some(i) <==> OwnsLock(s.subs[i].writer);
      assert SubOk(s, i);
    }
  }

  lemma StepKeepsFrames(s: Session, a: Action)
    requires FramesOk(s) && Enabled(s, a)
    ensures FramesOk(Apply(s, a))
  {
    var t := Apply(s, a);
    ApplyShape(s, a);
    assert forall i :: 0 <= i < |s.subs| ==> t.subs[i].conv == s.subs[i].conv;
    if a.WriterWrites? {
      assert t.log[..|s.log|] == s.log;
    }
  }

  lemma StepKeepsEnd(s: Session, a: Action)
    requires SubsOk(s) && EndOk(s) && Enabled(s, a)
    ensures EndOk(Apply(s, a))
  {
    ApplyShape(s, a);
    LiveWritersZero(s.subs);
    match IndexOf(a)
    case None =>
    case Some(i) =>
      assert SubOk(s, i);
      LiveWritersUpdate(s.subs, i, SubStep(s.subs[i], a));
  }

  lemma StepKeepsInv(s: Session, a: Action)
    requires Inv(s) && Enabled(s, a)
    ensures Inv(Apply(s, a))
  {
    StepKeepsSubs(s, a);
    StepKeepsLock(s, a);
    StepKeepsFrames(s, a);
    StepKeepsEnd(s, a);
  }

  lemma {:induction false} RunKeepsInv(s: Session, actions: seq<Action>)
    requires Inv(s) && IsRun(s, actions)
    ensures Inv(Run(s, actions))
    decreases |actions|
  {
    if actions != [] {
      StepKeepsInv(s, actions[0]);
      RunKeepsInv(Apply(s, actions[0]), actions[1..]);
    }
  }

  // ---------------------------------------------------------------- results over all runs

  lemma {:induction false} RunKeepsSubscriptions(s: Session, actions: seq<Action>)
    requires IsRun(s, actions)
    ensures |Run(s, actions).subs| == |s.subs|
    ensures forall i :: 0 <= i < |s.subs| ==> Run(s, actions).subs[i].conv == s.subs[i].conv
    decreases |actions|
  {
    if actions != [] {
      ApplyShape(s, actions[0]);
      RunKeepsSubscriptions(Apply(s, actions[0]), actions[1..]);
    }
  }

  /** What goroutines of this subscription threw away when they returned. */
  function Lost(sub: Sub): seq<ChatMessage> {
    (if sub.writer.WriterExited? || sub.writer.WriterFailed? || sub.writer.WriterWritten? then sub.writer.lost else [])
    + (if sub.forwarder.ForwarderExited? then sub.forwarder.lost else [])
    + (if sub.reader.ReaderExited? then sub.reader.lost else [])
  }

  /** A subscription's frames, what is in flight and what is still to come. */
  lemma SubscriptionAccount(s: Session, i: nat)
    requires i < |s.subs| && SubOk(s, i)
    ensures var sub := s.subs[i];
            && sub.consumed <= |sub.history| && |sub.buffer| <= 16
            && (sub.reader.ReaderHolding? ==> (Enabled(s, ReaderPushes(i)) <==> |sub.buffer| < 16))
            && Delivered(s.log, i) + InFlight(sub) + Decoded(sub.history[sub.consumed..]) == Decoded(sub.history)
            && Delivered(s.log, i) <= Decoded(sub.history)
            && (!s.cancelled && !s.writeFailed ==> Lost(sub) == [])
  {
    var sub := s.subs[i];
    assert sub.history[..sub.consumed] + sub.history[sub.consumed..] == sub.history;
    DecodedConcat(sub.history[..sub.consumed], sub.history[sub.consumed..]);
  }

  /**
    In every reachable state, cancelled or not and after any write error, the frames of a
    subscription are a prefix of the decodable events of its channel; together with what is in
    flight and what is still to come they are the whole stream.  A reader waits for room only while 16
    events are buffered, and nothing is thrown away before a cancellation or a write error.
   */
  lemma SubscriptionOrder(convs: seq<Id>, actions: seq<Action>, i: nat)
    requires IsRun(Open(convs), actions) && i < |convs|
    ensures var t := Run(Open(convs), actions);
            && i < |t.subs| && t.subs[i].conv == convs[i]
            && t.subs[i].consumed <= |t.subs[i].history|
            && |t.subs[i].buffer| <= 16
            && (t.subs[i].reader.ReaderHolding? ==> (Enabled(t, ReaderPushes(i)) <==> |t.subs[i].buffer| < 16))
            && Delivered(t.log, i) <= Decoded(t.subs[i].history)
            && Delivered(t.log, i) + InFlight(t.subs[i]) + Decoded(t.subs[i].history[t.subs[i].consumed..])
                 == Decoded(t.subs[i].history)
            && (!t.cancelled && !t.writeFailed ==> Lost(t.subs[i]) == [])
  {
    OpenEstablishesInv(convs);
    RunKeepsInv(Open(convs), actions);
    RunKeepsSubscriptions(Open(convs), actions);
    SubscriptionAccount(Run(Open(convs), actions), i);
  }

  /**
    The frame log merges the subscriptions: every entry belongs to one of them, the entries of each
    are in channel order, and a frame says what its message says, under the conversation that was
    subscribed to.
   */
  lemma SocketMergesSubscriptions(convs: seq<Id>, actions: seq<Action>)
    requires IsRun(Open(convs), actions)
    ensures var t := Run(Open(convs), actions);
            && |t.subs| == |convs|
            && (forall i :: 0 <= i < |convs| ==> Delivered(t.log, i) <= Decoded(t.subs[i].history))
            && (forall k :: 0 <= k < |t.log| ==>
                  && t.log[k].sub < |convs|
                  && t.log[k].frame.conversationId == convs[t.log[k].sub]
                  && t.log[k].frame.id == t.log[k].message.id
                  && t.log[k].frame.personId == t.log[k].message.personId
                  && t.log[k].frame.senderName == t.log[k].message.senderName
                  && t.log[k].frame.content == t.log[k].message.content
                  && t.log[k].frame.createdAt == t.log[k].message.createdAt)
  {
    var t := Run(Open(convs), actions);
    OpenEstablishesInv(convs);
    RunKeepsInv(Open(convs), actions);
    RunKeepsSubscriptions(Open(convs), actions);
    forall i | 0 <= i < |convs|
      ensures Delivered(t.log, i) <= Decoded(t.subs[i].history)
    {
      SubscriptionOrder(convs, actions, i);
    }
  }

  /** No step of session code is possible. */
  ghost predicate Quiet(s: Session) {
    forall a :: !Environment(a) ==> !Enabled(s, a)
  }

  lemma LockOwnerCanMove(s: Session)
    requires LockOk(s) && s.lock.Some?
    ensures Enabled(s, WriterWrites(s.lock.value, true)) || Enabled(s, WriterUnlocks(s.lock.value))
  {
    assert OwnsLock(s.subs[s.lock.value].writer);
  }

  lemma NoWriterIsStuck(s: Session, i: nat)
    requires Inv(s) && i < |s.subs| && !s.cancelled && !s.writeFailed && !RedisIsClosed(s, i)
    requires Quiet(s)
    ensures s.subs[i].writer.WriterRanging?
  {
    assert SubOk(s, i);
    if s.lock.Some? {
      LockOwnerCanMove(s);
    }
    assert !Enabled(s, WriterLocks(i));
    assert s.lock == Some(i) <==> OwnsLock(s.subs[i].writer);
  }

  /** While the session is undisturbed, a state in which session code has nothing left to do has delivered everything. */
  lemma QuietMeansDelivered(s: Session, i: nat)
    requires Inv(s) && i < |s.subs| && !s.cancelled && !s.writeFailed && !RedisIsClosed(s, i)
    requires Quiet(s)
    ensures Delivered(s.log, i) == Decoded(s.subs[i].history)
  {
    var sub := s.subs[i];
    assert SubOk(s, i);
    NoWriterIsStuck(s, i);
    assert !Enabled(s, ReaderReceives(i)) && !Enabled(s, ReaderPushes(i));
    assert !Enabled(s, ForwarderReceives(i)) && !Enabled(s, HandsOver(i));
    assert sub.history[..sub.consumed] == sub.history;
    assert InFlight(sub) == [];
  }

  // ---------------------------------------------------------------- what a run says about its end

  function ArrivesBy(a: Action, i: nat): seq<Payload> {
    if a.RedisDelivers? && a.i == i then [a.payload] else []
  }

  /** What Redis delivered for a subscription. */
  function PayloadsOf(actions: seq<Action>, i: nat): seq<Payload> {
    if actions == [] then []
    else ArrivesBy(actions[0], i) + PayloadsOf(actions[1..], i)
  }

  predicate SomeWriteFails(actions: seq<Action>) {
    exists k :: 0 <= k < |actions| && actions[k].WriterWrites? && !actions[k].ok
  }

  lemma SomeWriteFailsCons(actions: seq<Action>)
    requires actions != []
    ensures SomeWriteFails(actions) <==> (actions[0].WriterWrites? && !actions[0].ok) || SomeWriteFails(actions[1..])
  {
    var rest := actions[1..];
    if SomeWriteFails(rest) {
      var k :| 0 <= k < |rest| && rest[k].WriterWrites? && !rest[k].ok;
      assert actions[k + 1] == rest[k];
    }
    if SomeWriteFails(actions) {
      var k :| 0 <= k < |actions| && actions[k].WriterWrites? && !actions[k].ok;
      assert k > 0 ==> rest[k - 1] == actions[k];
    }
  }

  predicate Cancels(actions: seq<Action>) {
    ParentCancels in actions || ReadFails in actions
  }

  /** What one action does to what the environment decides. */
  lemma FlagsStep(s: Session, a: Action)
    requires Enabled(s, a)
    ensures var t := Apply(s, a);
            && (t.cancelled <==> s.cancelled || a.ParentCancels? || a.ReadFails?)
            && (t.writeFailed <==> s.writeFailed || (a.WriterWrites? && !a.ok))
  {
    ApplyShape(s, a);
  }

  lemma SubStepArrivals(sub: Sub, a: Action, i: nat)
    requires IndexOf(a) == Some(i)
    ensures SubStep(sub, a).redisClosed <==> sub.redisClosed || a == RedisCloses(i)
    ensures SubStep(sub, a).history == sub.history + ArrivesBy(a, i)
  {
  }

  lemma SubscriptionStep(s: Session, a: Action, i: nat)
    requires Enabled(s, a) && i < |s.subs|
    ensures var t := Apply(s, a);
            && |t.subs| == |s.subs|
            && (t.subs[i].redisClosed <==> s.subs[i].redisClosed || a == RedisCloses(i))
            && t.subs[i].history == s.subs[i].history + ArrivesBy(a, i)
  {
    ApplyShape(s, a);
    if IndexOf(a) == Some(i) {
      SubStepArrivals(s.subs[i], a, i);
    }
  }

  lemma {:induction false} FlagsTellActions(s: Session, actions: seq<Action>)
    requires IsRun(s, actions)
    ensures Run(s, actions).cancelled <==> s.cancelled || Cancels(actions)
    ensures Run(s, actions).writeFailed <==> s.writeFailed || SomeWriteFails(actions)
    decreases |actions|
  {
    if actions != [] {
      assert actions == [actions[0]] + actions[1..];
      FlagsStep(s, actions[0]);
      FlagsTellActions(Apply(s, actions[0]), actions[1..]);
      SomeWriteFailsCons(actions);
    }
  }

  lemma {:induction false} HistoryIsDelivered(s: Session, actions: seq<Action>, i: nat)
    requires IsRun(s, actions) && i < |s.subs|
    ensures i < |Run(s, actions).subs| && Run(s, actions).subs[i].history == s.subs[i].history + PayloadsOf(actions, i)
    decreases |actions|
  {
    if actions == [] {
      assert s.subs[i].history + [] == s.subs[i].history;
    } else {
      SubscriptionStep(s, actions[0], i);
      HistoryIsDelivered(Apply(s, actions[0]), actions[1..], i);
      var before, now, rest := s.subs[i].history, ArrivesBy(actions[0], i), PayloadsOf(actions[1..], i);
      assert (before + now) + rest == before + (now + rest);
    }
  }

  lemma {:induction false} ClosedByActions(s: Session, actions: seq<Action>, i: nat)
    requires IsRun(s, actions) && i < |s.subs|
    ensures i < |Run(s, actions).subs|
    ensures Run(s, actions).subs[i].redisClosed <==> s.subs[i].redisClosed || RedisCloses(i) in actions
    decreases |actions|
  {
    if actions != [] {
      assert actions == [actions[0]] + actions[1..];
      SubscriptionStep(s, actions[0], i);
      ClosedByActions(Apply(s, actions[0]), actions[1..], i);
    }
  }

  ghost predicate AllExited(sub: Sub) {
    sub.reader.ReaderExited? && sub.forwarder.ForwarderExited? && sub.writer.WriterExited?
  }

  /** Without failures a quiet session's writers wait for more, or have returned because there is none. */
  lemma QuietWriter(s: Session, i: nat)
    requires Inv(s) && i < |s.subs| && !s.writeFailed && Quiet(s)
    ensures s.subs[i].writer.WriterRanging? || s.subs[i].writer.WriterExited?
  {
    assert SubOk(s, i);
    if s.lock.Some? {
      LockOwnerCanMove(s);
    }
    assert !Enabled(s, WriterLocks(i)) && !Enabled(s, WriterReturns(i));
    assert s.lock == Some(i) <==> OwnsLock(s.subs[i].writer);
  }

  /** Whether one goroutine has a step left depends on its neighbours: first the writer, then the forwarder, then the reader. */
  lemma QuietForwarder(s: Session, i: nat)
    requires i < |s.subs| && SubOk(s, i) && Quiet(s) && (s.subs[i].writer.WriterRanging? || s.subs[i].writer.WriterExited?)
    requires !s.cancelled && !s.writeFailed
    ensures var sub := s.subs[i];
            sub.buffer == [] && !sub.forwarder.ForwarderHolding? && (sub.forwarder.ForwarderExited? <==> sub.reader.ReaderExited?)
  {
    assert !Enabled(s, ForwarderReceives(i)) && !Enabled(s, HandsOver(i)) && !Enabled(s, ForwarderReturns(i));
  }

  lemma QuietReader(s: Session, i: nat)
    requires i < |s.subs| && SubOk(s, i) && Quiet(s) && s.subs[i].buffer == [] && RedisIsClosed(s, i) && !s.cancelled
    ensures s.subs[i].reader.ReaderExited? && s.subs[i].consumed == |s.subs[i].history|
  {
    assert !Enabled(s, ReaderReceives(i)) && !Enabled(s, ReaderPushes(i)) && !Enabled(s, ReaderReturns(i));
  }

  /** A subscription that Redis closed is drained before its goroutines return. */
  lemma QuietMeansDrained(s: Session, i: nat)
    requires Inv(s) && i < |s.subs| && !s.cancelled && !s.writeFailed && RedisIsClosed(s, i) && Quiet(s)
    ensures Delivered(s.log, i) == Decoded(s.subs[i].history) && AllExited(s.subs[i])
  {
    assert SubOk(s, i);
    QuietWriter(s, i);
    QuietForwarder(s, i);
    QuietReader(s, i);
    assert !Enabled(s, WriterReturns(i));
    assert s.subs[i].history[..s.subs[i].consumed] == s.subs[i].history;
    assert InFlight(s.subs[i]) == [];
  }

  lemma NobodyLeftEarly(s: Session, i: nat)
    requires Inv(s) && i < |s.subs| && !s.cancelled && !s.writeFailed && !RedisIsClosed(s, i)
    ensures !s.subs[i].reader.ReaderExited? && !s.subs[i].forwarder.ForwarderExited? && !s.subs[i].writer.WriterExited?
  {
    assert SubOk(s, i);
  }

  /**
    Nothing is forgotten, told from the run alone: if nobody cancelled and no write failed, and no step
    of session code is left, then everything decodable that Redis delivered for a subscription has been
    written, in order; and its goroutines have returned exactly if Redis closed it.
   */
  lemma QuietRunHasDelivered(convs: seq<Id>, actions: seq<Action>, i: nat)
    requires IsRun(Open(convs), actions) && i < |convs|
    requires !Cancels(actions) && !SomeWriteFails(actions) && Quiet(Run(Open(convs), actions))
    ensures var t := Run(Open(convs), actions);
            && i < |t.subs|
            && Delivered(t.log, i) == Decoded(PayloadsOf(actions, i))
            && (RedisCloses(i) in actions ==> AllExited(t.subs[i]))
            && (RedisCloses(i) !in actions ==>
                  !t.subs[i].reader.ReaderExited? && !t.subs[i].forwarder.ForwarderExited? && !t.subs[i].writer.WriterExited?)
  {
    var t := Run(Open(convs), actions);
    OpenEstablishesInv(convs);
    RunKeepsInv(Open(convs), actions);
    FlagsTellActions(Open(convs), actions);
    HistoryIsDelivered(Open(convs), actions, i);
    ClosedByActions(Open(convs), actions, i);
    assert [] + PayloadsOf(actions, i) == PayloadsOf(actions, i);
    if RedisIsClosed(t, i) {
      QuietMeansDrained(t, i);
    } else {
      QuietMeansDelivered(t, i);
      NobodyLeftEarly(t, i);
    }
  }
}
