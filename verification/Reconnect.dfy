/** The browser's WebSocket hook: connecting, reconnecting after a delay, and cleaning up. */
module Reconnect {
  import opened Entities

  /** Normal closure, section 7.4.1 of RFC 6455. */
  const NORMAL_CLOSURE := 1000

  datatype ReadyState = Connecting | Open | Closing | Closed

  /** `hasOnClose` is false once cleanup detached the handler. */
  datatype Socket = Socket(effect: nat, state: ReadyState, hasOnClose: bool)

  datatype Timer = Timer(effect: nat, armed: bool)

  /** The closure variables of one run of the effect; `ended` marks one whose socket closed for good. */
  datatype Effect = Effect(reconnectTimer: Option<nat>, intentionalClose: bool, ended: bool)

  /** `current` is the effect that React has not cleaned up yet. */
  datatype Hook = Hook(
    wsRef: Option<nat>,
    sockets: seq<Socket>,
    timers: seq<Timer>,
    effects: seq<Effect>,
    current: Option<nat>)

  datatype Event =
    | EffectRuns(hasBuId: bool)
    | CleansUp
    | Opens(w: nat)
    | MessageArrives(w: nat)
    | Errors(w: nat)
    | Closes(w: nat, code: nat)
    | TimerFires(t: nat)

  predicate Enabled(s: Hook, e: Event) {
    match e
    case EffectRuns(_) => s.current.None?
    case CleansUp => s.current.Some? && s.current.value < |s.effects|
    case Opens(w) => w < |s.sockets| && s.sockets[w].state.Connecting? && s.sockets[w].effect < |s.effects|
    case MessageArrives(w) => w < |s.sockets| && s.sockets[w].state.Open?
    case Errors(w) => w < |s.sockets| && !s.sockets[w].state.Closed?
    case Closes(w, _) => w < |s.sockets| && !s.sockets[w].state.Closed? && s.sockets[w].effect < |s.effects|
    case TimerFires(t) => t < |s.timers| && s.timers[t].armed
  }

  function Connected(s: Hook, effect: nat): Hook {
    s.(sockets := s.sockets + [Socket(effect, Connecting, true)], wsRef := Some(|s.sockets|))
  }

  /** clearTimeout, which ignores timers that fired or were cleared before. */
  function Disarm(timers: seq<Timer>, t: Option<nat>): seq<Timer> {
    if t.Some? && t.value < |timers| then timers[t.value := timers[t.value].(armed := false)] else timers
  }

  function CloseSocket(sockets: seq<Socket>, w: nat): seq<Socket>
    requires w < |sockets|
  {
    if sockets[w].state.Closed? then sockets else sockets[w := sockets[w].(state := Closing)]
  }

  function AfterCleanup(s: Hook): Hook
    requires Enabled(s, CleansUp)
  {
    var e := s.current.value;
    var s1 := s.(effects := s.effects[e := s.effects[e].(intentionalClose := true)],
                 timers := Disarm(s.timers, s.effects[e].reconnectTimer),
                 current := None);
    if s.wsRef.Some? && s.wsRef.value < |s.sockets| then
      var w := s.wsRef.value;
      s1.(sockets := CloseSocket(s.sockets[w := s.sockets[w].(hasOnClose := false)], w), wsRef := None)
    else s1
  }

  function AfterClose(s: Hook, w: nat, code: nat): Hook
    requires Enabled(s, Closes(w, code))
  {
    var s1 := s.(sockets := s.sockets[w := s.sockets[w].(state := Closed)]);
    var e := s.sockets[w].effect;
    if !s.sockets[w].hasOnClose then s1
    else if !s.effects[e].intentionalClose && code != NORMAL_CLOSURE then
      s1.(wsRef := None,
          timers := s.timers + [Timer(e, true)],
          effects := s.effects[e := s.effects[e].(reconnectTimer := Some(|s.timers|))])
    else s1.(wsRef := None, effects := s.effects[e := s.effects[e].(ended := true)])
  }

  function Apply(s: Hook, e: Event): Hook
    requires Enabled(s, e)
  {
    match e
    case EffectRuns(hasBuId) =>
      if !hasBuId then s
      else
        Connected(s.(effects := s.effects + [Effect(None, false, false)], current := Some(|s.effects|)), |s.effects|)
    case CleansUp => AfterCleanup(s)
    case Opens(w) =>
      var e := s.sockets[w].effect;
      s.(sockets := s.sockets[w := s.sockets[w].(state := Open)],
         timers := Disarm(s.timers, s.effects[e].reconnectTimer),
         effects := s.effects[e := s.effects[e].(reconnectTimer := None)])
    case MessageArrives(_) => s
    case Errors(w) => s.(sockets := CloseSocket(s.sockets, w))
    case Closes(w, code) => AfterClose(s, w, code)
    case TimerFires(t) => Connected(s.(timers := s.timers[t := s.timers[t].(armed := false)]), s.timers[t].effect)
  }

  const INITIAL: Hook := Hook(None, [], [], [], None)

  predicate IsRun(s: Hook, events: seq<Event>)
    decreases |events|
  {
    events == [] || (Enabled(s, events[0]) && IsRun(Apply(s, events[0]), events[1..]))
  }

  function Run(s: Hook, events: seq<Event>): Hook
    requires IsRun(s, events)
    decreases |events|
  {
    if events == [] then s else Run(Apply(s, events[0]), events[1..])
  }

  // ---------------------------------------------------------------- invariant

  /** A socket that can still call the hook back when it closes. */
  predicate Live(socket: Socket) {
    socket.hasOnClose && !socket.state.Closed?
  }

  predicate HasArmedTimer(s: Hook) {
    exists t :: 0 <= t < |s.timers| && s.timers[t].armed
  }

  /** Closure variables: an effect is intentionally closed exactly once React cleaned it up. */
  ghost predicate EffectsOk(s: Hook) {
    && (s.current.Some? ==> s.current.value < |s.effects|)
    && (forall e :: 0 <= e < |s.effects| ==> (s.effects[e].intentionalClose <==> s.current != Some(e)))
    && (forall w :: 0 <= w < |s.sockets| ==> s.sockets[w].effect < |s.effects|)
    && (forall t :: 0 <= t < |s.timers| ==> s.timers[t].effect < |s.effects|)
  }

  /** The ref is null or the current effect's socket, and no other socket is live. */
  ghost predicate SocketsOk(s: Hook) {
    && (s.wsRef.Some? ==>
          s.wsRef.value < |s.sockets| && Live(s.sockets[s.wsRef.value])
          && s.current == Some(s.sockets[s.wsRef.value].effect))
    && (forall w :: 0 <= w < |s.sockets| && Live(s.sockets[w]) ==> s.wsRef == Some(w))
    && (forall w :: 0 <= w < |s.sockets| && (s.sockets[w].state.Connecting? || s.sockets[w].state.Open?) ==>
          s.sockets[w].hasOnClose)
  }

  /** An armed timer is the current effect's and known to it, and there is no socket meanwhile. */
  ghost predicate TimersOk(s: Hook) {
    forall t :: 0 <= t < |s.timers| && s.timers[t].armed ==>
      && s.wsRef.None? && s.current == Some(s.timers[t].effect)
      && s.timers[t].effect < |s.effects| && s.effects[s.timers[t].effect].reconnectTimer == Some(t)
  }

  /** Until a normal closure, a mounted hook is connected or about to reconnect. */
  ghost predicate ProgressOk(s: Hook) {
    s.current.Some? && s.current.value < |s.effects| ==>
      (s.effects[s.current.value].ended <==> s.wsRef.None? && !HasArmedTimer(s))
  }

  ghost predicate Inv(s: Hook) {
    EffectsOk(s) && SocketsOk(s) && TimersOk(s) && ProgressOk(s)
  }

  lemma MountKeepsInv(s: Hook, hasBuId: bool)
    requires Inv(s) && Enabled(s, EffectRuns(hasBuId))
    ensures Inv(Apply(s, EffectRuns(hasBuId)))
  {
  }

  lemma CleanupKeepsEffects(s: Hook)
    requires Inv(s) && Enabled(s, CleansUp)
    ensures EffectsOk(Apply(s, CleansUp)) && ProgressOk(Apply(s, CleansUp))
  {
  }

  lemma CleanupKeepsSockets(s: Hook)
    requires Inv(s) && Enabled(s, CleansUp)
    ensures SocketsOk(Apply(s, CleansUp))
  {
  }

  lemma CleanupKeepsTimers(s: Hook)
    requires Inv(s) && Enabled(s, CleansUp)
    ensures TimersOk(Apply(s, CleansUp))
  {
  }

  lemma CleanupKeepsInv(s: Hook)
    requires Inv(s) && Enabled(s, CleansUp)
    ensures Inv(Apply(s, CleansUp))
  {
    CleanupKeepsEffects(s);
    CleanupKeepsSockets(s);
    CleanupKeepsTimers(s);
  }

  lemma OpenKeepsInv(s: Hook, w: nat)
    requires Inv(s) && Enabled(s, Opens(w))
    ensures Inv(Apply(s, Opens(w)))
  {
    assert Live(s.sockets[w]);
    assert Apply(s, Opens(w)).timers == s.timers;
  }

  lemma ErrorKeepsInv(s: Hook, w: nat)
    requires Inv(s) && Enabled(s, Errors(w))
    ensures Inv(Apply(s, Errors(w)))
  {
    assert Apply(s, Errors(w)).timers == s.timers;
  }

  lemma CloseKeepsEffects(s: Hook, w: nat, code: nat)
    requires Inv(s) && Enabled(s, Closes(w, code))
    ensures EffectsOk(Apply(s, Closes(w, code)))
  {
  }

  lemma CloseKeepsSockets(s: Hook, w: nat, code: nat)
    requires Inv(s) && Enabled(s, Closes(w, code))
    ensures SocketsOk(Apply(s, Closes(w, code)))
  {
  }

  lemma CloseKeepsTimers(s: Hook, w: nat, code: nat)
    requires Inv(s) && Enabled(s, Closes(w, code))
    ensures TimersOk(Apply(s, Closes(w, code)))
  {
  }

  lemma CloseKeepsProgress(s: Hook, w: nat, code: nat)
    requires Inv(s) && Enabled(s, Closes(w, code))
    ensures ProgressOk(Apply(s, Closes(w, code)))
  {
    var s' := Apply(s, Closes(w, code));
    assert |s'.timers| > |s.timers| ==> s'.timers[|s.timers|].armed;
    assert s'.timers[..|s.timers|] == s.timers;
  }

  lemma CloseKeepsInv(s: Hook, w: nat, code: nat)
    requires Inv(s) && Enabled(s, Closes(w, code))
    ensures Inv(Apply(s, Closes(w, code)))
  {
    CloseKeepsEffects(s, w, code);
    CloseKeepsSockets(s, w, code);
    CloseKeepsTimers(s, w, code);
    CloseKeepsProgress(s, w, code);
  }

  lemma TimerKeepsInv(s: Hook, t: nat)
    requires Inv(s) && Enabled(s, TimerFires(t))
    ensures Inv(Apply(s, TimerFires(t)))
  {
  }

  lemma StepKeepsInv(s: Hook, e: Event)
    requires Inv(s) && Enabled(s, e)
    ensures Inv(Apply(s, e))
  {
    match e
    case EffectRuns(hasBuId) => MountKeepsInv(s, hasBuId);
    case CleansUp => CleanupKeepsInv(s);
    case Opens(w) => OpenKeepsInv(s, w);
    case MessageArrives(_) =>
    case Errors(w) => ErrorKeepsInv(s, w);
    case Closes(w, code) => CloseKeepsInv(s, w, code);
    case TimerFires(t) => TimerKeepsInv(s, t);
  }

  lemma {:induction false} RunKeepsInv(s: Hook, events: seq<Event>)
    requires Inv(s) && IsRun(s, events)
    ensures Inv(Run(s, events))
    decreases |events|
  {
    if events != [] {
      StepKeepsInv(s, events[0]);
      RunKeepsInv(Apply(s, events[0]), events[1..]);
    }
  }

  // ---------------------------------------------------------------- results over all runs

  /** At most one of a live socket and an armed timer; the ref is never stale; frames come from the current socket only. */
  lemma OneSocketOrTimer(events: seq<Event>)
    requires IsRun(INITIAL, events)
    ensures var s := Run(INITIAL, events);
            && (forall v, w :: 0 <= v < |s.sockets| && 0 <= w < |s.sockets| && Live(s.sockets[v]) && Live(s.sockets[w]) ==> v == w)
            && (forall t, u :: 0 <= t < |s.timers| && 0 <= u < |s.timers| && s.timers[t].armed && s.timers[u].armed ==> t == u)
            && (forall w, t :: 0 <= w < |s.sockets| && 0 <= t < |s.timers| && Live(s.sockets[w]) ==> !s.timers[t].armed)
            && (s.wsRef.Some? ==>
                  s.wsRef.value < |s.sockets| && Live(s.sockets[s.wsRef.value])
                  && s.current == Some(s.sockets[s.wsRef.value].effect))
            && (forall w: nat :: Enabled(s, MessageArrives(w)) ==> s.wsRef == Some(w))
  {
    RunKeepsInv(INITIAL, events);
    var s := Run(INITIAL, events);
    forall w: nat | Enabled(s, MessageArrives(w))
      ensures s.wsRef == Some(w)
    {
      assert Live(s.sockets[w]);
    }
  }

  /** An effect that has no live socket and no armed timer, and is not current or has ended. */
  ghost predicate Retired(s: Hook, e: nat) {
    && e < |s.effects|
    && (s.current != Some(e) || s.effects[e].ended)
  }

  /** Every socket that `s'` has and `s` has not belongs to another effect. */
  ghost predicate OpensNothing(s: Hook, s': Hook, e: nat) {
    && |s.sockets| <= |s'.sockets|
    && forall w :: |s.sockets| <= w < |s'.sockets| ==> s'.sockets[w].effect != e
  }

  lemma RetiredStep(s: Hook, ev: Event, e: nat)
    requires Inv(s) && Enabled(s, ev) && Retired(s, e)
    ensures Retired(Apply(s, ev), e) && OpensNothing(s, Apply(s, ev), e)
  {
  }

  lemma SocketsKeepEffect(s: Hook, ev: Event)
    requires Enabled(s, ev)
    ensures |s.sockets| <= |Apply(s, ev).sockets|
    ensures forall w :: 0 <= w < |s.sockets| ==> Apply(s, ev).sockets[w].effect == s.sockets[w].effect
  {
  }

  lemma {:induction false} LaterSocketsKeepEffect(s: Hook, events: seq<Event>)
    requires IsRun(s, events)
    ensures |s.sockets| <= |Run(s, events).sockets|
    ensures forall w :: 0 <= w < |s.sockets| ==> Run(s, events).sockets[w].effect == s.sockets[w].effect
    decreases |events|
  {
    if events != [] {
      SocketsKeepEffect(s, events[0]);
      LaterSocketsKeepEffect(Apply(s, events[0]), events[1..]);
    }
  }

  lemma {:induction false} RetiredForever(s: Hook, events: seq<Event>, e: nat)
    requires Inv(s) && IsRun(s, events) && Retired(s, e)
    ensures Retired(Run(s, events), e) && OpensNothing(s, Run(s, events), e)
    decreases |events|
  {
    if events != [] {
      StepKeepsInv(s, events[0]);
      RetiredStep(s, events[0], e);
      RetiredForever(Apply(s, events[0]), events[1..], e);
      LaterSocketsKeepEffect(Apply(s, events[0]), events[1..]);
    }
  }

  /** Only cleanup detaches close handlers, so the current effect's sockets have theirs. */
  ghost predicate AttachedOk(s: Hook) {
    forall w :: 0 <= w < |s.sockets| && s.current == Some(s.sockets[w].effect) ==> s.sockets[w].hasOnClose
  }

  lemma StepKeepsAttached(s: Hook, ev: Event)
    requires Inv(s) && AttachedOk(s) && Enabled(s, ev)
    ensures AttachedOk(Apply(s, ev))
  {
  }

  /** An effect that React cleaned up stays cleaned up. */
  lemma StepKeepsIntent(s: Hook, ev: Event, e: nat)
    requires Inv(s) && Enabled(s, ev) && e < |s.effects| && s.current != Some(e)
    ensures e < |Apply(s, ev).effects| && Apply(s, ev).current != Some(e)
  {
  }

  lemma {:induction false} CurrentWasCurrent(s: Hook, events: seq<Event>, e: nat)
    requires Inv(s) && IsRun(s, events) && e < |s.effects| && Run(s, events).current == Some(e)
    ensures s.current == Some(e)
    decreases |events|
  {
    if events != [] && s.current != Some(e) {
      StepKeepsInv(s, events[0]);
      StepKeepsIntent(s, events[0], e);
      CurrentWasCurrent(Apply(s, events[0]), events[1..], e);
    }
  }

  /** The event closes a socket of the effect with code 1000; `t` knows whose socket it is. */
  predicate IsNormalClosure(ev: Event, t: Hook, e: nat) {
    ev.Closes? && ev.code == NORMAL_CLOSURE && ev.w < |t.sockets| && t.sockets[ev.w].effect == e
  }

  predicate ClosedNormally(events: seq<Event>, t: Hook, e: nat) {
    exists i :: 0 <= i < |events| && IsNormalClosure(events[i], t, e)
  }

  lemma ClosedNormallyCons(events: seq<Event>, t: Hook, e: nat)
    requires events != []
    ensures ClosedNormally(events, t, e) <==> IsNormalClosure(events[0], t, e) || ClosedNormally(events[1..], t, e)
  {
    if ClosedNormally(events[1..], t, e) {
      var i :| 0 <= i < |events[1..]| && IsNormalClosure(events[1..][i], t, e);
      assert events[i + 1] == events[1..][i];
    }
  }

  /** One step ends the current effect exactly if it is a normal closure of one of its sockets. */
  lemma StepEnds(s: Hook, ev: Event, e: nat)
    requires Inv(s) && AttachedOk(s) && Enabled(s, ev) && e < |Apply(s, ev).effects|
    requires e < |s.effects| ==> s.current == Some(e)
    ensures Apply(s, ev).effects[e].ended <==> (e < |s.effects| && s.effects[e].ended) || IsNormalClosure(ev, s, e)
  {
  }

  lemma EffectsGrow(s: Hook, ev: Event)
    requires Inv(s) && Enabled(s, ev)
    ensures |s.effects| <= |Apply(s, ev).effects|
    ensures ev.Closes? ==> s.sockets[ev.w].effect < |s.effects|
  {
  }

  lemma FirstStepEnds(s: Hook, events: seq<Event>, e: nat)
    requires Inv(s) && AttachedOk(s) && IsRun(s, events) && events != [] && Run(s, events).current == Some(e)
    ensures (e < |Apply(s, events[0]).effects| && Apply(s, events[0]).effects[e].ended)
            <==> (e < |s.effects| && s.effects[e].ended) || IsNormalClosure(events[0], Run(s, events), e)
  {
    var t := Apply(s, events[0]);
    StepKeepsInv(s, events[0]);
    LaterSocketsKeepEffect(s, events);
    if e < |s.effects| {
      CurrentWasCurrent(s, events, e);
    }
    if e < |t.effects| {
      StepEnds(s, events[0], e);
    } else {
      EffectsGrow(s, events[0]);
    }
  }

  lemma {:induction false} EndedIffClosedNormally(s: Hook, events: seq<Event>, e: nat)
    requires Inv(s) && AttachedOk(s) && IsRun(s, events) && Run(s, events).current == Some(e)
    ensures e < |Run(s, events).effects|
    ensures Run(s, events).effects[e].ended
            <==> (e < |s.effects| && s.effects[e].ended) || ClosedNormally(events, Run(s, events), e)
    decreases |events|
  {
    if events != [] {
      var t, rest := Apply(s, events[0]), events[1..];
      StepKeepsInv(s, events[0]);
      StepKeepsAttached(s, events[0]);
      EndedIffClosedNormally(t, rest, e);
      ClosedNormallyCons(events, Run(s, events), e);
      FirstStepEnds(s, events, e);
    }
  }

  /**
    A mounted hook has a socket, or a timer that will open one, exactly as long as no socket of the
    current effect has closed with code 1000.
   */
  lemma MountedHookRecovers(events: seq<Event>)
    requires IsRun(INITIAL, events)
    ensures var s := Run(INITIAL, events);
            s.current.Some? ==>
              (s.wsRef.Some? || HasArmedTimer(s) <==> !ClosedNormally(events, s, s.current.value))
  {
    var s := Run(INITIAL, events);
    RunKeepsInv(INITIAL, events);
    if s.current.Some? {
      EndedIffClosedNormally(INITIAL, events, s.current.value);
    }
  }

  /** After its cleanup an effect never opens a socket again. */
  lemma CleanedUpEffectStaysQuiet(before: seq<Event>, after: seq<Event>)
    requires IsRun(INITIAL, before) && Enabled(Run(INITIAL, before), CleansUp)
    requires IsRun(Apply(Run(INITIAL, before), CleansUp), after)
    ensures var s := Run(INITIAL, before);
            OpensNothing(s, Run(Apply(s, CleansUp), after), s.current.value)
  {
    var s := Run(INITIAL, before);
    RunKeepsInv(INITIAL, before);
    StepKeepsInv(s, CleansUp);
    RetiredForever(Apply(s, CleansUp), after, s.current.value);
  }

  /** After close code 1000 on its socket the effect never reconnects. */
  lemma NormalClosureEndsReconnecting(before: seq<Event>, w: nat, after: seq<Event>)
    requires IsRun(INITIAL, before) && Enabled(Run(INITIAL, before), Closes(w, NORMAL_CLOSURE))
    requires Run(INITIAL, before).wsRef == Some(w)
    requires IsRun(Apply(Run(INITIAL, before), Closes(w, NORMAL_CLOSURE)), after)
    ensures var s := Run(INITIAL, before);
            OpensNothing(s, Run(Apply(s, Closes(w, NORMAL_CLOSURE)), after), s.sockets[w].effect)
  {
    var s := Run(INITIAL, before);
    RunKeepsInv(INITIAL, before);
    StepKeepsInv(s, Closes(w, NORMAL_CLOSURE));
    RetiredForever(Apply(s, Closes(w, NORMAL_CLOSURE)), after, s.sockets[w].effect);
  }

  /** Any other close code on the current socket arms a timer, and that timer opens the next socket. */
  lemma AbnormalClosureReconnects(events: seq<Event>, w: nat, code: nat)
    requires IsRun(INITIAL, events) && Run(INITIAL, events).wsRef == Some(w) && code != NORMAL_CLOSURE
    ensures var s := Run(INITIAL, events);
            && Enabled(s, Closes(w, code))
            && var s1 := Apply(s, Closes(w, code));
               && Enabled(s1, TimerFires(|s.timers|))
               && var s2 := Apply(s1, TimerFires(|s.timers|));
                  && s2.wsRef == Some(|s.sockets|) && |s2.sockets| == |s.sockets| + 1
                  && s2.sockets[|s.sockets|] == Socket(s.sockets[w].effect, Connecting, true)
                  && s2.current == s.current == Some(s.sockets[w].effect)
  {
    RunKeepsInv(INITIAL, events);
  }

  // ---------------------------------------------------------------- the hook as it runs

  /** The refs and closure variables of the hook, mutated by its event handlers. */
  class ChatWebSocketHook {
    var wsRef: Option<nat>
    var sockets: seq<Socket>
    var timers: seq<Timer>
    var effects: seq<Effect>
    var current: Option<nat>

    function State(): Hook
      reads this
    {
      Hook(wsRef, sockets, timers, effects, current)
    }

    constructor ()
      ensures State() == INITIAL && Inv(State())
    {
      wsRef, sockets, timers, effects, current := None, [], [], [], None;
    }

    /** Opens a socket and stores it in the ref. */
    method Connect(effect: nat)
      modifies this`sockets, this`wsRef
      ensures State() == Connected(old(State()), effect)
    {
      wsRef := Some(|sockets|);
      sockets := sockets + [Socket(effect, Connecting, true)];
    }

    method ClearTimeout(t: Option<nat>)
      modifies this`timers
      ensures timers == Disarm(old(timers), t)
    {
      if t.Some? && t.value < |timers| {
        timers := timers[t.value := timers[t.value].(armed := false)];
      }
    }

    method RunEffect(buId: string)
      requires Inv(State()) && Enabled(State(), EffectRuns(buId != ""))
      modifies this
      ensures State() == Apply(old(State()), EffectRuns(buId != "")) && Inv(State())
      ensures buId == "" ==> State() == old(State())
      ensures buId != "" ==>
                && current == Some(|old(effects)|) && wsRef == Some(|old(sockets)|)
                && sockets == old(sockets) + [Socket(|old(effects)|, Connecting, true)] && timers == old(timers)
    {
      StepKeepsInv(State(), EffectRuns(buId != ""));
      if buId == "" {
        return;
      }
      current := Some(|effects|);
      effects := effects + [Effect(None, false, false)];
      Connect(|effects| - 1);
    }

    method OnOpen(w: nat)
      requires Inv(State()) && Enabled(State(), Opens(w))
      modifies this
      ensures State() == Apply(old(State()), Opens(w)) && Inv(State())
      ensures sockets == old(sockets)[w := Socket(old(sockets)[w].effect, Open, old(sockets)[w].hasOnClose)]
      ensures wsRef == old(wsRef) && current == old(current)
      ensures forall t :: 0 <= t < |timers| ==> !timers[t].armed
      ensures effects[sockets[w].effect].reconnectTimer.None?
    {
      StepKeepsInv(State(), Opens(w));
      var e := sockets[w].effect;
      sockets := sockets[w := sockets[w].(state := Open)];
      if effects[e].reconnectTimer.Some? {
        ClearTimeout(effects[e].reconnectTimer);
        effects := effects[e := effects[e].(reconnectTimer := None)];
      }
    }

    method OnClose(w: nat, code: nat)
      requires Inv(State()) && Enabled(State(), Closes(w, code))
      modifies this
      ensures State() == Apply(old(State()), Closes(w, code)) && Inv(State())
      ensures sockets == old(sockets)[w := Socket(old(sockets)[w].effect, Closed, old(sockets)[w].hasOnClose)]
      ensures !old(sockets)[w].hasOnClose ==> wsRef == old(wsRef) && timers == old(timers)
      ensures old(sockets)[w].hasOnClose ==>
                var e := old(sockets)[w].effect;
                && wsRef.None?
                && timers == (if code != 1000 && !old(effects)[e].intentionalClose then old(timers) + [Timer(e, true)] else old(timers))
      ensures current == old(current)
    {
      StepKeepsInv(State(), Closes(w, code));
      var e := sockets[w].effect;
      sockets := sockets[w := sockets[w].(state := Closed)];
      if !sockets[w].hasOnClose {
        return;
      }
      wsRef := None;
      if !effects[e].intentionalClose && code != NORMAL_CLOSURE {
        effects := effects[e := effects[e].(reconnectTimer := Some(|timers|))];
        timers := timers + [Timer(e, true)];
      } else {
        effects := effects[e := effects[e].(ended := true)];
      }
    }

    method OnError(w: nat)
      requires Inv(State()) && Enabled(State(), Errors(w))
      modifies this`sockets
      ensures State() == Apply(old(State()), Errors(w)) && Inv(State())
      ensures sockets == old(sockets)[w := Socket(old(sockets)[w].effect, Closing, old(sockets)[w].hasOnClose)]
    {
      StepKeepsInv(State(), Errors(w));
      sockets := CloseSocket(sockets, w);
    }

    method OnTimer(t: nat)
      requires Inv(State()) && Enabled(State(), TimerFires(t))
      modifies this
      ensures State() == Apply(old(State()), TimerFires(t)) && Inv(State())
      ensures timers == old(timers)[t := Timer(old(timers)[t].effect, false)]
      ensures sockets == old(sockets) + [Socket(old(timers)[t].effect, Connecting, true)] && wsRef == Some(|old(sockets)|)
      ensures current == old(current) == Some(old(timers)[t].effect)
    {
      StepKeepsInv(State(), TimerFires(t));
      timers := timers[t := timers[t].(armed := false)];
      Connect(timers[t].effect);
    }

    method Cleanup()
      requires Inv(State()) && Enabled(State(), CleansUp)
      modifies this
      ensures State() == Apply(old(State()), CleansUp) && Inv(State())
      ensures current.None? && wsRef.None? && effects[old(current).value].intentionalClose
      ensures forall t :: 0 <= t < |timers| ==> !timers[t].armed
      ensures old(wsRef).Some? ==>
                var w := old(wsRef).value;
                w < |old(sockets)| && sockets == old(sockets)[w := Socket(old(sockets)[w].effect, Closing, false)]
      ensures old(wsRef).None? ==> sockets == old(sockets)
    {
      StepKeepsInv(State(), CleansUp);
      var e := current.value;
      effects := effects[e := effects[e].(intentionalClose := true)];
      ClearTimeout(effects[e].reconnectTimer);
      if wsRef.Some? {
        var w := wsRef.value;
        sockets := sockets[w := sockets[w].(hasOnClose := false)];
        sockets := CloseSocket(sockets, w);
        wsRef := None;
      }
      current := None;
    }
  }
}
