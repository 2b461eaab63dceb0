/**
 The panel driven by a sequence of calls and events, the invariant every
 reachable panel keeps, and the properties that follow from it: listeners
 and bridges are released at most once and only after they were acquired,
 the port is never disconnected, the wall always forwards, "No React" is
 final, and nothing reloads after unmount.
 */
module Lifecycle {
  import opened Handles
  import opened Effects
  import Walls
  import opened Panel

  /** One thing that can happen to a panel: a method call or an inbound event. */
  datatype Action =
    | DidMountCall
    | SetupCall
    | TeardownCall
    | ReloadCall
    | WillUnmountCall
    | HasReactMsg(payload: JsValue)
    | ConnectedMsg
    | WallSendCall(data: JsValue)
    | WallListenCall

  function Step(s: PanelState, a: Action): PanelState
  {
    match a
    case DidMountCall => DidMount(s)
    case SetupCall => Setup(s)
    case TeardownCall => Teardown(s)
    case ReloadCall => Reload(s)
    case WillUnmountCall => Unmount(s)
    case HasReactMsg(v) => HasReact(s, v)
    case ConnectedMsg => Connected(s)
    case WallSendCall(d) => WallSend(s, d)
    case WallListenCall => WallListen(s)
  }

  function Run(s: PanelState, acts: seq<Action>): PanelState
    decreases |acts|
  {
    if acts == [] then s else Run(Step(s, acts[0]), acts[1..])
  }

  /**
   Every `removeEventListener` call names a listener added earlier, and no
   listener is removed twice.
   */
  predicate ListenerDiscipline(log: seq<Effect>)
  {
    && (forall i :: 0 <= i < |log| && log[i].RemoveEventListener? ==>
          AddEventListener(log[i].event, log[i].listener) in log[..i])
    && (forall i, j :: 0 <= i < j < |log| && log[i].RemoveEventListener? && log[j].RemoveEventListener? ==>
          log[i].listener != log[j].listener)
  }

  /**
   Every `bridge.send` goes to a bridge created earlier, and no bridge is
   sent `shutdown` twice.
   */
  predicate ShutdownDiscipline(log: seq<Effect>)
  {
    && (forall i :: 0 <= i < |log| && log[i].BridgeSend? ==> NewBridge(log[i].bridge) in log[..i])
    && (forall i, j :: 0 <= i < j < |log| && log[i].BridgeSend? && log[j].BridgeSend? ==>
          log[i].bridge != log[j].bridge)
  }

  predicate Disciplined(log: seq<Effect>)
  {
    ListenerDiscipline(log) && ShutdownDiscipline(log)
  }

  /** Releases nothing: neither a listener removal, a bridge send nor a disconnect. */
  predicate Neutral(e: Effect)
  {
    !e.RemoveEventListener? && !e.BridgeSend? && !e.Disconnect?
  }

  /** `l` has never been passed to `removeEventListener`. */
  predicate NeverRemoved(log: seq<Effect>, l: Listener)
  {
    forall i :: 0 <= i < |log| && log[i].RemoveEventListener? ==> log[i].listener != l
  }

  /** `b` has never been sent anything. */
  predicate NeverSent(log: seq<Effect>, b: Bridge)
  {
    forall i :: 0 <= i < |log| && log[i].BridgeSend? ==> log[i].bridge != b
  }

  /** Every handle the panel created and logged is numbered below `n`. */
  predicate LogBelow(log: seq<Effect>, n: nat)
  {
    forall i :: 0 <= i < |log| ==> AllocatedBelow(log[i], n)
  }

  /** `port.disconnect()` was never called. */
  predicate NoDisconnect(log: seq<Effect>)
  {
    forall i :: 0 <= i < |log| ==> !log[i].Disconnect?
  }

  /** The shape of the fields: no port, listener held iff bridge held, a live wall over `props.port`. */
  predicate HandlesOk(s: PanelState)
  {
    && s.port.None?
    && (s.keyListener.Some? <==> s.bridge.Some?)
    && (s.wall.Some? ==> !s.wall.value.disconnected && s.wall.value.port == s.props.port)
    && (s.keyListener.Some? ==> s.keyListener.value.id < s.nextHandle)
    && (s.bridge.Some? ==> s.bridge.value.id < s.nextHandle)
  }

  /** The held listener and bridge were acquired and not yet released. */
  predicate HeldLive(s: PanelState)
  {
    && (s.keyListener.Some? ==>
          AddEventListener(Keydown, s.keyListener.value) in s.log && NeverRemoved(s.log, s.keyListener.value))
    && (s.bridge.Some? ==> NewBridge(s.bridge.value) in s.log && NeverSent(s.log, s.bridge.value))
  }

  /** What holds of every panel reachable from the constructor. */
  predicate Inv(s: PanelState)
  {
    && HandlesOk(s)
    && LogBelow(s.log, s.nextHandle)
    && NoDisconnect(s.log)
    && HeldLive(s)
    && Disciplined(s.log)
  }

  /** Appending calls that release nothing keeps both disciplines. */
  lemma AppendNeutral(log: seq<Effect>, d: seq<Effect>)
    requires Disciplined(log)
    requires forall k :: 0 <= k < |d| ==> Neutral(d[k])
    ensures Disciplined(log + d)
  {
    var l := log + d;
    forall i | 0 <= i < |l| && (l[i].RemoveEventListener? || l[i].BridgeSend?)
      ensures i < |log| && l[..i] == log[..i]
    {
    }
  }

  /** Appending the removal of a listener that was added and never removed keeps both disciplines. */
  lemma AppendRemove(log: seq<Effect>, l: Listener)
    requires Disciplined(log)
    requires AddEventListener(Keydown, l) in log && NeverRemoved(log, l)
    ensures Disciplined(log + [RemoveEventListener(Keydown, l)])
  {
    var log' := log + [RemoveEventListener(Keydown, l)];
    forall i | 0 <= i < |log'| ensures log'[..i] == if i < |log| then log[..i] else log {
    }
  }

  /** Appending a shutdown of a bridge that was created and never sent anything keeps both disciplines. */
  lemma AppendShutdown(log: seq<Effect>, b: Bridge)
    requires Disciplined(log)
    requires NewBridge(b) in log && NeverSent(log, b)
    ensures Disciplined(log + [BridgeSend(b, Shutdown)])
  {
    var log' := log + [BridgeSend(b, Shutdown)];
    forall i | 0 <= i < |log'| ensures log'[..i] == if i < |log| then log[..i] else log {
    }
  }

  /** Appending neutral calls below `m` to a log below `n <= m`. */
  lemma AppendBelow(log: seq<Effect>, d: seq<Effect>, n: nat, m: nat)
    requires LogBelow(log, n) && n <= m
    requires forall k :: 0 <= k < |d| ==> AllocatedBelow(d[k], m) && !d[k].Disconnect?
    requires NoDisconnect(log)
    ensures LogBelow(log + d, m) && NoDisconnect(log + d)
  {
    var l := log + d;
    forall i | 0 <= i < |l| ensures AllocatedBelow(l[i], m) && !l[i].Disconnect? {
      if i < |log| {
        AllocatedBelowMono(log[i], n, m);
      } else {
        assert l[i] == d[i - |log|];
      }
    }
  }

  /** Appending calls that release nothing leaves a never-released handle unreleased. */
  lemma AppendKeepsLive(log: seq<Effect>, d: seq<Effect>, l: Option<Listener>, b: Option<Bridge>)
    requires l.Some? ==> NeverRemoved(log, l.value)
    requires b.Some? ==> NeverSent(log, b.value)
    requires forall k :: 0 <= k < |d| ==> Neutral(d[k])
    ensures l.Some? ==> NeverRemoved(log + d, l.value)
    ensures b.Some? ==> NeverSent(log + d, b.value)
  {
    var x := log + d;
    forall i | 0 <= i < |x| && i >= |log| ensures Neutral(x[i]) {
      assert x[i] == d[i - |log|];
    }
  }

  /** The constructor establishes the invariant. */
  lemma InitInv(props: Props)
    ensures Inv(Init(props))
  {
  }

  /** The calls setup makes release nothing and name only handles below `n`. */
  lemma SetupEffectsNeutral(bridge: Bridge, wall: WallRef, store: Store, listener: Listener, n: nat)
    requires bridge.id < n && wall.id < n && store.id < n && listener.id < n
    ensures forall k :: 0 <= k < |SetupEffects(bridge, wall, store, listener)| ==>
      Neutral(SetupEffects(bridge, wall, store, listener)[k]) &&
      AllocatedBelow(SetupEffects(bridge, wall, store, listener)[k], n)
  {
    var d := SetupEffects(bridge, wall, store, listener);
    forall k | 0 <= k < |d| ensures Neutral(d[k]) && AllocatedBelow(d[k], n) {
      assert AcquireOf(bridge, wall, store, listener, d[k]);
    }
  }

  /** A fresh handle has never been released: all logged handles are below `n`. */
  lemma FreshNeverReleased(log: seq<Effect>, n: nat, l: Listener, b: Bridge)
    requires LogBelow(log, n) && l.id >= n && b.id >= n
    ensures NeverRemoved(log, l) && NeverSent(log, b)
  {
    forall i | 0 <= i < |log| ensures AllocatedBelow(log[i], n) {
    }
  }

  lemma SetupInv(s: PanelState)
    requires Inv(s)
    ensures Inv(Setup(s))
  {
    var r := Setup(s);
    var d := SetupEffects(r.bridge.value, r.wall.value.ref, r.store.value, r.keyListener.value);
    assert r.log == s.log + d;
    SetupEffectsNeutral(r.bridge.value, r.wall.value.ref, r.store.value, r.keyListener.value, r.nextHandle);
    AppendNeutral(s.log, d);
    AppendBelow(s.log, d, s.nextHandle, r.nextHandle);
    FreshNeverReleased(s.log, s.nextHandle, r.keyListener.value, r.bridge.value);
    AppendKeepsLive(s.log, d, r.keyListener, r.bridge);
    assert AddEventListener(Keydown, r.keyListener.value) in d;
    assert NewBridge(r.bridge.value) in d;
    assert HeldLive(r);
  }

  lemma TeardownInv(s: PanelState)
    requires Inv(s)
    ensures Inv(Teardown(s))
  {
    var r := Teardown(s);
    var d1 := ListenerRelease(s.keyListener);
    var d2 := BridgeRelease(s.bridge);
    assert r.log == s.log + d1 + d2;
    if s.keyListener.Some? {
      var l := s.keyListener.value;
      var b := s.bridge.value;
      AppendRemove(s.log, l);
      assert NewBridge(b) in s.log + d1;
      assert NeverSent(s.log + d1, b) by {
        AppendKeepsLive(s.log, [], None, Some(b));
        forall i | 0 <= i < |s.log + d1| && (s.log + d1)[i].BridgeSend?
          ensures (s.log + d1)[i].bridge != b
        {
          assert i < |s.log|;
        }
      }
      AppendShutdown(s.log + d1, b);
      AppendBelow(s.log, d1 + d2, s.nextHandle, r.nextHandle);
      assert s.log + (d1 + d2) == r.log;
    }
  }

  /** Extending a log by neutral calls below the handle bound keeps the invariant. */
  lemma NeutralInv(s: PanelState, r: PanelState, d: seq<Effect>)
    requires Inv(s)
    requires SameResources(s, r) && r.log == s.log + d
    requires forall k :: 0 <= k < |d| ==> Neutral(d[k]) && AllocatedBelow(d[k], s.nextHandle)
    ensures Inv(r)
  {
    AppendNeutral(s.log, d);
    AppendBelow(s.log, d, s.nextHandle, s.nextHandle);
    AppendKeepsLive(s.log, d, s.keyListener, s.bridge);
  }

  lemma ReloadInv(s: PanelState)
    requires Inv(s)
    ensures Inv(Reload(s))
  {
    var t := Teardown(s);
    TeardownInv(s);
    if !t.unMounted {
      NeutralInv(t, RequestReload(t), [ReloadRequested]);
    }
  }

  /** Every step keeps the invariant. */
  lemma StepInv(s: PanelState, a: Action)
    requires Inv(s)
    ensures Inv(Step(s, a))
  {
    match a
    case DidMountCall => SetupInv(s);
    case SetupCall => SetupInv(s);
    case TeardownCall => TeardownInv(s);
    case ReloadCall => ReloadInv(s);
    case WillUnmountCall =>
    case HasReactMsg(v) =>
    case ConnectedMsg =>
    case WallSendCall(data) =>
      if s.wall.Some? {
        NeutralInv(s, Step(s, a), Walls.Send(s.wall.value, data));
      }
    case WallListenCall =>
      if s.wall.Some? {
        NeutralInv(s, Step(s, a), Walls.Listen(s.wall.value));
      }
  }

  /** Any sequence of steps keeps the invariant. */
  lemma {:induction false} RunInv(s: PanelState, acts: seq<Action>)
    requires Inv(s)
    ensures Inv(Run(s, acts))
    decreases |acts|
  {
    if acts != [] {
      StepInv(s, acts[0]);
      RunInv(Step(s, acts[0]), acts[1..]);
    }
  }

  /** Every panel reachable from the constructor satisfies the invariant. */
  lemma ReachableInv(props: Props, acts: seq<Action>)
    ensures Inv(Run(Init(props), acts))
  {
    InitInv(props);
    RunInv(Init(props), acts);
  }

  /**
   Whatever happens, `removeEventListener` only ever names a listener added
   earlier and each at most once, and `shutdown` goes only to a bridge created
   earlier and each at most once.
   */
  lemma ReachableReleasesOnce(props: Props, acts: seq<Action>)
    ensures var log := Run(Init(props), acts).log;
      && (forall i :: 0 <= i < |log| && log[i].RemoveEventListener? ==>
            AddEventListener(log[i].event, log[i].listener) in log[..i])
      && (forall i, j :: 0 <= i < j < |log| && log[i].RemoveEventListener? && log[j].RemoveEventListener? ==>
            log[i].listener != log[j].listener)
      && (forall i :: 0 <= i < |log| && log[i].BridgeSend? ==> NewBridge(log[i].bridge) in log[..i])
      && (forall i, j :: 0 <= i < j < |log| && log[i].BridgeSend? && log[j].BridgeSend? ==>
            log[i].bridge != log[j].bridge)
  {
    ReachableInv(props, acts);
  }

  /**
   `_port` is never assigned, so no reachable panel holds a port and
   `port.disconnect()` is never called, whatever happens.
   */
  lemma ReachableNeverDisconnects(props: Props, acts: seq<Action>)
    ensures Run(Init(props), acts).port == None
    ensures forall i :: 0 <= i < |Run(Init(props), acts).log| ==> !Run(Init(props), acts).log[i].Disconnect?
  {
    ReachableInv(props, acts);
  }

  /**
   Nothing sets the wall's `disconnected` flag, so in every reachable panel a
   `wall.send(data)` is forwarded to `props.port` unchanged.
   */
  lemma ReachableWallForwards(props: Props, acts: seq<Action>, data: JsValue)
    ensures var s := Run(Init(props), acts);
      s.wall.Some? ==> Added(s, WallSend(s, data)) == [PostMessage(props.port, data)]
  {
    ReachableInv(props, acts);
    var s := Run(Init(props), acts);
    RunKeepsProps(Init(props), acts);
    assert HandlesOk(s);
  }

  /** No step changes the props. */
  lemma {:induction false} RunKeepsProps(s: PanelState, acts: seq<Action>)
    ensures Run(s, acts).props == s.props
    decreases |acts|
  {
    if acts != [] {
      StepKeepsProps(s, acts[0]);
      RunKeepsProps(Step(s, acts[0]), acts[1..]);
    }
  }

  lemma StepKeepsProps(s: PanelState, a: Action)
    ensures Step(s, a).props == s.props
  {
    match a
    case DidMountCall =>
    case SetupCall =>
    case TeardownCall =>
    case ReloadCall =>
    case WillUnmountCall =>
    case HasReactMsg(v) =>
    case ConnectedMsg =>
    case WallSendCall(data) =>
    case WallListenCall =>
  }

  /** The stored key listener is exactly one that was added and is still registered. */
  lemma ReachableListenerLive(props: Props, acts: seq<Action>)
    ensures var s := Run(Init(props), acts);
      s.keyListener.Some? ==>
        && AddEventListener(Keydown, s.keyListener.value) in s.log
        && RemoveEventListener(Keydown, s.keyListener.value) !in s.log
  {
    ReachableInv(props, acts);
  }

  /**
   On a panel holding no port, teardown right after setup removes exactly
   the listener setup added, then shuts down exactly the bridge it created,
   and calls nothing else: in particular no `disconnect`.
   */
  lemma SetupThenTeardown(s: PanelState)
    requires s.port.None?
    ensures var u := Setup(s);
      Added(u, Teardown(u)) == [RemoveEventListener(Keydown, u.keyListener.value), BridgeSend(u.bridge.value, Shutdown)]
    ensures var u := Setup(s);
      AddEventListener(Keydown, u.keyListener.value) in Added(s, u)
  {
    var u := Setup(s);
    assert AcquireOf(u.bridge.value, u.wall.value.ref, u.store.value, u.keyListener.value,
      AddEventListener(Keydown, u.keyListener.value));
  }

  /** A step only appends to the log. */
  lemma StepExtends(s: PanelState, a: Action)
    ensures s.log <= Step(s, a).log
  {
    match a
    case WallSendCall(data) =>
    case WallListenCall =>
    case ReloadCall =>
    case _ =>
  }

  /** The log is append-only over any run. */
  lemma {:induction false} LogAppendOnly(s: PanelState, acts: seq<Action>)
    ensures s.log <= Run(s, acts).log
    decreases |acts|
  {
    if acts != [] {
      StepExtends(s, acts[0]);
      LogAppendOnly(Step(s, acts[0]), acts[1..]);
    }
  }

  /**
   No step sets `isReact` back to true: once "No React" is shown, it is shown
   for good, through reloads and late `connected` events alike.
   */
  lemma {:induction false} NoReactIsFinal(s: PanelState, acts: seq<Action>)
    requires Render(s) == NoReact
    ensures Render(Run(s, acts)) == NoReact
    decreases |acts|
  {
    if acts != [] {
      var t := Step(s, acts[0]);
      assert !t.isReact;
      NoReactIsFinal(t, acts[1..]);
    }
  }

  /** Setup calls `props.reload` never. */
  lemma SetupNeverReloads(s: PanelState)
    ensures multiset(Setup(s).log)[ReloadRequested] == multiset(s.log)[ReloadRequested]
  {
    var u := Setup(s);
    var d := SetupEffects(u.bridge.value, u.wall.value.ref, u.store.value, u.keyListener.value);
    assert u.log == s.log + d;
    assert !AcquireOf(u.bridge.value, u.wall.value.ref, u.store.value, u.keyListener.value, ReloadRequested);
    assert ReloadRequested !in d;
  }

  /** On an unmounted panel no step clears the flag or calls `props.reload`. */
  lemma StepAfterUnmount(s: PanelState, a: Action)
    requires s.unMounted
    ensures Step(s, a).unMounted
    ensures multiset(Step(s, a).log)[ReloadRequested] == multiset(s.log)[ReloadRequested]
  {
    match a
    case DidMountCall => SetupNeverReloads(s);
    case SetupCall => SetupNeverReloads(s);
    case TeardownCall => TeardownNeverReloads(s);
    case ReloadCall =>
      assert Step(s, a) == Teardown(s);
      TeardownNeverReloads(s);
    case WallSendCall(data) =>
      if s.wall.Some? {
        assert Step(s, a).log == s.log + Walls.Send(s.wall.value, data);
      }
    case WallListenCall =>
      if s.wall.Some? {
        assert Step(s, a).log == s.log + Walls.Listen(s.wall.value);
      }
    case WillUnmountCall =>
    case HasReactMsg(v) =>
    case ConnectedMsg =>
  }

  /** Teardown calls `props.reload` never. */
  lemma TeardownNeverReloads(s: PanelState)
    ensures multiset(Teardown(s).log)[ReloadRequested] == multiset(s.log)[ReloadRequested]
  {
    ReleaseNeverReloads(s);
    assert Teardown(s).log == s.log + ReleaseEffects(s);
  }

  /**
   Unmounting is final, and after it `props.reload` is never called again,
   however many reloads are requested.
   */
  lemma {:induction false} NoReloadAfterUnmount(s: PanelState, acts: seq<Action>)
    requires s.unMounted
    ensures Run(s, acts).unMounted
    ensures multiset(Run(s, acts).log)[ReloadRequested] == multiset(s.log)[ReloadRequested]
    decreases |acts|
  {
    if acts != [] {
      StepAfterUnmount(s, acts[0]);
      NoReloadAfterUnmount(Step(s, acts[0]), acts[1..]);
    }
  }

  /**
   The `hasReact` and `connected` handler bodies do not look at `unMounted`.
   Their state updates after unmount are the same as before. React itself
   drops `setState` on an unmounted component, which the model does not
   represent.
   */
  lemma EventsIgnoreUnmount(s: PanelState, payload: JsValue)
    ensures HasReact(Unmount(s), payload) == Unmount(HasReact(s, payload))
    ensures Connected(Unmount(s)) == Unmount(Connected(s))
  {
  }

  /**
   Reload goes back to "Connecting" while mounted and React was found, but
   cannot leave "No React", because it never resets `isReact`.
   */
  lemma ReloadView(s: PanelState)
    ensures Render(Reload(s)) == NoReact <==> Render(s) == NoReact
    ensures !s.unMounted && s.isReact ==> Render(Reload(s)) == Connecting
    ensures s.unMounted ==> Render(Reload(s)) == Render(s)
  {
  }

  /**
   Mount then `connected`: the container is shown and one key listener is
   registered; teardown then removes that listener and shuts the bridge down,
   once each, and never disconnects the port.
   */
  lemma ConnectScenario(props: Props)
    ensures var s := Run(Init(props), [DidMountCall, ConnectedMsg]);
      && Render(s) == ContainerView
      && s.keyListener == Some(Listener(3))
      && multiset(s.log)[AddEventListener(Keydown, Listener(3))] == 1
      && Added(s, Teardown(s)) == [RemoveEventListener(Keydown, Listener(3)), BridgeSend(Bridge(1), Shutdown)]
  {
    var i := Init(props);
    var u := Setup(i);
    var s := Connected(u);
    RunTwo(i, DidMountCall, ConnectedMsg);
    assert Step(i, DidMountCall) == u;
    assert Run(i, [DidMountCall, ConnectedMsg]) == s;
    assert u.keyListener == Some(Listener(3)) && u.bridge == Some(Bridge(1));
    assert s.log == SetupEffects(Bridge(1), WallRef(0), Store(2), Listener(3));
    SetupThenTeardown(i);
    SetupCallsOnce(Bridge(1), WallRef(0), Store(2), Listener(3));
    assert Teardown(s).log == Teardown(u).log;
  }

  /** `hasReact` false before `connected`: "No React" stays, even after a reload. */
  lemma NotInstrumentedScenario(props: Props)
    ensures Render(Run(Init(props), [DidMountCall, HasReactMsg(Bool(false)), ConnectedMsg])) == NoReact
    ensures Render(Run(Init(props), [DidMountCall, HasReactMsg(Bool(false)), ReloadCall, ConnectedMsg])) == NoReact
  {
    var s := Step(Step(Init(props), DidMountCall), HasReactMsg(Bool(false)));
    RunThree(Init(props), DidMountCall, HasReactMsg(Bool(false)), ConnectedMsg);
    NoReactIsFinal(s, [ConnectedMsg]);
    NoReactIsFinal(s, [ReloadCall, ConnectedMsg]);
    var acts := [DidMountCall, HasReactMsg(Bool(false)), ReloadCall, ConnectedMsg];
    assert acts[1..][1..] == [ReloadCall, ConnectedMsg];
    assert Run(Init(props), acts) == Run(s, [ReloadCall, ConnectedMsg]);
  }

  /**
   The store's `connected` handler stays subscribed through reload, which
   neither unsubscribes it nor runs setup again: a late `connected` after a
   reload shows the container while the panel holds no bridge.
   */
  lemma StaleConnectedAfterReload(s: PanelState)
    requires s.isReact
    ensures var r := Connected(Reload(s));
      Render(r) == ContainerView && r.bridge == None && r.keyListener == None
  {
  }

  /**
   The `connected` handler's update clears `loading` even after unmount. At
   run time React discards that `setState`.
   */
  lemma ConnectedAfterUnmountScenario(props: Props)
    ensures var s := Run(Init(props), [DidMountCall, WillUnmountCall, ConnectedMsg]);
      s.unMounted && !s.loading
  {
    var x1 := Step(Init(props), DidMountCall);
    var x2 := Step(x1, WillUnmountCall);
    var x3 := Step(x2, ConnectedMsg);
    RunThree(Init(props), DidMountCall, WillUnmountCall, ConnectedMsg);
    assert x2 == Unmount(x1);
    assert x3 == Connected(x2);
  }

  /** Unfolds a run by its first action. */
  lemma RunCons(s: PanelState, a: Action, rest: seq<Action>)
    ensures Run(s, [a] + rest) == Run(Step(s, a), rest)
  {
    assert ([a] + rest)[1..] == rest;
  }

  lemma RunOne(s: PanelState, a: Action)
    ensures Run(s, [a]) == Step(s, a)
  {
    assert [a] + [] == [a];
    RunCons(s, a, []);
  }

  lemma RunTwo(s: PanelState, a: Action, b: Action)
    ensures Run(s, [a, b]) == Step(Step(s, a), b)
  {
    assert [a] + [b] == [a, b];
    RunCons(s, a, [b]);
    RunOne(Step(s, a), b);
  }

  lemma RunThree(s: PanelState, a: Action, b: Action, c: Action)
    ensures Run(s, [a, b, c]) == Step(Step(Step(s, a), b), c)
  {
    assert [a] + [b, c] == [a, b, c];
    RunCons(s, a, [b, c]);
    RunTwo(Step(s, a), b, c);
  }
}
