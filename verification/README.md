# Firefox devtools panel: connection lifecycle

A Dafny model of the connection-lifecycle state machine behind the React
devtools panel for Firefox (`shells/firefox/panel/Panel.js`). The React
component is a thin shell. Underneath it, a small sequential state machine
does the work:

- it builds a *wall* adapter over the runtime port handed in as `props.port`;
- it creates a `Bridge`, attaches the bridge to the wall, and builds a `Store`
  on top;
- it registers one `keydown` listener obtained from `keyboardNav(store)`;
- it releases all of this in `teardown`, in a fixed order.

The panel is modelled as an immutable record `Panel.PanelState`. The record
holds:

- the component state `loading` and `isReact`;
- the instance fields `_unMounted`, `_keyListener`, `_bridge`, `_port` and
  `_store`;
- the wall built by the last `setup`;
- an append-only `log` of every call made on a collaborator: the window,
  bridge, store, port and `props.reload`.

Each method and each inbound event is a pure function from state to state.

Modules:

- `Handles`: the optional-reference type, opaque handles for the
  collaborators, and JavaScript values with their truthiness.
- `Effects`: the calls that can appear in the log, and the string constants
  the source uses (`keydown`, `shutdown`, `hasReact`, `connected`).
- `Walls`: the wall adapter. `listen` installs the port's message callback.
  `send` forwards to `port.postMessage` unless the captured `disconnected`
  flag is set.
- `Panel`: the state record and one transition each for the constructor,
  `componentDidMount`, `componentWillUnmount`, `reload`, `teardown` (as three
  release steps), `setup`, the `hasReact` and `connected` handlers, the
  bridge's use of the wall, and `render` reduced to three views.
- `Lifecycle`: actions, runs of actions, and the invariant of every panel
  reachable from the constructor. It also holds the properties that follow
  from that invariant, and concrete scenarios.

The model reproduces the code as written, including behaviour a reader of
the design intent might not expect:

- `setup` never assigns `_port`, so `teardown`'s disconnect branch never runs
  on a reachable panel (`Lifecycle.ReachableNeverDisconnects`).
- The wall's `disconnected` flag starts false and nothing live sets it, since
  the port's disconnect subscription is commented out. So every `wall.send`
  is forwarded (`Lifecycle.ReachableWallForwards`).
- The `hasReact` and `connected` handlers do not consult `_unMounted`
  themselves (`Lifecycle.EventsIgnoreUnmount`). The model's `setState` is a
  plain field write, so after unmount these handlers still update the
  modelled state. React itself discards `setState` on an unmounted
  component, so the running panel's state does not change there. No call in
  the log depends on the difference.
- `componentWillUnmount` does not call `teardown`.
- `reload` resets `loading` but never `isReact`, so "No React" is final
  (`Lifecycle.NoReactIsFinal`).
- `reload` does not run `setup` again, and the store's `connected` handler
  stays subscribed. A late `connected` therefore shows the container while
  the panel holds no bridge (`Lifecycle.StaleConnectedAfterReload`).
- When `hasReact` is falsy and `connected` also arrives, both handlers run.
  `render` checks `isReact` first, so "No React" wins whatever the order.

Objects the panel creates get fresh numbers from a counter `nextHandle` in
the state. These objects are the wall, the bridge and the store. The
keyboard listener is whatever `keyboardNav(store)` returns, and the model
numbers it fresh too. That is an assumption about `keyboardNav`, not a fact
of the panel's code. Each object's origin is recorded in the log, so
reference identity ("the listener removed is the one that was added") can
be stated.

## Model

| member | source | states |
|---|---|---|
| Panel.Init | shells/firefox/panel/Panel.js:42-45 | A new panel is loading, assumes React, is mounted, holds no listener, bridge, port or store, and has made no call |
| Lifecycle.InitInv | shells/firefox/panel/Panel.js:42-45 | The constructed panel satisfies the lifecycle invariant |
| Panel.DidMount | shells/firefox/panel/Panel.js:55-56 | Mounting keeps the flags, the props and `_port`. It holds a bridge, a live wall over `props.port` and a `keydown` listener, and only appends to the call log |
| Panel.DidMountAcquires | shells/firefox/panel/Panel.js:114-131 | Mounting calls `new Bridge`, `bridge.attach(wall)` and `addEventListener('keydown', …)` exactly once each, for the bridge, wall and listener the panel then holds |
| Panel.Unmount | shells/firefox/panel/Panel.js:64-66 | Unmount sets `unMounted`, keeps `loading`, `isReact` and every handle, and makes no call |
| Panel.RequestReload | shells/firefox/panel/Panel.js:71 | The `setState` half of reload sets `loading`, keeps `isReact` and the handles, and appends exactly one `props.reload` call |
| Panel.Reload | shells/firefox/panel/Panel.js:68-73 | Reload always clears all three handles, with teardown's calls as a prefix of its own. While mounted it sets `loading` and calls `props.reload` exactly once, as the last call. When unmounted it adds no call and leaves `loading` as it was. `isReact`, the store, the wall, the props and the handle counter never change |
| Panel.ReleaseNeverReloads | shells/firefox/panel/Panel.js:75-88 | Teardown's release calls never include `props.reload` |
| Panel.RemoveKeyListener | shells/firefox/panel/Panel.js:76-79 | Step 1 removes the stored `keydown` listener iff one is held, then forgets it; bridge and port are untouched |
| Panel.ShutdownBridge | shells/firefox/panel/Panel.js:80-82 | Step 2 sends `shutdown` to the stored bridge iff one is held and keeps every field |
| Panel.DisconnectPort | shells/firefox/panel/Panel.js:83-86 | Step 3 disconnects the stored port iff one is held, then forgets it; listener and bridge are untouched |
| Panel.Teardown | shells/firefox/panel/Panel.js:75-88 | Teardown leaves listener, bridge and port all cleared; flags, store, wall and props are unchanged; its calls are appended to the log |
| Panel.TeardownOrder | shells/firefox/panel/Panel.js:75-88 | Teardown's calls remove exactly the stored listener, shut down exactly the stored bridge and disconnect exactly the stored port. Each call is present iff its handle is held, at most once, in the order listener, bridge, port |
| Panel.TeardownIdempotent | shells/firefox/panel/Panel.js:75-88 | A second teardown changes nothing and makes no call; teardown of a panel holding nothing is the identity |
| Lifecycle.TeardownNeverReloads | shells/firefox/panel/Panel.js:75-88 | Teardown does not call `props.reload` |
| Panel.SetupEffects | shells/firefox/panel/Panel.js:114-136 | Every call setup makes concerns only the freshly created bridge, wall, store and listener, and names only `hasReact`, `keydown` and `connected` |
| Panel.SetupCallsOnce | shells/firefox/panel/Panel.js:114-131 | Setup creates the bridge once, attaches it to the wall once, calls `keyboardNav` once and adds the listener once |
| Panel.Setup | shells/firefox/panel/Panel.js:90-137 | Setup leaves flags and `_port` unchanged. It holds a fresh listener, bridge, store and a connected wall over `props.port`, all numbered above every earlier object. Its calls are exactly setup's call list for those objects |
| Lifecycle.SetupNeverReloads | shells/firefox/panel/Panel.js:90-137 | Setup does not call `props.reload` |
| Lifecycle.SetupThenTeardown | shells/firefox/panel/Panel.js:75-137 | On a panel with no port, teardown after setup calls exactly two things: it removes the very listener setup added, then shuts down the very bridge it created. It never disconnects |
| Walls.Create | shells/firefox/panel/Panel.js:91-106 | A new wall is over the given port and not disconnected |
| Walls.Listen | shells/firefox/panel/Panel.js:95-99 | `listen` installs one message callback on the wall's own port |
| Walls.Send | shells/firefox/panel/Panel.js:100-105 | `send` makes a call iff the wall is not disconnected, and that call is one `postMessage` of the data to the wall's port |
| Walls.SendAllForwards | shells/firefox/panel/Panel.js:100-105 | A connected wall forwards any sequence of messages unchanged and in order |
| Walls.SendAllDropped | shells/firefox/panel/Panel.js:100-105 | A disconnected wall silently drops any sequence of messages |
| Panel.WallSend | shells/firefox/panel/Panel.js:100-105 | The bridge sending through the panel's wall appends one `postMessage` to the wall's port when the wall is live, and nothing otherwise; no field changes |
| Panel.WallListen | shells/firefox/panel/Panel.js:95-99 | The bridge listening on the panel's wall installs one callback on the wall's port; no field changes |
| Panel.HasReact | shells/firefox/panel/Panel.js:119-123 | A falsy payload clears `isReact`, a truthy one changes nothing; no other field and no call is affected |
| Panel.Connected | shells/firefox/panel/Panel.js:133-136 | `connected` clears `loading` and changes nothing else |
| Lifecycle.EventsIgnoreUnmount | shells/firefox/panel/Panel.js:119-136 | Both handler bodies commute with unmount: neither reads `_unMounted`, so the handler code updates the state after unmount as it would before |
| Lifecycle.ConnectedAfterUnmountScenario | shells/firefox/panel/Panel.js:133-136 | Mount, unmount, then `connected`: the handler code leaves the panel unmounted and no longer loading |
| Panel.Render | shells/firefox/panel/Panel.js:139-152 | The view is "No React" iff `isReact` is false, whatever `loading` is; otherwise "Connecting" iff loading, else the container |
| Lifecycle.SetupInv | shells/firefox/panel/Panel.js:90-137 | Setup keeps the lifecycle invariant |
| Lifecycle.TeardownInv | shells/firefox/panel/Panel.js:75-88 | Teardown keeps the lifecycle invariant |
| Lifecycle.ReloadInv | shells/firefox/panel/Panel.js:68-73 | Reload keeps the lifecycle invariant |
| Lifecycle.StepInv | shells/firefox/panel/Panel.js:55-137 | Every method call and event keeps the lifecycle invariant |
| Lifecycle.RunInv | shells/firefox/panel/Panel.js:55-137 | Any sequence of calls and events keeps the lifecycle invariant |
| Lifecycle.ReachableInv | shells/firefox/panel/Panel.js:42-137 | Every panel reachable from the constructor satisfies the invariant |
| Lifecycle.ReachableReleasesOnce | shells/firefox/panel/Panel.js:75-131 | In any history, each `removeEventListener` names a listener added earlier, and no listener is removed twice. Each `bridge.send` goes to a bridge created earlier, and no bridge is sent `shutdown` twice |
| Lifecycle.ReachableNeverDisconnects | shells/firefox/panel/Panel.js:83-86 | In any history the panel holds no port and `port.disconnect()` is never called |
| Lifecycle.ReachableWallForwards | shells/firefox/panel/Panel.js:91-112 | In any history, a send through the panel's wall is forwarded unchanged to `props.port` |
| Lifecycle.ReachableListenerLive | shells/firefox/panel/Panel.js:75-131 | In any history, a stored key listener was added for `keydown` and has not been removed |
| Lifecycle.StepExtends | shells/firefox/panel/Panel.js:55-137 | No call or event rewrites past calls: each step only appends |
| Lifecycle.LogAppendOnly | shells/firefox/panel/Panel.js:55-137 | Over any run the log only grows at the end |
| Lifecycle.NoReactIsFinal | shells/firefox/panel/Panel.js:119-123 | Once "No React" is shown, no sequence of calls or events shows anything else |
| Lifecycle.ReloadView | shells/firefox/panel/Panel.js:68-73 | After reload the view is "No React" iff it was before. A mounted panel with React goes back to "Connecting". An unmounted panel's view is unchanged |
| Lifecycle.StaleConnectedAfterReload | shells/firefox/panel/Panel.js:68-136 | With React found, reload followed by a `connected` event shows the container while the panel holds no bridge and no listener |
| Lifecycle.StepAfterUnmount | shells/firefox/panel/Panel.js:64-73 | On an unmounted panel no step clears the flag or calls `props.reload` |
| Lifecycle.NoReloadAfterUnmount | shells/firefox/panel/Panel.js:64-73 | After unmount, no sequence of calls or events clears the flag or calls `props.reload` again |
| Lifecycle.ConnectScenario | shells/firefox/panel/Panel.js:90-152 | Mount then `connected` shows the container with one `keydown` listener registered. Teardown then removes that listener and shuts the bridge down, and nothing else |
| Lifecycle.NotInstrumentedScenario | shells/firefox/panel/Panel.js:119-142 | A falsy `hasReact` before `connected` leaves "No React" shown, also across a reload |

## Left out

- Rendering details: the JSX, `styles`, `childContextTypes`, `getChildContext` and the `Reload` button's markup are presentation. `render` is reduced to a three-way view.
- The `menuItems` callbacks: they always return `undefined` and the rest of their code is commented out.
- `window.panel = this`: a global debugging hook with no effect on behaviour.
- The unused `_checkTimeout` field, and the commented-out navigation and port-disconnect subscriptions.
- The internals of `Bridge`, `Store` and `keyboardNav`: they are not part of this model. Their constructors and the `attach`, `on` and `send` calls on them are recorded as opaque calls with fresh handles. Each `keyboardNav` call is assumed to return a new function. `Lifecycle.ReachableReleasesOnce`'s "no listener is removed twice" depends on that assumption, but only in histories with a repeated setup.
- Lifecycle.EventsIgnoreUnmount: React's own dropping of `setState` on an unmounted component is not modelled, since `setState` is a plain field write here. The lemma describes the handler code, not the component's state after unmount: at run time both handlers leave that state unchanged.
- Lifecycle.ConnectedAfterUnmountScenario: for the same reason, at run time `loading` stays true after mount, unmount and `connected`. The lemma's `!loading` is what the handler code asks for, which React then discards.
- Asynchrony: `setState` and message delivery are atomic transitions. The `setState` callback of `reload` is the call appended right after the state update.
- Call availability: `SetupCall`, `TeardownCall` and a repeated `DidMountCall` are actions the component never performs on its own. `setup` runs only from `componentDidMount`, once per instance, and `teardown` only from `reload`. The run lemmas cover these extra histories as well, for example a second setup that leaks the first listener.
- Event availability: `hasReact` and `connected` are transitions that may arrive in any state. The model does not track that they can only arrive once setup has subscribed the handlers, so its event properties hold for more histories than can occur.
- Walls.Listen: states only that the message callback is installed on the port. It does not model the callback passing `evt.data` to the bridge, because the bridge's side of the callback is not part of this model.
- Payload truthiness covers integers only. `NaN`, `-0` and other floating-point payloads are not modelled.
