/**
 The wall adapter `setup` builds over `props.port`: `listen` installs the
 port's message callback and `send` forwards to `port.postMessage` unless the
 captured `disconnected` flag is set.
 */
module Walls {
  import opened Handles
  import opened Effects

  /**
   The wall object together with the variables its closures capture: the
   port and the local `disconnected` flag.
   */
  datatype Wall = Wall(ref: WallRef, port: PortRef, disconnected: bool)

  /** The wall as `setup` builds it: `disconnected` starts false. */
  function Create(ref: WallRef, port: PortRef): (w: Wall)
    ensures w.ref == ref && w.port == port
    ensures !w.disconnected
  {
    Wall(ref, port, false)
  }

  /** `wall.listen(fn)`: installs one message callback on the wall's port. */
  function Listen(w: Wall): (effs: seq<Effect>)
    ensures |effs| == 1 && effs[0].SetOnMessage? && effs[0].port == w.port
  {
    [SetOnMessage(w.port)]
  }

  /** `wall.send(data)`: forwarded to the port iff the wall is not disconnected. */
  function Send(w: Wall, data: JsValue): (effs: seq<Effect>)
    ensures effs != [] <==> !w.disconnected
    ensures forall i :: 0 <= i < |effs| ==> effs[i] == PostMessage(w.port, data)
    ensures |effs| <= 1
  {
    if w.disconnected then [] else [PostMessage(w.port, data)]
  }

  /** The effects of sending `msgs` through `w` one after another. */
  function SendAll(w: Wall, msgs: seq<JsValue>): seq<Effect>
  {
    if msgs == [] then [] else Send(w, msgs[0]) + SendAll(w, msgs[1..])
  }

  /** A connected wall forwards every message, unchanged and in order. */
  lemma {:induction false} SendAllForwards(w: Wall, msgs: seq<JsValue>)
    requires !w.disconnected
    ensures |SendAll(w, msgs)| == |msgs|
    ensures forall i :: 0 <= i < |msgs| ==> SendAll(w, msgs)[i] == PostMessage(w.port, msgs[i])
  {
    if msgs != [] {
      SendAllForwards(w, msgs[1..]);
      assert SendAll(w, msgs) == [PostMessage(w.port, msgs[0])] + SendAll(w, msgs[1..]);
      forall i | 0 <= i < |msgs|
        ensures SendAll(w, msgs)[i] == PostMessage(w.port, msgs[i])
      {
        if i > 0 {
          assert SendAll(w, msgs)[i] == SendAll(w, msgs[1..])[i - 1];
          assert msgs[1..][i - 1] == msgs[i];
        }
      }
    }
  }

  /** A disconnected wall drops every message silently. */
  lemma {:induction false} SendAllDropped(w: Wall, msgs: seq<JsValue>)
    requires w.disconnected
    ensures SendAll(w, msgs) == []
  {
    if msgs != [] {
      SendAllDropped(w, msgs[1..]);
    }
  }
}
