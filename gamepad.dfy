/**
  `src/gamepad.rs`: the bridge that makes touch sticks look like a classic gamepad. Each
  frame first runs the connection edge detector, then republishes every mapped stick's
  value as two axis events for the (single) emulated gamepad.
*/
module Gamepad {
  import opened Geometry
  import opened StickTypes
  import opened Wrappers

  newtype u16 = x: int | 0 <= x < 0x1_0000

  /** Product id of the emulated gamepad, picked to avoid clashing with real devices. */
  const TOUCH_GAMEPAD_ID: u16 := 51492

  const GAMEPAD_NAME: string := "bevy_touch_stick"

  datatype GamepadAxis = LeftStickX | LeftStickY | LeftZ | RightStickX | RightStickY | RightZ | Other(code: nat)

  /** Which two gamepad axes a stick's x and y values are published on. */
  datatype TouchStickGamepadMapping = TouchStickGamepadMapping(xAxis: GamepadAxis, yAxis: GamepadAxis)

  const LEFT_STICK: TouchStickGamepadMapping := TouchStickGamepadMapping(LeftStickX, LeftStickY)

  const RIGHT_STICK: TouchStickGamepadMapping := TouchStickGamepadMapping(RightStickX, RightStickY)

  /** A stick entity and, when it carries one, its gamepad mapping component. */
  datatype StickEntity = StickEntity(stick: TouchStick, mapping: Option<TouchStickGamepadMapping>)

  /** A stick together with its mapping, as the axis query yields it. */
  datatype MappedStick = MappedStick(stick: TouchStick, mapping: TouchStickGamepadMapping)

  datatype GamepadConnection =
    | Connected(name: string, vendorId: Option<u16>, productId: Option<u16>)
    | Disconnected

  datatype GamepadEvent =
    | Connection(gamepad: Entity, connection: GamepadConnection)
    | AxisChanged(gamepad: Entity, axis: GamepadAxis, value: real)

  /** The connection the emulated gamepad announces. */
  const TOUCH_CONNECTION: GamepadConnection := Connected(GAMEPAD_NAME, None, Some(TOUCH_GAMEPAD_ID))

  /** The positions of the sticks that carry a mapping, in query order. */
  function MappedIndices(sticks: seq<StickEntity>): (r: seq<nat>)
    ensures forall j :: 0 <= j < |r| ==> r[j] < |sticks| && sticks[r[j]].mapping.Some?
    decreases |sticks|
  {
    if sticks == [] then []
    else
      var n := |sticks| - 1;
      var before := MappedIndices(sticks[..n]);
      assert forall j :: 0 <= j < |before| ==> sticks[..n][before[j]] == sticks[before[j]];
      before + if sticks[n].mapping.Some? then [n] else []
  }

  /** The mapped positions are strictly increasing and include every stick that has a mapping. */
  lemma {:induction false} MappedIndicesExact(sticks: seq<StickEntity>)
    ensures var r := MappedIndices(sticks);
      && (forall j, l :: 0 <= j < l < |r| ==> r[j] < r[l])
      && (forall i :: 0 <= i < |sticks| && sticks[i].mapping.Some? ==> i in r)
    decreases |sticks|
  {
    if sticks != [] {
      var n := |sticks| - 1;
      var prefix := sticks[..n];
      MappedIndicesExact(prefix);
      forall i | 0 <= i < |sticks| && sticks[i].mapping.Some?
        ensures i in MappedIndices(sticks)
      {
        if i < n {
          assert prefix[i] == sticks[i];
        }
      }
    }
  }

  /** The sticks that carry a mapping, in query order: one entry per mapped position. */
  function MappedSticks(sticks: seq<StickEntity>): (r: seq<MappedStick>)
    ensures |r| == |MappedIndices(sticks)|
    ensures r == [] <==> forall i :: 0 <= i < |sticks| ==> sticks[i].mapping.None?
    decreases |sticks|
  {
    if sticks == [] then []
    else
      var n := |sticks| - 1;
      var before := MappedSticks(sticks[..n]);
      assert forall i :: 0 <= i < n ==> sticks[..n][i] == sticks[i];
      before + match sticks[n].mapping
               case Some(m) => [MappedStick(sticks[n].stick, m)]
               case None => []
  }

  /**
    The mapped-stick query yields exactly the mapped sticks, in query order: entry `k` is
    the stick at the `k`-th mapped position, with its mapping.
  */
  lemma {:induction false} MappedSticksAreIndexed(sticks: seq<StickEntity>)
    // the length (already promised by `MappedSticks`) is restated so the induction hypothesis can index
    ensures |MappedSticks(sticks)| == |MappedIndices(sticks)|
    ensures var r := MappedSticks(sticks);
      var idx := MappedIndices(sticks);
      forall k :: 0 <= k < |idx| ==> r[k] == MappedStick(sticks[idx[k]].stick, sticks[idx[k]].mapping.value)
    decreases |sticks|
  {
    if sticks != [] {
      var n := |sticks| - 1;
      var prefix := sticks[..n];
      MappedSticksAreIndexed(prefix);
      var before := MappedSticks(prefix);
      var idxBefore := MappedIndices(prefix);
      var r := MappedSticks(sticks);
      var idx := MappedIndices(sticks);
      forall k | 0 <= k < |idxBefore|
        ensures r[k] == MappedStick(sticks[idx[k]].stick, sticks[idx[k]].mapping.value)
      {
        assert idx[k] == idxBefore[k] && r[k] == before[k];
        assert sticks[idx[k]] == prefix[idxBefore[k]];
      }
    }
  }

  /** `!sticks.is_empty()` for the query of mapped sticks. */
  predicate HasMappedStick(sticks: seq<StickEntity>) {
    MappedSticks(sticks) != []
  }

  /**
    The part of the host world the bridge reads and writes: its persistent
    `was_connected` flag, the `FakeGamepad` entities it has spawned (oldest first), the
    next entity id the host will hand out, and the gamepad event queue.
  */
  datatype BridgeState = BridgeState(
    wasConnected: bool,
    fakeGamepads: seq<Entity>,
    nextEntity: Entity,
    events: seq<GamepadEvent>)

  /** The world before the first frame; `was_connected` starts out false. */
  function Init(firstFree: Entity): BridgeState {
    BridgeState(false, [], firstFree, [])
  }

  /** `connect_gamepad`: on a change of "some mapped stick exists", spawn a fake gamepad and announce it. */
  function Connect(s: BridgeState, sticks: seq<StickEntity>): (r: BridgeState)
    // the flag always ends equal to the current connection state
    ensures r.wasConnected == HasMappedStick(sticks)
    // at most one event, and one exactly when the connection state changed
    ensures |r.events| == |s.events| + if s.wasConnected != HasMappedStick(sticks) then 1 else 0
    ensures r.events[..|s.events|] == s.events
    ensures s.wasConnected != HasMappedStick(sticks) ==>
      r.events[|s.events|] ==
        Connection(s.nextEntity, if HasMappedStick(sticks) then TOUCH_CONNECTION else Disconnected)
    // every event comes with one newly spawned fake gamepad, and none is ever removed
    ensures |r.fakeGamepads| - |s.fakeGamepads| == |r.events| - |s.events|
    ensures r.fakeGamepads[..|s.fakeGamepads|] == s.fakeGamepads
    // the spawned gamepad is the entity the event names, taken from the host's allocator
    ensures s.wasConnected != HasMappedStick(sticks) ==>
      r.fakeGamepads == s.fakeGamepads + [s.nextEntity] && r.nextEntity == s.nextEntity + 1
    // without a change nothing at all happens
    ensures s.wasConnected == HasMappedStick(sticks) ==> r == s
  {
    var connected := HasMappedStick(sticks);
    if s.wasConnected != connected then
      var gamepad := s.nextEntity;
      var connection := if connected then TOUCH_CONNECTION else Disconnected;
      BridgeState(connected, s.fakeGamepads + [gamepad], gamepad + 1,
                  s.events + [Connection(gamepad, connection)])
    else
      s
  }

  /** A second call with the same sticks changes nothing and emits nothing. */
  lemma ConnectIdempotent(s: BridgeState, sticks: seq<StickEntity>)
    ensures Connect(Connect(s, sticks), sticks) == Connect(s, sticks)
  {
  }

  /** From the initial world, a frame without mapped sticks emits nothing. */
  lemma ConnectFromInitWithoutSticks(firstFree: Entity, sticks: seq<StickEntity>)
    requires !HasMappedStick(sticks)
    ensures Connect(Init(firstFree), sticks) == Init(firstFree)
  {
  }

  /** The two axis events for one mapped stick: x first, then y. */
  function StickEvents(gamepad: Entity, m: MappedStick): seq<GamepadEvent> {
    [AxisChanged(gamepad, m.mapping.xAxis, m.stick.value.x), AxisChanged(gamepad, m.mapping.yAxis, m.stick.value.y)]
  }

  /** The axis events for a sequence of mapped sticks, in query order. */
  function AxisEvents(gamepad: Entity, mapped: seq<MappedStick>): (r: seq<GamepadEvent>)
    // two per stick, each an axis event for `gamepad`
    ensures |r| == 2 * |mapped|
    ensures forall j :: 0 <= j < |r| ==> r[j].AxisChanged? && r[j].gamepad == gamepad
    decreases |mapped|
  {
    if mapped == [] then []
    else AxisEvents(gamepad, mapped[..|mapped| - 1]) + StickEvents(gamepad, mapped[|mapped| - 1])
  }

  /** Two events per stick: event `2k` carries stick `k`'s x value, event `2k+1` its y value. */
  lemma {:induction false} AxisEventsShape(gamepad: Entity, mapped: seq<MappedStick>)
    // the length (already promised by `AxisEvents`) is restated so the induction hypothesis can index
    ensures var ev := AxisEvents(gamepad, mapped);
      && |ev| == 2 * |mapped|
      && forall k :: 0 <= k < |mapped| ==>
           && ev[2 * k] == AxisChanged(gamepad, mapped[k].mapping.xAxis, mapped[k].stick.value.x)
           && ev[2 * k + 1] == AxisChanged(gamepad, mapped[k].mapping.yAxis, mapped[k].stick.value.y)
    decreases |mapped|
  {
    if mapped != [] {
      var n := |mapped| - 1;
      AxisEventsShape(gamepad, mapped[..n]);
      var before := AxisEvents(gamepad, mapped[..n]);
      var ev := AxisEvents(gamepad, mapped);
      assert ev == before + StickEvents(gamepad, mapped[n]);
      forall k | 0 <= k < n
        ensures ev[2 * k] == AxisChanged(gamepad, mapped[k].mapping.xAxis, mapped[k].stick.value.x)
        ensures ev[2 * k + 1] == AxisChanged(gamepad, mapped[k].mapping.yAxis, mapped[k].stick.value.y)
      {
        assert ev[2 * k] == before[2 * k] && ev[2 * k + 1] == before[2 * k + 1];
        assert mapped[..n][k] == mapped[k];
      }
    }
  }

  /** `send_axis_events`: only when exactly one fake gamepad exists, republish every mapped stick. */
  function SendAxis(s: BridgeState, sticks: seq<StickEntity>): (r: BridgeState)
    ensures r.wasConnected == s.wasConnected && r.fakeGamepads == s.fakeGamepads && r.nextEntity == s.nextEntity
    ensures |s.fakeGamepads| != 1 ==> r.events == s.events
    ensures |s.fakeGamepads| == 1 ==>
      r.events == s.events + AxisEvents(s.fakeGamepads[0], MappedSticks(sticks))
  {
    if |s.fakeGamepads| == 1 then
      s.(events := s.events + AxisEvents(s.fakeGamepads[0], MappedSticks(sticks)))
    else
      s
  }

  /** The connections announced in an event queue, in order. */
  function Connections(events: seq<GamepadEvent>): seq<GamepadConnection>
    decreases |events|
  {
    if events == [] then []
    else
      var last := events[|events| - 1];
      Connections(events[..|events| - 1]) + if last.Connection? then [last.connection] else []
  }

  lemma {:induction false} ConnectionsAppend(a: seq<GamepadEvent>, b: seq<GamepadEvent>)
    ensures Connections(a + b) == Connections(a) + Connections(b)
    decreases |b|
  {
    if b == [] {
      assert a + b == a;
    } else {
      var n := |b| - 1;
      ConnectionsAppend(a, b[..n]);
      assert (a + b)[..|a + b| - 1] == a + b[..n];
      assert (a + b)[|a + b| - 1] == b[n];
    }
  }

  lemma ConnectionsSingle(e: GamepadEvent)
    ensures Connections([e]) == if e.Connection? then [e.connection] else []
  {
    assert [e][..0] == [];
  }

  /** A queue of axis events announces no connection. */
  lemma {:induction false} AxisOnlyHasNoConnections(events: seq<GamepadEvent>)
    requires forall j :: 0 <= j < |events| ==> events[j].AxisChanged?
    ensures Connections(events) == []
    decreases |events|
  {
    if events != [] {
      AxisOnlyHasNoConnections(events[..|events| - 1]);
    }
  }

  /**
    The bookkeeping of the as-written bridge: one fake gamepad per connection event sent;
    the connections alternate, the even-numbered ones being the emulated device's
    Connected and the odd-numbered ones Disconnected; and `was_connected` holds exactly
    when the last one was a Connected.
  */
  predicate ConnectionHistory(s: BridgeState) {
    var c := Connections(s.events);
    && |s.fakeGamepads| == |c|
    && (s.wasConnected <==> |c| % 2 == 1)
    && forall k :: 0 <= k < |c| ==> c[k] == if k % 2 == 0 then TOUCH_CONNECTION else Disconnected
  }

  lemma ConnectKeepsHistory(s: BridgeState, sticks: seq<StickEntity>)
    ensures ConnectionHistory(s) ==> ConnectionHistory(Connect(s, sticks))
  {
    var r := Connect(s, sticks);
    if ConnectionHistory(s) && s.wasConnected != HasMappedStick(sticks) {
      var e := r.events[|s.events|];
      assert r.events == s.events + [e];
      ConnectionsAppend(s.events, [e]);
      ConnectionsSingle(e);
    }
  }

  lemma SendAxisKeepsHistory(s: BridgeState, sticks: seq<StickEntity>)
    ensures ConnectionHistory(s) ==> ConnectionHistory(SendAxis(s, sticks))
  {
    if |s.fakeGamepads| == 1 {
      var axis := AxisEvents(s.fakeGamepads[0], MappedSticks(sticks));
      ConnectionsAppend(s.events, axis);
      AxisOnlyHasNoConnections(axis);
    }
  }

  /** One frame: the connection system, then the axis system (they are chained). */
  function Frame(s: BridgeState, sticks: seq<StickEntity>): (r: BridgeState)
    ensures r.wasConnected == HasMappedStick(sticks)
    // events are only ever appended, and gamepads only ever added
    ensures |s.events| <= |r.events| && r.events[..|s.events|] == s.events
    ensures |s.fakeGamepads| <= |r.fakeGamepads| && r.fakeGamepads[..|s.fakeGamepads|] == s.fakeGamepads
    ensures ConnectionHistory(s) ==> ConnectionHistory(r)
  {
    ConnectKeepsHistory(s, sticks);
    SendAxisKeepsHistory(Connect(s, sticks), sticks);
    SendAxis(Connect(s, sticks), sticks)
  }

  /** The world after a sequence of frames, each given by the stick entities present in it. */
  function Run(s: BridgeState, frames: seq<seq<StickEntity>>): (r: BridgeState)
    ensures |s.events| <= |r.events| && r.events[..|s.events|] == s.events
    ensures |s.fakeGamepads| <= |r.fakeGamepads| && r.fakeGamepads[..|s.fakeGamepads|] == s.fakeGamepads
    ensures ConnectionHistory(s) ==> ConnectionHistory(r)
    decreases |frames|
  {
    if frames == [] then s
    else
      var before := Run(s, frames[..|frames| - 1]);
      var r := Frame(before, frames[|frames| - 1]);
      assert r.events[..|s.events|] == before.events[..|s.events|];
      assert r.fakeGamepads[..|s.fakeGamepads|] == before.fakeGamepads[..|s.fakeGamepads|];
      r
  }

  /**
    Over any run from the initial world, there are exactly as many fake gamepads as
    connection events sent, the connection events alternate (Connected first), and
    `was_connected` holds exactly when an odd number of them was sent.
  */
  lemma RunKeepsHistory(firstFree: Entity, frames: seq<seq<StickEntity>>)
    ensures ConnectionHistory(Run(Init(firstFree), frames))
  {
    assert Connections(Init(firstFree).events) == [];
  }

  /**
    The host world as mutable state. `ConnectGamepad` and `SendAxisEvents` are the two
    systems of the bridge; `State` is the value the pure model above speaks about.
  */
  class BridgeWorld {
    var wasConnected: bool
    var fakeGamepads: seq<Entity>
    var nextEntity: Entity
    var events: seq<GamepadEvent>

    function State(): BridgeState
      reads this
    {
      BridgeState(wasConnected, fakeGamepads, nextEntity, events)
    }

    constructor (firstFree: Entity)
      ensures State() == Init(firstFree)
    {
      wasConnected := false;
      fakeGamepads := [];
      nextEntity := firstFree;
      events := [];
    }

    method ConnectGamepad(sticks: seq<StickEntity>)
      modifies this
      ensures State() == Connect(old(State()), sticks)
    {
      var connected := MappedSticks(sticks) != [];
      if wasConnected != connected {
        wasConnected := connected;
        var newGamepad := nextEntity;
        fakeGamepads := fakeGamepads + [newGamepad];
        nextEntity := nextEntity + 1;
        var connection := if connected then TOUCH_CONNECTION else Disconnected;
        events := events + [Connection(newGamepad, connection)];
      }
    }

    method SendAxisEvents(sticks: seq<StickEntity>)
      modifies this`events
      ensures State() == SendAxis(old(State()), sticks)
    {
      if |fakeGamepads| != 1 {
        return;
      }
      var gamepad := fakeGamepads[0];
      var mapped := MappedSticks(sticks);
      for i := 0 to |mapped|
        invariant events == old(events) + AxisEvents(gamepad, mapped[..i])
      {
        assert mapped[..i + 1][..i] == mapped[..i];
        var m := mapped[i];
        events := events + [AxisChanged(gamepad, m.mapping.xAxis, m.stick.value.x)];
        events := events + [AxisChanged(gamepad, m.mapping.yAxis, m.stick.value.y)];
      }
      assert mapped[..|mapped|] == mapped;
    }
  }

  // ---------------------------------------------------------------------------
  // Reconnecting silences the axis events

  /** A left-mapped stick held fully to the right. */
  const HELD_STICK: StickEntity := StickEntity(TouchStick(Fixed, Vec2(1.0, 0.0), 50.0), Some(LEFT_STICK))

  /** From `s` to `t` only connection events were appended: no axis event was sent. */
  predicate OnlyConnectionsAfter(s: BridgeState, t: BridgeState) {
    && |s.events| <= |t.events|
    && t.events[..|s.events|] == s.events
    && forall j :: |s.events| <= j < |t.events| ==> t.events[j].Connection?
  }

  /**
    As written, fake gamepads are never removed, so once two or more exist the axis
    system stays silent for every later frame, whatever sticks those frames hold.
  */
  lemma {:induction false} AccumulatedGamepadsStaySilent(s: BridgeState, later: seq<seq<StickEntity>>)
    requires |s.fakeGamepads| >= 2
    ensures OnlyConnectionsAfter(s, Run(s, later))
    decreases |later|
  {
    if later != [] {
      var n := |later| - 1;
      AccumulatedGamepadsStaySilent(s, later[..n]);
      var before := Run(s, later[..n]);
      var c := Connect(before, later[n]);
      assert Frame(before, later[n]) == c;
      var t := Run(s, later);
      assert t == c;
      assert t.events[..|before.events|] == before.events;
      forall j | |s.events| <= j < |t.events|
        ensures t.events[j].Connection?
      {
        if j < |before.events| {
          assert t.events[j] == before.events[j];
        }
      }
    }
  }

  /** The three frames map, unmap, remap, one at a time. */
  lemma ReconnectTrace()
    ensures var s := Run(Init(0), [[HELD_STICK], [], [HELD_STICK]]);
      && s.wasConnected
      && s.fakeGamepads == [0, 1, 2]
      && |s.events| == 5
      && s.events[0] == Connection(0, TOUCH_CONNECTION)
      && s.events[3] == Connection(1, Disconnected)
      && s.events[4] == Connection(2, TOUCH_CONNECTION)
  {
    assert MappedSticks([HELD_STICK]) == [MappedStick(HELD_STICK.stick, LEFT_STICK)] by {
      assert [HELD_STICK][..0] == [];
    }
    var frames := [[HELD_STICK], [], [HELD_STICK]];
    assert frames[..2][..1][..0] == [];
    assert frames[..2][..1] == [[HELD_STICK]];
    assert frames[..2] == [[HELD_STICK], []];
    var s1 := Frame(Init(0), [HELD_STICK]);
    assert s1.wasConnected && s1.fakeGamepads == [0] && |s1.events| == 3;
    assert s1.events[0] == Connection(0, TOUCH_CONNECTION);
    assert Run(Init(0), [[HELD_STICK]]) == s1;
    var s2 := Frame(s1, []);
    assert !s2.wasConnected && s2.fakeGamepads == [0, 1] && |s2.events| == 4;
    assert s2.events == s1.events + [Connection(1, Disconnected)];
    assert Run(Init(0), frames[..2]) == s2;
    var s3 := Frame(s2, [HELD_STICK]);
    assert s3.wasConnected && s3.fakeGamepads == [0, 1, 2];
    assert s3.events == s2.events + [Connection(2, TOUCH_CONNECTION)];
    assert Run(Init(0), frames) == s3;
  }

  /**
    As written: map a stick, remove it, map it again. The Disconnected event names entity
    1 although entity 0 was announced as connected. After the third frame three fake
    gamepads exist, so `send_axis_events` never finds a single one again: from then on no
    axis event is sent, whatever later frames hold, although a Connected event was just
    sent for the still-mapped stick.
  */
  lemma ReconnectSilencesAxisEvents()
    ensures var s := Run(Init(0), [[HELD_STICK], [], [HELD_STICK]]);
      && s.wasConnected
      && s.fakeGamepads == [0, 1, 2]
      && |s.events| == 5
      && s.events[0] == Connection(0, TOUCH_CONNECTION)
      && s.events[3] == Connection(1, Disconnected)
      && s.events[4] == Connection(2, TOUCH_CONNECTION)
      && forall later :: OnlyConnectionsAfter(s, Run(s, later))
  {
    ReconnectTrace();
    var s := Run(Init(0), [[HELD_STICK], [], [HELD_STICK]]);
    forall later: seq<seq<StickEntity>>
      ensures OnlyConnectionsAfter(s, Run(s, later))
    {
      AccumulatedGamepadsStaySilent(s, later);
    }
  }

  /** One fake gamepad while connected, none otherwise. */
  predicate SingleGamepad(s: BridgeState) {
    |s.fakeGamepads| == if s.wasConnected then 1 else 0
  }

  /**
    Corrected: the gamepad spawned on connection is the one announced as disconnected
    later, and it is despawned then, so at most one fake gamepad ever exists.
  */
  function ConnectFixed(s: BridgeState, sticks: seq<StickEntity>): (r: BridgeState)
    requires SingleGamepad(s)
    ensures SingleGamepad(r)
    ensures r.wasConnected == HasMappedStick(sticks)
    ensures |r.events| == |s.events| + if s.wasConnected != HasMappedStick(sticks) then 1 else 0
    ensures r.events[..|s.events|] == s.events
    ensures s.wasConnected && !HasMappedStick(sticks) ==>
      r.events[|s.events|] == Connection(s.fakeGamepads[0], Disconnected)
    ensures s.wasConnected && !HasMappedStick(sticks) ==> r.fakeGamepads == [] && r.nextEntity == s.nextEntity
    ensures !s.wasConnected && HasMappedStick(sticks) ==>
      && r.events[|s.events|] == Connection(s.nextEntity, TOUCH_CONNECTION)
      && r.fakeGamepads == [s.nextEntity] && r.nextEntity == s.nextEntity + 1
    ensures s.wasConnected == HasMappedStick(sticks) ==> r == s
  {
    var connected := HasMappedStick(sticks);
    if s.wasConnected != connected then
      if connected then
        var gamepad := s.nextEntity;
        BridgeState(true, [gamepad], gamepad + 1, s.events + [Connection(gamepad, TOUCH_CONNECTION)])
      else
        BridgeState(false, [], s.nextEntity, s.events + [Connection(s.fakeGamepads[0], Disconnected)])
    else
      s
  }

  function FrameFixed(s: BridgeState, sticks: seq<StickEntity>): BridgeState
    requires SingleGamepad(s)
  {
    SendAxis(ConnectFixed(s, sticks), sticks)
  }

  function RunFixed(s: BridgeState, frames: seq<seq<StickEntity>>): (r: BridgeState)
    requires SingleGamepad(s)
    ensures SingleGamepad(r)
    decreases |frames|
  {
    if frames == [] then s else FrameFixed(RunFixed(s, frames[..|frames| - 1]), frames[|frames| - 1])
  }

  /**
    With the correction, after any history, a frame in which sticks are mapped publishes
    every mapped stick's two axis values, after at most one connection event.
  */
  lemma AxisEventsAfterAnyHistory(firstFree: Entity, frames: seq<seq<StickEntity>>, sticks: seq<StickEntity>)
    requires HasMappedStick(sticks)
    ensures var s := RunFixed(Init(firstFree), frames);
      var next := FrameFixed(s, sticks);
      var c := ConnectFixed(s, sticks);
      && next.events == c.events + AxisEvents(c.fakeGamepads[0], MappedSticks(sticks))
      && |next.events| == |s.events| + (if s.wasConnected then 0 else 1) + 2 * |MappedSticks(sticks)|
  {
    var s := RunFixed(Init(firstFree), frames);
    var c := ConnectFixed(s, sticks);
    AxisEventsShape(c.fakeGamepads[0], MappedSticks(sticks));
  }
}
