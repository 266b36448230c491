# bevy_touch_stick: a Dafny model of the stick renderers and the gamepad bridge

bevy_touch_stick adds on-screen virtual joysticks ("touch sticks") to a Bevy game. This
project models three parts of the crate and proves properties about them.

- **The style-patch renderer** (`src/ui.rs`, module `StylePatch`, file `ui.dfy`). It runs
  every frame. For each knob and outline child of a stick, it sets `display` and, when
  the stick can be placed, the `left`/`bottom` pixel offsets, according to the stick's
  behaviour.
  - Floating: hidden while the value is zero.
  - Dynamic: the outline follows the knob by `MOVE_PERCENT_RELATIVE` = 0.25.
  - Fixed: the knob's travel is clamped to half the radius.
- **The extraction renderer and the bundle builder** (`src/joystick.rs`, module
  `Joystick`, file `joystick.dfy`).
  - `TintColor` and its default.
  - The chainable `TouchStickBundle` setters.
  - `extract_joystick_node`: walks the UI stack in order and pushes one border record
    and one knob record for every stick entity that is not skipped.
- **The gamepad bridge** (`src/gamepad.rs`, module `Gamepad`, file `gamepad.dfy`).
  - `connect_gamepad` watches whether any stick carries a `TouchStickGamepadMapping`. On
    each change it spawns a `FakeGamepad` entity and sends a connection event. The
    emulated device is `"bevy_touch_stick"` with product id `TOUCH_GAMEPAD_ID` = 51492
    and no vendor id.
  - `send_axis_events` runs next and republishes each mapped stick's value as two axis
    events, x then y, when exactly one fake gamepad exists.
  - The `LEFT_STICK` and `RIGHT_STICK` mappings are constants.

Shared pieces:
- `geometry.dfy` (module `Geometry`) holds the vectors, rectangles and the clamps of glam
  that the renderers use.
- `common.dfy` (modules `Wrappers` and `StickTypes`) holds `Option` and the part of the
  stick record that the renderers and the bridge read.

Modelling choices:
- `f32` is idealised as `real`.
- `Vec2::clamp_length` needs a square root, which Dafny's reals lack. The host's `sqrt`
  is therefore a parameter, constrained by `Geometry.IsSqrt` to return the non-negative
  square root.
- Each place where the source changes state is imperative Dafny:
  - `StylePatch.PatchStickNode` patches the knob and outline elements in place, in two
    arrays.
  - `Joystick.ExtractJoystickNode` appends to the `ExtractedUiNodes` draw list.
  - `Gamepad.BridgeWorld` holds the bridge's `Local<bool>` flag, the spawned fake
    gamepads, the host's next entity id and the event queue.
- Each imperative method is proved equal to a pure function, and the properties are
  proved about that function.
  - `PatchKnob` and `PatchOutline` give one loop iteration of the style patch.
  - `Extract` walks the whole UI stack.
  - `Connect` and `SendAxis` act on `BridgeState`.

Behaviour that follows the code:
- The two renderers do not place the knob the same way.
  - The extraction flips y and scales by half the node width.
  - The style patch does not flip y and scales by the stick's radius; for a Fixed stick
    it also clamps.
  - The model keeps both formulas as written (`Joystick.KnobPosition`,
    `StylePatch.KnobPixels`).
- The extraction draws nothing for a Dynamic stick without an active drag. It does draw a
  Floating stick without a drag, with the knob resting on the border (`Joystick.Skipped`,
  `Joystick.KnobPosition`).
- The style patch never moves the outline of a Fixed stick, and never moves a Floating
  stick's outline.
- The extraction's Fixed knob travel is not clamped, unlike the style patch's.

## Model

| member | source | states |
|---|---|---|
| `Geometry.ClampScalar` | src/ui.rs:128 | one axis of `Vec2::clamp`: the result lies in `[lo, hi]`; a value inside is kept; a value below gives `lo`, one above gives `hi` |
| `Geometry.ClampAxes` | src/ui.rs:128 | `clamp(splat(lo), splat(hi))`, each axis on its own: an axis inside the range is kept, one below becomes `lo`, one above becomes `hi`; both axes end in the range |
| `Geometry.ClampLengthMax` | src/ui.rs:129 | `clamp_length(0, max)`: the squared length is at most `max²`; a vector already that short is unchanged; a longer one ends at exactly length `max`; no coordinate grows in magnitude |
| `Geometry.ClampLengthKeepsDirection` | src/ui.rs:129 | the clamped vector is a non-negative multiple of the input: collinear and not reversed |
| `StylePatch.KnobPixels` | src/ui.rs:94-137 | the knob offset by behaviour: Floating and Dynamic travel `value * radius`; Fixed stays within half the radius; inside the half-unit disk all three agree |
| `StylePatch.FixedKnobOffset` | src/ui.rs:126-136 | a Fixed knob's offset stays within half the radius, per axis and in length; a value inside the half-unit disk passes through as plain `value * radius` |
| `StylePatch.PatchKnob` | src/ui.rs:92-140 | parent unchanged; an orphan knob is untouched; hidden iff the stick is Floating with value zero, otherwise `Flex`; offsets kept unless the stick node is visible with a non-zero size, and then set to the behaviour's knob offset (`value * radius`, or the clamped Fixed offset) |
| `StylePatch.PatchOutline` | src/ui.rs:142-169 | parent unchanged; an orphan outline is untouched; hidden iff Floating with value zero, otherwise `Flex`; only a placeable Dynamic stick moves its outline, to `value * 0.25 * radius`; Floating and Fixed outlines keep their offsets |
| `StylePatch.DynamicOutlineFollowsKnob` | src/ui.rs:111-121 | for a placed Dynamic stick, the outline's `left`/`bottom` pixels are exactly `MOVE_PERCENT_RELATIVE` times the knob's (cross-check between the two loops, outline loop at src/ui.rs:151-163) |
| `StylePatch.PatchIdempotent` | src/ui.rs:92-169 | patching a knob or an outline a second time in the same state changes nothing |
| `StylePatch.PatchStickNode` | src/ui.rs:77-170 | every knob element becomes `PatchKnob` of its old value and every outline element `PatchOutline` of its old value; nothing else changes |
| `Joystick.DefaultTint` | src/joystick.rs:22-30 | the default tint is opaque white |
| `Joystick.TintFromInverse` | src/joystick.rs:32-36 | `From<Color>` and the tint's colour field are inverse: converting a tint's colour gives back the tint, and a converted colour reads back unchanged |
| `Joystick.SetNode` | src/joystick.rs:115-118 | `node` takes the new value, every other bundle field is unchanged |
| `Joystick.SetStyle` | src/joystick.rs:120-123 | `style` takes the new value, every other field unchanged |
| `Joystick.SetColor` | src/joystick.rs:125-128 | `color` takes the new value, every other field unchanged |
| `Joystick.SetFocusPolicy` | src/joystick.rs:130-133 | `focus_policy` takes the new value, every other field unchanged |
| `Joystick.SetTransform` | src/joystick.rs:135-138 | `transform` takes the new value, every other field unchanged |
| `Joystick.SetGlobalTransform` | src/joystick.rs:140-143 | `global_transform` takes the new value, every other field unchanged |
| `Joystick.SetVisibility` | src/joystick.rs:145-148 | `visibility` takes the new value, every other field unchanged |
| `Joystick.SetComputedVisibility` | src/joystick.rs:150-153 | `computed_visibility` takes the new value, every other field unchanged |
| `Joystick.SetZIndex` | src/joystick.rs:155-158 | `z_index` takes the new value, every other field unchanged |
| `Joystick.SettersRoundTrip` | src/joystick.rs:115-158 | setting any of the nine fields to its current value is the identity; `set_node`/`set_color` and `set_color`/`set_z_index` commute |
| `Joystick.LocalOrigin` | src/joystick.rs:193-201 | `container_rect.center() - size / 2` is the zero vector, so the Fixed anchor is the node's global translation |
| `Joystick.BorderPosition` | src/joystick.rs:198-212 | the border is anchored at the node's translation for Fixed, and for Floating without a drag; at the drag start for Floating with a drag; at the base position for Dynamic |
| `Joystick.KnobPosition` | src/joystick.rs:231-250 | with a drag (Floating) or for Dynamic, the knob is the border anchor plus `(x, -y) * width / 2`; a Floating stick without a drag puts the knob on the border anchor; a Fixed knob is the node's translation plus the same unclamped travel |
| `Joystick.NodeRecords` | src/joystick.rs:183-262 | an entity yields nothing iff one of the seven skip conditions of src/joystick.rs:183-192 holds (not visible, zero width, zero height, fully transparent tint, border image missing, knob image missing, Dynamic without a drag), otherwise exactly two records: border image then knob image, both with the stack index, the tint colour, their rects, no atlas, no clip, no flips, and the border and knob positions |
| `Joystick.DrawnIndices` | src/joystick.rs:179-192 | every listed stack index is in range, queried, and not skipped |
| `Joystick.DrawnIndicesExact` | src/joystick.rs:179-192 | the drawn indices are strictly increasing (stack order) and include every index whose entity is queried and not skipped |
| `Joystick.Extract` | src/joystick.rs:179-265 | the records of the whole stack walk: exactly two per drawn stack position |
| `Joystick.ExtractIsDrawnPairs` | src/joystick.rs:179-265 | record `2k` is the border record and `2k+1` the knob record of the `k`-th drawn stack entry |
| `Joystick.ExtractJoystickNode` | src/joystick.rs:162-265 | the draw list gains exactly `Extract` of the UI stack, appended after what it held before |
| `Gamepad.MappedIndices` | src/gamepad.rs:86 | every listed position holds a stick with a mapping |
| `Gamepad.MappedIndicesExact` | src/gamepad.rs:86 | the listed positions are strictly increasing (query order) and include every stick that has a mapping |
| `Gamepad.MappedSticks` | src/gamepad.rs:59-62 | the mapped-stick query has one entry per mapped position, so it is empty iff no stick carries a mapping |
| `Gamepad.MappedSticksAreIndexed` | src/gamepad.rs:86 | entry `k` of the query is the stick at the `k`-th mapped position together with its mapping |
| `Gamepad.Connect` | src/gamepad.rs:56-80 | the flag becomes "some stick is mapped"; exactly one event is appended when that changed and none otherwise; it is `Connected("bevy_touch_stick", no vendor, product 51492)` or `Disconnected`, naming the newly spawned gamepad; that entity, the allocator's next id, is the one fake gamepad added, and none is removed; without a change the world is untouched |
| `Gamepad.ConnectIdempotent` | src/gamepad.rs:62-65 | a second call with the same sticks changes nothing |
| `Gamepad.ConnectFromInitWithoutSticks` | src/gamepad.rs:60-64 | from the initial `false` flag, a frame without mapped sticks emits nothing and spawns nothing |
| `Gamepad.AxisEvents` | src/gamepad.rs:92-108 | two events per mapped stick, every one an axis event for the given gamepad |
| `Gamepad.SendAxis` | src/gamepad.rs:83-109 | with exactly one fake gamepad, the mapped sticks' axis events for that gamepad are appended; otherwise nothing is emitted; flag and gamepads unchanged |
| `Gamepad.AxisEventsShape` | src/gamepad.rs:92-108 | two events per mapped stick, in query order: event `2k` carries stick `k`'s x value on its x axis, `2k+1` its y value on its y axis |
| `Gamepad.Frame` | src/gamepad.rs:27-30 | one frame, connection system then axis system: the flag equals "some stick mapped"; events and gamepads are only appended; the connection history invariant is kept |
| `Gamepad.Run` | src/gamepad.rs:27-30 | a sequence of frames only appends events, keeps every existing gamepad in place (the old list is a prefix of the new one), and keeps the connection history invariant |
| `Gamepad.RunKeepsHistory` | src/gamepad.rs:56-80 | over any sequence of frames from the initial state, the number of fake gamepads equals the number of connection events; those alternate, Connected (as the emulated device) first, then Disconnected; the flag is set iff their number is odd |
| `Gamepad.BridgeWorld.constructor` | src/gamepad.rs:60 | the bridge starts with the flag false, no fake gamepads and no events |
| `Gamepad.BridgeWorld.ConnectGamepad` | src/gamepad.rs:56-80 | the new world state is `Connect` of the old one |
| `Gamepad.BridgeWorld.SendAxisEvents` | src/gamepad.rs:83-109 | the new world state is `SendAxis` of the old one; only the event queue changes |
| `Gamepad.AccumulatedGamepadsStaySilent` | src/gamepad.rs:64-90 | once two or more fake gamepads exist, every later run of frames appends only connection events, never an axis event |
| `Gamepad.ReconnectSilencesAxisEvents` | src/gamepad.rs:64-90 | mapping a stick, removing it and mapping it again: the Disconnected event names entity 1 although entity 0 was connected; three fake gamepads remain; and no later frame ever sends an axis event although a stick is mapped |
| `Gamepad.ConnectFixed` | src/gamepad.rs:64-79 | corrected connection system: keeps one fake gamepad while connected and none otherwise; on connection it spawns the allocator's next id and announces it; on disconnection it announces the gamepad that was connected and despawns it; without a change the world is untouched |
| `Gamepad.RunFixed` | src/gamepad.rs:25-31 | with the corrected connection system, every run keeps at most one fake gamepad, and exactly one while connected |
| `Gamepad.AxisEventsAfterAnyHistory` | src/gamepad.rs:83-109 | with the corrected connection system, after any history, a frame with mapped sticks emits at most one connection event followed by two axis events per mapped stick |

## Left out

- The crate root: `TouchStick`, the drag-session tracker and the value computation. Only
  the fields the renderers read are kept (`common.dfy`), and the stick's value is an
  input.
- `TouchStickBundle::new` (src/joystick.rs:108-113) is not modelled. It fills every other
  field from the host's `Default` implementations, which are not part of this model.
- The plugin registration is not modelled: src/ui.rs:54-71 and src/gamepad.rs:15-32. The
  model only assumes the schedule's order: the connection system runs before the axis
  system each frame, and the spawned gamepad is visible to the axis system.
- ECS queries are modelled as a map from entity to the queried components. The query's
  iteration order is the order of the model's sequences or arrays.
- `GlobalTransform::compute_matrix().transform_point3` is modelled as adding the
  translation. Rotation and scale are not modelled.
- `Mat4::from_translation` is recorded as the translation vector itself.
- `f32` rounding, NaN and infinities are not modelled; the arithmetic is over `real`.
- The square root is the host's, passed as a parameter that satisfies `IsSqrt`.
- Of `Val`, only `Px` is written by the patch; the other kinds are carried unchanged.
- Of the host's image assets, only which handles are present is modelled (a set).
- The `trace!` logging in `send_axis_events` is not modelled.
- The crate's demonstration programs (`multiple`, `fullscreen`, `simple`) are not modelled.
- `LEFT_STICK` and `RIGHT_STICK` are constants without a contract. They are defined once,
  as the two standard axis pairs.
- The host's entity allocator is modelled as a counter (`BridgeState.nextEntity`) that
  hands out fresh ids.

## Findings

| source | as written | input that shows it | evidently intended | confidence | as-written member | corrected member |
|---|---|---|---|---|---|---|
| src/gamepad.rs:64-78 | every change of the connection state spawns a new `FakeGamepad`, none is ever despawned, and the Disconnected event names the newly spawned entity rather than the connected one | map a stick, remove the mapping, map it again: three `FakeGamepad` entities exist, `get_single` in `send_axis_events` fails, and no axis event is sent from then on | one fake gamepad, spawned and announced on connection, announced as disconnected and despawned on disconnection | not executed | `Gamepad.ReconnectSilencesAxisEvents` | `Gamepad.ConnectFixed` |

The imperative `Gamepad.BridgeWorld.ConnectGamepad` keeps the code as written. The
corrected frame (`FrameFixed`, `RunFixed`) is what `Gamepad.AxisEventsAfterAnyHistory`
proves axis events about.
