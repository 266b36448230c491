/**
  `src/joystick.rs`: the tint colour, the `TouchStickBundle` builder, and the retained
  renderer that walks the UI stack and appends two positioned, tinted image records
  (border, then knob) per drawable stick.
*/
module Joystick {
  import opened Geometry
  import opened StickTypes
  import opened Wrappers

  newtype u64 = x: int | 0 <= x < 0x1_0000_0000_0000_0000

  /** An RGBA colour; the renderer reads only its alpha. */
  datatype Color = Color(red: real, green: real, blue: real, alpha: real)

  const WHITE: Color := Color(1.0, 1.0, 1.0, 1.0)

  /** The tint applied to both images of a stick. */
  datatype TintColor = TintColor(color: Color)

  const DEFAULT: TintColor := TintColor(WHITE)

  /** `TintColor::default()`: opaque white. */
  function DefaultTint(): (t: TintColor)
    ensures t.color == WHITE && t.color.alpha == 1.0
  {
    DEFAULT
  }

  /** `TintColor::from(color)`: wraps the colour unchanged. */
  function TintFrom(color: Color): (t: TintColor)
    ensures t.color == color
  {
    TintColor(color)
  }

  /** `From<Color>` and the tint's colour field are inverse to each other. */
  lemma TintFromInverse(t: TintColor, color: Color)
    ensures TintFrom(t.color) == t
    ensures TintFrom(color).color == color
  {
  }

  /** An image asset handle; the asset store is the set of handles it contains. */
  datatype Handle = Handle(id: nat)

  /** The stick configuration component, generic in the stick identifier `S`. */
  datatype TouchStickNode<S> = TouchStickNode(
    id: S,
    borderImage: Handle,
    knobImage: Handle,
    knobSize: Vec2,
    deadZone: real,
    behavior: TouchStickType)

  /** The drag state component; it is written by the session tracker, not here. */
  datatype TouchStickKnob = TouchStickKnob(
    dragId: Option<u64>,
    deadZone: real,
    basePosition: Vec2,
    startPosition: Vec2,
    currentPosition: Vec2,
    value: Vec2,
    interactableZone: Rect)

  /** The laid-out size of a UI node. */
  datatype Node = Node(size: Vec2)

  /** A global transform, taken to be a translation of the node's local space. */
  datatype GlobalTransform = GlobalTransform(translation: Vec3)

  /** `transform_point3` for a pure translation. */
  function TransformPoint3(t: GlobalTransform, p: Vec3): Vec3 {
    Add3(t.translation, p)
  }

  /** Host payloads the bundle only carries: identified, never inspected. */
  datatype Style = Style(id: nat)
  datatype ContentSize = ContentSize(id: nat)
  datatype FocusPolicy = Block | Pass
  datatype Transform = Transform(id: nat)
  datatype Visibility = Inherited | Hidden | Visible
  datatype ComputedVisibility = ComputedVisibility(visible: bool)
  datatype ZIndex = Local(local: int) | Global(global: int)
  datatype RelativeCursorPosition = RelativeCursorPosition(id: nat)

  datatype TouchStickBundle<S> = TouchStickBundle(
    node: Node,
    style: Style,
    calculatedSize: ContentSize,
    color: TintColor,
    joystick: TouchStickNode<S>,
    focusPolicy: FocusPolicy,
    transform: Transform,
    globalTransform: GlobalTransform,
    visibility: Visibility,
    computedVisibility: ComputedVisibility,
    zIndex: ZIndex,
    knobData: TouchStickKnob,
    cursorPos: RelativeCursorPosition)

  /** The bundle fields a builder setter can replace. */
  datatype SettableField = NodeField | StyleField | ColorField | FocusPolicyField | TransformField
                         | GlobalTransformField | VisibilityField | ComputedVisibilityField | ZIndexField

  /** `a` and `b` agree on every field except possibly `f`. */
  ghost predicate AgreeExcept<S>(a: TouchStickBundle<S>, b: TouchStickBundle<S>, f: SettableField) {
    && (f == NodeField || a.node == b.node)
    && (f == StyleField || a.style == b.style)
    && a.calculatedSize == b.calculatedSize
    && (f == ColorField || a.color == b.color)
    && a.joystick == b.joystick
    && (f == FocusPolicyField || a.focusPolicy == b.focusPolicy)
    && (f == TransformField || a.transform == b.transform)
    && (f == GlobalTransformField || a.globalTransform == b.globalTransform)
    && (f == VisibilityField || a.visibility == b.visibility)
    && (f == ComputedVisibilityField || a.computedVisibility == b.computedVisibility)
    && (f == ZIndexField || a.zIndex == b.zIndex)
    && a.knobData == b.knobData
    && a.cursorPos == b.cursorPos
  }

  function SetNode<S>(b: TouchStickBundle<S>, node: Node): (r: TouchStickBundle<S>)
    ensures r.node == node && AgreeExcept(b, r, NodeField)
  {
    b.(node := node)
  }

  function SetStyle<S>(b: TouchStickBundle<S>, style: Style): (r: TouchStickBundle<S>)
    ensures r.style == style && AgreeExcept(b, r, StyleField)
  {
    b.(style := style)
  }

  function SetColor<S>(b: TouchStickBundle<S>, color: TintColor): (r: TouchStickBundle<S>)
    ensures r.color == color && AgreeExcept(b, r, ColorField)
  {
    b.(color := color)
  }

  function SetFocusPolicy<S>(b: TouchStickBundle<S>, focusPolicy: FocusPolicy): (r: TouchStickBundle<S>)
    ensures r.focusPolicy == focusPolicy && AgreeExcept(b, r, FocusPolicyField)
  {
    b.(focusPolicy := focusPolicy)
  }

  function SetTransform<S>(b: TouchStickBundle<S>, transform: Transform): (r: TouchStickBundle<S>)
    ensures r.transform == transform && AgreeExcept(b, r, TransformField)
  {
    b.(transform := transform)
  }

  function SetGlobalTransform<S>(b: TouchStickBundle<S>, globalTransform: GlobalTransform): (r: TouchStickBundle<S>)
    ensures r.globalTransform == globalTransform && AgreeExcept(b, r, GlobalTransformField)
  {
    b.(globalTransform := globalTransform)
  }

  function SetVisibility<S>(b: TouchStickBundle<S>, visibility: Visibility): (r: TouchStickBundle<S>)
    ensures r.visibility == visibility && AgreeExcept(b, r, VisibilityField)
  {
    b.(visibility := visibility)
  }

  function SetComputedVisibility<S>(b: TouchStickBundle<S>, computedVisibility: ComputedVisibility)
    : (r: TouchStickBundle<S>)
    ensures r.computedVisibility == computedVisibility && AgreeExcept(b, r, ComputedVisibilityField)
  {
    b.(computedVisibility := computedVisibility)
  }

  function SetZIndex<S>(b: TouchStickBundle<S>, zIndex: ZIndex): (r: TouchStickBundle<S>)
    ensures r.zIndex == zIndex && AgreeExcept(b, r, ZIndexField)
  {
    b.(zIndex := zIndex)
  }

  /** Setting any field to the value it already holds gives back the same bundle; the
      node/colour and colour/z-index setter pairs commute. */
  lemma SettersRoundTrip<S>(b: TouchStickBundle<S>, node: Node, color: TintColor, zIndex: ZIndex)
    ensures SetNode(b, b.node) == b && SetStyle(b, b.style) == b && SetColor(b, b.color) == b
    ensures SetFocusPolicy(b, b.focusPolicy) == b && SetTransform(b, b.transform) == b
    ensures SetGlobalTransform(b, b.globalTransform) == b && SetVisibility(b, b.visibility) == b
    ensures SetComputedVisibility(b, b.computedVisibility) == b && SetZIndex(b, b.zIndex) == b
    ensures SetColor(SetNode(b, node), color) == SetNode(SetColor(b, color), node)
    ensures SetZIndex(SetColor(b, color), zIndex) == SetColor(SetZIndex(b, zIndex), color)
  {
  }

  // ---------------------------------------------------------------------------
  // Extraction

  /** A stick entity as the extraction queries it. */
  datatype JoystickEntity<S> = JoystickEntity(
    node: Node,
    globalTransform: GlobalTransform,
    color: TintColor,
    joystick: TouchStickNode<S>,
    visibility: ComputedVisibility,
    knob: TouchStickKnob)

  /** One positioned image draw record; `transform` is the translation it is drawn at. */
  datatype ExtractedUiNode = ExtractedUiNode(
    stackIndex: nat,
    transform: Vec3,
    color: Color,
    rect: Rect,
    image: Handle,
    atlasSize: Option<Vec2>,
    clip: Option<Rect>,
    flipX: bool,
    flipY: bool)

  /** The extraction draws nothing for an entity for which this holds. */
  predicate Skipped<S>(e: JoystickEntity<S>, images: set<Handle>) {
    || !e.visibility.visible
    || e.node.size.x == 0.0
    || e.node.size.y == 0.0
    || e.color.color.alpha == 0.0
    || e.joystick.borderImage !in images
    || e.joystick.knobImage !in images
    || (e.knob.dragId.None? && e.joystick.behavior == Dynamic)
  }

  function ContainerRect<S>(e: JoystickEntity<S>): Rect {
    Rect(ZERO, e.node.size)
  }

  /** `container_rect.center() - size / 2`, the node's own origin in its local space. */
  function LocalOrigin<S>(e: JoystickEntity<S>): (r: Vec2)
    ensures r == ZERO
  {
    CenterOfSizedRect(e.node.size);
    Sub(Center(ContainerRect(e)), Half(e.node.size))
  }

  /** Where the border image is drawn. */
  function BorderPosition<S>(e: JoystickEntity<S>): (r: Vec3)
    ensures e.joystick.behavior == Fixed ==> r == e.globalTransform.translation
    ensures e.joystick.behavior == Floating && e.knob.dragId.None? ==> r == e.globalTransform.translation
    ensures e.joystick.behavior == Floating && e.knob.dragId.Some? ==> r == Extend(e.knob.startPosition, 0.0)
    ensures e.joystick.behavior == Dynamic ==> r == Extend(e.knob.basePosition, 0.0)
  {
    match e.joystick.behavior
    case Fixed => TransformPoint3(e.globalTransform, Extend(LocalOrigin(e), 0.0))
    case Floating =>
      if e.knob.dragId.None? then TransformPoint3(e.globalTransform, Extend(LocalOrigin(e), 0.0))
      else Extend(e.knob.startPosition, 0.0)
    case Dynamic => Extend(e.knob.basePosition, 0.0)
  }

  /** The knob's travel in screen space: the value with y flipped, times half the node width. */
  function KnobTravel<S>(e: JoystickEntity<S>): Vec2 {
    Scale(Vec2(e.knob.value.x, -e.knob.value.y), e.node.size.x / 2.0)
  }

  /** Where the knob image is drawn. */
  function KnobPosition<S>(e: JoystickEntity<S>): (r: Vec3)
    // with a drag (a Dynamic stick that is drawn always has one) the knob travels from the border
    ensures (e.joystick.behavior == Dynamic || (e.joystick.behavior == Floating && e.knob.dragId.Some?)) ==>
      r == Add3(BorderPosition(e), Extend(KnobTravel(e), 0.0))
    // a Floating stick without a drag puts the knob on the border, ignoring the value
    ensures e.joystick.behavior == Floating && e.knob.dragId.None? ==> r == BorderPosition(e)
    // a Fixed stick's knob travels from the node's origin, unclamped
    ensures e.joystick.behavior == Fixed ==>
      r == Add3(e.globalTransform.translation, Extend(KnobTravel(e), 0.0))
  {
    var pos := KnobTravel(e);
    match e.joystick.behavior
    case Fixed => TransformPoint3(e.globalTransform, Extend(Add(LocalOrigin(e), pos), 0.0))
    case Floating =>
      if e.knob.dragId.None? then TransformPoint3(e.globalTransform, Extend(LocalOrigin(e), 0.0))
      else Extend(Add(e.knob.startPosition, pos), 0.0)
    case Dynamic => Extend(Add(e.knob.basePosition, pos), 0.0)
  }

  function BorderRecord<S>(stackIndex: nat, e: JoystickEntity<S>): ExtractedUiNode {
    ExtractedUiNode(stackIndex, BorderPosition(e), e.color.color, ContainerRect(e),
                    e.joystick.borderImage, None, None, false, false)
  }

  function KnobRecord<S>(stackIndex: nat, e: JoystickEntity<S>): ExtractedUiNode {
    ExtractedUiNode(stackIndex, KnobPosition(e), e.color.color, Rect(ZERO, e.joystick.knobSize),
                    e.joystick.knobImage, None, None, false, false)
  }

  /** The records one queried entity at `stackIndex` contributes. */
  function NodeRecords<S>(stackIndex: nat, e: JoystickEntity<S>, images: set<Handle>): (r: seq<ExtractedUiNode>)
    ensures Skipped(e, images) <==> r == []
    ensures !Skipped(e, images) ==> |r| == 2
    // border first, then knob; both tagged with the stack index, tinted, unflipped
    ensures !Skipped(e, images) ==>
      && r[0].image == e.joystick.borderImage && r[1].image == e.joystick.knobImage
      && r[0].stackIndex == stackIndex && r[1].stackIndex == stackIndex
      && r[0].rect == Rect(ZERO, e.node.size) && r[1].rect == Rect(ZERO, e.joystick.knobSize)
      && r[0].color == e.color.color && r[1].color == e.color.color
      && !r[0].flipX && !r[0].flipY && !r[1].flipX && !r[1].flipY
      && r[0].atlasSize.None? && r[0].clip.None? && r[1].atlasSize.None? && r[1].clip.None?
      && r[0].transform == BorderPosition(e) && r[1].transform == KnobPosition(e)
  {
    if Skipped(e, images) then [] else [BorderRecord(stackIndex, e), KnobRecord(stackIndex, e)]
  }

  /** Stack position `i` holds a queried entity that is not skipped. */
  predicate Drawn<S>(stack: seq<Entity>, query: map<Entity, JoystickEntity<S>>, images: set<Handle>, i: nat)
    requires i < |stack|
  {
    stack[i] in query && !Skipped(query[stack[i]], images)
  }

  /** What the entity at stack position `i` contributes (nothing when the query misses it). */
  function EntityRecords<S>(stack: seq<Entity>, query: map<Entity, JoystickEntity<S>>, images: set<Handle>, i: nat)
    : seq<ExtractedUiNode>
    requires i < |stack|
  {
    if stack[i] in query then NodeRecords(i, query[stack[i]], images) else []
  }

  /** All records extracted from the stack, in stack order: two per drawn stack position. */
  function Extract<S>(stack: seq<Entity>, query: map<Entity, JoystickEntity<S>>, images: set<Handle>)
    : (r: seq<ExtractedUiNode>)
    ensures |r| == 2 * |DrawnIndices(stack, query, images)|
    decreases |stack|
  {
    if stack == [] then []
    else
      var n := |stack| - 1;
      assert |EntityRecords(stack, query, images, n)| == if Drawn(stack, query, images, n) then 2 else 0;
      Extract(stack[..n], query, images) + EntityRecords(stack, query, images, n)
  }

  /** The stack positions that are drawn, in stack order; each one is a drawn position. */
  function DrawnIndices<S>(stack: seq<Entity>, query: map<Entity, JoystickEntity<S>>, images: set<Handle>)
    : (r: seq<nat>)
    ensures forall j :: 0 <= j < |r| ==> r[j] < |stack| && Drawn(stack, query, images, r[j])
    decreases |stack|
  {
    if stack == [] then []
    else
      var n := |stack| - 1;
      var before := DrawnIndices(stack[..n], query, images);
      assert forall j :: 0 <= j < |before| ==> stack[..n][before[j]] == stack[before[j]];
      before + if Drawn(stack, query, images, n) then [n] else []
  }

  /**
    The drawn positions are listed in strictly increasing order, and every stack position
    whose entity is queried and not skipped is among them.
  */
  lemma {:induction false} DrawnIndicesExact<S>(stack: seq<Entity>, query: map<Entity, JoystickEntity<S>>,
                                               images: set<Handle>)
    ensures var r := DrawnIndices(stack, query, images);
      && (forall j, l :: 0 <= j < l < |r| ==> r[j] < r[l])
      && (forall i :: 0 <= i < |stack| && Drawn(stack, query, images, i) ==> i in r)
    decreases |stack|
  {
    if stack != [] {
      var n := |stack| - 1;
      var prefix := stack[..n];
      DrawnIndicesExact(prefix, query, images);
      var before := DrawnIndices(prefix, query, images);
      forall i | 0 <= i < |stack| && Drawn(stack, query, images, i)
        ensures i in DrawnIndices(stack, query, images)
      {
        if i < n {
          assert prefix[i] == stack[i];
          assert Drawn(prefix, query, images, i);
          assert i in before;
        }
      }
    }
  }

  /**
    The extraction's output is exactly one border-and-knob pair per drawn stack position,
    in stack order: record `2k` is the border and record `2k+1` the knob of the `k`-th
    drawn position.
  */
  lemma {:induction false} ExtractIsDrawnPairs<S>(stack: seq<Entity>, query: map<Entity, JoystickEntity<S>>,
                                                 images: set<Handle>)
    // the length (already promised by `Extract`) is restated so the induction hypothesis can index
    ensures |Extract(stack, query, images)| == 2 * |DrawnIndices(stack, query, images)|
    ensures var out := Extract(stack, query, images);
      var drawn := DrawnIndices(stack, query, images);
      forall k :: 0 <= k < |drawn| ==>
        && out[2 * k] == BorderRecord(drawn[k], query[stack[drawn[k]]])
        && out[2 * k + 1] == KnobRecord(drawn[k], query[stack[drawn[k]]])
    decreases |stack|
  {
    if stack != [] {
      var n := |stack| - 1;
      var prefix := stack[..n];
      ExtractIsDrawnPairs(prefix, query, images);
      var before := Extract(prefix, query, images);
      var drawnBefore := DrawnIndices(prefix, query, images);
      assert |before| == 2 * |drawnBefore|;
      var out := Extract(stack, query, images);
      var drawn := DrawnIndices(stack, query, images);
      assert out == before + EntityRecords(stack, query, images, n);
      assert drawn == drawnBefore + if Drawn(stack, query, images, n) then [n] else [];
      forall k | 0 <= k < |drawnBefore|
        ensures out[2 * k] == BorderRecord(drawn[k], query[stack[drawn[k]]])
        ensures out[2 * k + 1] == KnobRecord(drawn[k], query[stack[drawn[k]]])
      {
        assert drawn[k] == drawnBefore[k];
        assert out[2 * k] == before[2 * k] && out[2 * k + 1] == before[2 * k + 1];
        assert stack[drawn[k]] == prefix[drawnBefore[k]];
      }
      if Drawn(stack, query, images, n) {
        var m := |drawnBefore|;
        var e := query[stack[n]];
        assert drawn[m] == n;
        assert EntityRecords(stack, query, images, n) == [BorderRecord(n, e), KnobRecord(n, e)];
        assert out[2 * m] == BorderRecord(n, e) && out[2 * m + 1] == KnobRecord(n, e);
      }
    }
  }

  /** The retained draw list the extraction appends to. */
  class ExtractedUiNodes {
    var uinodes: seq<ExtractedUiNode>

    constructor ()
      ensures uinodes == []
    {
      uinodes := [];
    }
  }

  /** `Extract` of a one-longer stack prefix adds that position's records. */
  lemma ExtractStep<S>(stack: seq<Entity>, query: map<Entity, JoystickEntity<S>>, images: set<Handle>, i: nat)
    requires i < |stack|
    ensures Extract(stack[..i + 1], query, images)
         == Extract(stack[..i], query, images) + EntityRecords(stack, query, images, i)
  {
    assert stack[..i + 1][..i] == stack[..i];
  }

  /**
    `extract_joystick_node`: walks the UI stack in order and, for every queried stick
    entity that is not skipped, pushes its border record and then its knob record.
  */
  method ExtractJoystickNode<S>(extracted: ExtractedUiNodes, images: set<Handle>, uiStack: seq<Entity>,
                                query: map<Entity, JoystickEntity<S>>)
    modifies extracted
    ensures extracted.uinodes == old(extracted.uinodes) + Extract(uiStack, query, images)
  {
    for stackIndex := 0 to |uiStack|
      invariant extracted.uinodes == old(extracted.uinodes) + Extract(uiStack[..stackIndex], query, images)
    {
      ExtractStep(uiStack, query, images, stackIndex);
      var entity := uiStack[stackIndex];
      if entity !in query {
        continue;
      }
      var e := query[entity];
      if Skipped(e, images) {
        continue;
      }
      extracted.uinodes := extracted.uinodes + [BorderRecord(stackIndex, e)];
      extracted.uinodes := extracted.uinodes + [KnobRecord(stackIndex, e)];
    }
    assert uiStack[..|uiStack|] == uiStack;
  }
}
