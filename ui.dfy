/**
  The per-frame style patch of `src/ui.rs`: every frame, each knob and outline child of
  a stick gets its `display` flag and, when the stick can be placed, its `left`/`bottom`
  pixel offsets, according to the stick's behaviour.
*/
module StylePatch {
  import opened Geometry
  import opened StickTypes

  /** Share of the knob's travel that a Dynamic stick's outline follows. */
  const MOVE_PERCENT_RELATIVE: real := 0.25

  datatype Display = Flex | Grid | Block | None

  /** A layout length (bevy `Val`). */
  datatype Val = Auto | Px(px: real) | Percent(percent: real) | Vw(vw: real) | Vh(vh: real)
               | VMin(vmin: real) | VMax(vmax: real)

  /** The part of a child element's layout `Node` that the patch reads or writes. */
  datatype Style = Style(display: Display, left: Val, bottom: Val)

  /** A knob or outline element: the entity it hangs under and its layout style. */
  datatype UiElement = UiElement(parent: Entity, style: Style)

  /** A stick node as the patch queries it: computed size, stick record, view visibility. */
  datatype StickNode = StickNode(size: Vec2, stick: TouchStick, visible: bool)

  /** Offsets are only written for a visible stick node with a non-degenerate size. */
  predicate Placeable(node: StickNode) {
    node.visible && node.size.x != 0.0 && node.size.y != 0.0
  }

  /** Writes a pixel offset into `left` and `bottom`. */
  function WithOffset(style: Style, pos: Vec2): Style {
    style.(left := Px(pos.x), bottom := Px(pos.y))
  }

  /** Knob offset of a Floating or Dynamic stick: `value * radius`, without a y flip. */
  function KnobOffset(stick: TouchStick): Vec2 {
    Scale(stick.value, stick.radius)
  }

  /** Each axis of `r` is within half the radius, and so is its length. */
  predicate WithinHalfRadius(r: Vec2, radius: real) {
    && -0.5 * radius <= r.x <= 0.5 * radius
    && -0.5 * radius <= r.y <= 0.5 * radius
    && LengthSquared(r) <= 0.25 * (radius * radius)
  }

  /**
    Knob offset of a Fixed stick: the value clamped to [-0.5, 0.5] on each axis, then to
    length 0.5, then scaled by the radius. The knob therefore travels at most half the
    radius, and a value already inside that disk is passed through unchanged.
  */
  function FixedKnobOffset(stick: TouchStick, sqrt: real -> real): (r: Vec2)
    requires IsSqrt(sqrt)
    ensures 0.0 <= stick.radius ==> WithinHalfRadius(r, stick.radius)
    ensures LengthSquared(stick.value) <= 0.25 ==> r == KnobOffset(stick)
  {
    var clamped := ClampLengthMax(ClampAxes(stick.value, -0.5, 0.5), 0.5, sqrt);
    FixedClamp(stick.value, sqrt);
    ScaledBounds(clamped, stick.radius);
    Scale(clamped, stick.radius)
  }

  /** The two clamps keep the value in the half-disk, and leave a value already there unchanged. */
  lemma FixedClamp(value: Vec2, sqrt: real -> real)
    requires IsSqrt(sqrt)
    ensures var c := ClampLengthMax(ClampAxes(value, -0.5, 0.5), 0.5, sqrt);
      && WithinHalfRadius(c, 1.0)
      && (LengthSquared(value) <= 0.25 ==> c == value)
  {
    var a := ClampAxes(value, -0.5, 0.5);
    var c := ClampLengthMax(a, 0.5, sqrt);
    assert -Abs(a.x) <= c.x <= Abs(a.x) && -Abs(a.y) <= c.y <= Abs(a.y);
    assert Abs(a.x) <= 0.5 && Abs(a.y) <= 0.5;
    InDiskInSquare(value);
  }

  /** Scaling a vector of the half-disk by a non-negative radius keeps it in the scaled half-disk. */
  lemma ScaledBounds(c: Vec2, radius: real)
    requires WithinHalfRadius(c, 1.0)
    ensures 0.0 <= radius ==> WithinHalfRadius(Scale(c, radius), radius)
  {
    if 0.0 <= radius {
      var r := Scale(c, radius);
      ScaledAxis(c.x, radius);
      ScaledAxis(c.y, radius);
      assert LengthSquared(r) == (radius * radius) * LengthSquared(c);
    }
  }

  lemma ScaledAxis(a: real, radius: real)
    requires -0.5 <= a <= 0.5 && 0.0 <= radius
    ensures -0.5 * radius <= a * radius <= 0.5 * radius
  {
  }

  /** A vector of length at most 0.5 is inside the square [-0.5, 0.5]². */
  lemma InDiskInSquare(v: Vec2)
    ensures LengthSquared(v) <= 0.25 ==> -0.5 <= v.x <= 0.5 && -0.5 <= v.y <= 0.5
  {
    if LengthSquared(v) <= 0.25 {
      assert v.x * v.x <= 0.25 && v.y * v.y <= 0.25;
    }
  }

  /** Outline offset of a Dynamic stick: a quarter of the knob's travel. */
  function OutlineOffset(stick: TouchStick): Vec2 {
    Scale(Scale(stick.value, MOVE_PERCENT_RELATIVE), stick.radius)
  }

  /** The offset the knob of `stick` receives when it is placed, by behaviour. */
  function KnobPixels(stick: TouchStick, sqrt: real -> real): (r: Vec2)
    requires IsSqrt(sqrt)
    // Floating and Dynamic knobs travel the full `value * radius`
    ensures stick.stickType != Fixed ==> r == KnobOffset(stick)
    // a Fixed knob stays within half the radius
    ensures stick.stickType == Fixed && 0.0 <= stick.radius ==> WithinHalfRadius(r, stick.radius)
    // inside the half-unit disk all three behaviours place the knob alike
    ensures LengthSquared(stick.value) <= 0.25 ==> r == KnobOffset(stick)
  {
    if stick.stickType == Fixed then FixedKnobOffset(stick, sqrt) else KnobOffset(stick)
  }

  /** One iteration of the knob loop. */
  function PatchKnob(sticks: map<Entity, StickNode>, knob: UiElement, sqrt: real -> real): (r: UiElement)
    requires IsSqrt(sqrt)
    ensures r.parent == knob.parent
    // a knob whose parent is not a stick node is left completely untouched
    ensures knob.parent !in sticks ==> r == knob
    // hidden exactly when the stick is Floating and its value is zero; shown as Flex otherwise
    ensures knob.parent in sticks ==>
      (r.style.display == None <==>
        sticks[knob.parent].stick.stickType == Floating && sticks[knob.parent].stick.value == ZERO)
    ensures knob.parent in sticks && r.style.display != None ==> r.style.display == Flex
    // offsets are kept when the stick cannot be placed or the knob is hidden
    ensures knob.parent in sticks && (!Placeable(sticks[knob.parent]) || r.style.display == None) ==>
      r.style.left == knob.style.left && r.style.bottom == knob.style.bottom
    // otherwise they are the behaviour's knob offset in pixels
    ensures knob.parent in sticks && Placeable(sticks[knob.parent]) && r.style.display == Flex ==>
      r.style == WithOffset(knob.style, KnobPixels(sticks[knob.parent].stick, sqrt)).(display := Flex)
  {
    if knob.parent !in sticks then knob
    else
      var node := sticks[knob.parent];
      var stick := node.stick;
      var style := knob.style;
      var patched :=
        match stick.stickType
        case Floating =>
          if stick.value != ZERO then
            var shown := style.(display := Flex);
            if Placeable(node) then WithOffset(shown, KnobOffset(stick)) else shown
          else
            style.(display := None)
        case Dynamic =>
          var shown := style.(display := Flex);
          if Placeable(node) then WithOffset(shown, KnobOffset(stick)) else shown
        case Fixed =>
          var shown := style.(display := Flex);
          if Placeable(node) then WithOffset(shown, FixedKnobOffset(stick, sqrt)) else shown;
      UiElement(knob.parent, patched)
  }

  /** One iteration of the outline loop. */
  function PatchOutline(sticks: map<Entity, StickNode>, outline: UiElement): (r: UiElement)
    ensures r.parent == outline.parent
    // an outline whose parent is not a stick node is left completely untouched
    ensures outline.parent !in sticks ==> r == outline
    // hidden exactly when the stick is Floating and its value is zero; shown as Flex otherwise
    ensures outline.parent in sticks ==>
      (r.style.display == None <==>
        sticks[outline.parent].stick.stickType == Floating && sticks[outline.parent].stick.value == ZERO)
    ensures outline.parent in sticks && r.style.display != None ==> r.style.display == Flex
    // only a placeable Dynamic stick moves its outline, by a quarter of the knob's travel
    ensures outline.parent in sticks ==>
      (sticks[outline.parent].stick.stickType != Dynamic || !Placeable(sticks[outline.parent])) ==>
      r.style.left == outline.style.left && r.style.bottom == outline.style.bottom
    ensures outline.parent in sticks ==>
      (sticks[outline.parent].stick.stickType == Dynamic && Placeable(sticks[outline.parent])) ==>
      r.style == WithOffset(outline.style, OutlineOffset(sticks[outline.parent].stick)).(display := Flex)
  {
    if outline.parent !in sticks then outline
    else
      var node := sticks[outline.parent];
      var stick := node.stick;
      var style := outline.style;
      var patched :=
        match stick.stickType
        case Floating =>
          if stick.value != ZERO then style.(display := Flex) else style.(display := None)
        case Dynamic =>
          var shown := style.(display := Flex);
          if Placeable(node) then WithOffset(shown, OutlineOffset(stick)) else shown
        case Fixed =>
          style.(display := Flex);
      UiElement(outline.parent, patched)
  }

  /**
    For a placed Dynamic stick, the outline's pixel offset is exactly
    `MOVE_PERCENT_RELATIVE` times the knob's, axis by axis.
  */
  lemma DynamicOutlineFollowsKnob(sticks: map<Entity, StickNode>, knob: UiElement, outline: UiElement,
                                  sqrt: real -> real)
    requires IsSqrt(sqrt)
    requires knob.parent == outline.parent && knob.parent in sticks
    requires sticks[knob.parent].stick.stickType == Dynamic && Placeable(sticks[knob.parent])
    ensures PatchKnob(sticks, knob, sqrt).style.left.Px? && PatchOutline(sticks, outline).style.left.Px?
    ensures PatchOutline(sticks, outline).style.left.px ==
            MOVE_PERCENT_RELATIVE * PatchKnob(sticks, knob, sqrt).style.left.px
    ensures PatchOutline(sticks, outline).style.bottom.px ==
            MOVE_PERCENT_RELATIVE * PatchKnob(sticks, knob, sqrt).style.bottom.px
  {
    var stick := sticks[knob.parent].stick;
    assert OutlineOffset(stick) == Scale(KnobOffset(stick), MOVE_PERCENT_RELATIVE) by {
      assert stick.value.x * MOVE_PERCENT_RELATIVE * stick.radius
          == stick.value.x * stick.radius * MOVE_PERCENT_RELATIVE;
      assert stick.value.y * MOVE_PERCENT_RELATIVE * stick.radius
          == stick.value.y * stick.radius * MOVE_PERCENT_RELATIVE;
    }
  }

  /** The patch only depends on the stick, so running it again in the same state changes nothing. */
  lemma PatchIdempotent(sticks: map<Entity, StickNode>, knob: UiElement, outline: UiElement, sqrt: real -> real)
    requires IsSqrt(sqrt)
    ensures PatchKnob(sticks, PatchKnob(sticks, knob, sqrt), sqrt) == PatchKnob(sticks, knob, sqrt)
    ensures PatchOutline(sticks, PatchOutline(sticks, outline)) == PatchOutline(sticks, outline)
  {
  }

  /**
    `patch_stick_node`: the knob loop, then the outline loop, each patching its elements
    in place. The two queries never share an element (knobs are never outlines).
  */
  method PatchStickNode(sticks: map<Entity, StickNode>, knobs: array<UiElement>, outlines: array<UiElement>,
                        sqrt: real -> real)
    requires IsSqrt(sqrt)
    requires knobs != outlines
    modifies knobs, outlines
    ensures forall i :: 0 <= i < knobs.Length ==> knobs[i] == PatchKnob(sticks, old(knobs[i]), sqrt)
    ensures forall i :: 0 <= i < outlines.Length ==> outlines[i] == PatchOutline(sticks, old(outlines[i]))
  {
    for i := 0 to knobs.Length
      invariant forall k :: 0 <= k < i ==> knobs[k] == PatchKnob(sticks, old(knobs[k]), sqrt)
      invariant forall k :: i <= k < knobs.Length ==> knobs[k] == old(knobs[k])
      invariant outlines[..] == old(outlines[..])
    {
      knobs[i] := PatchKnob(sticks, knobs[i], sqrt);
    }
    for i := 0 to outlines.Length
      invariant forall k :: 0 <= k < knobs.Length ==> knobs[k] == PatchKnob(sticks, old(knobs[k]), sqrt)
      invariant forall k :: 0 <= k < i ==> outlines[k] == PatchOutline(sticks, old(outlines[k]))
      invariant forall k :: i <= k < outlines.Length ==> outlines[k] == old(outlines[k])
    {
      outlines[i] := PatchOutline(sticks, outlines[i]);
    }
  }
}
