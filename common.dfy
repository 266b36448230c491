module Wrappers {

  datatype Option<+T> = None | Some(value: T)
}

/**
  The stick record shared by the style-patch renderer and the gamepad bridge. The crate
  root that declares `TouchStick` and `TouchStickType` is not part of this model; only the
  fields those two consumers read are kept, and the drag-session tracker that keeps
  `value` up to date is an input here.
*/
module StickTypes {
  import opened Geometry

  /** An ECS entity id. */
  type Entity = nat

  /** The three stick behaviours. */
  datatype TouchStickType = Fixed | Floating | Dynamic

  /**
    A stick as the renderers see it: its behaviour, its current normalised `value`
    and its `radius` in pixels.
  */
  datatype TouchStick = TouchStick(stickType: TouchStickType, value: Vec2, radius: real)
}
