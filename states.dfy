/** The interaction states a Material surface can be in. The surface keeps a
    nullable state; `None` (of Graphics.Option) stands for "no interaction". */
module States {

  datatype MaterialState =
    | Hovered        // the pointer is over the surface
    | Focused        // keyboard focus is on the surface
    | Pressed        // the user is pressing the surface
    | Dragged        // the surface is being dragged
    | Selected       // the surface is toggled or chosen
    | ScrolledUnder  // scrolled content passes beneath the surface
    | Disabled       // the surface does not react to input
    | Error          // the surface is in an invalid state
}
