/** The two logical canvas shapes of the 80x160 panel (src/image.rs). */
module Canvas {

  /** The panel's own scan shape: 80 columns by 160 rows. */
  const PhysicalWidth: nat := 80
  const PhysicalHeight: nat := 160

  datatype Orientation = Landscape | Portrait
  {
    /** Logical canvas width. */
    function Width(): (w: nat)
      ensures w == if this == Landscape then PhysicalHeight else PhysicalWidth
    {
      match this
      case Landscape => PhysicalHeight
      case Portrait => PhysicalWidth
    }

    /** Logical canvas height. */
    function Height(): (h: nat)
      ensures h == if this == Landscape then PhysicalWidth else PhysicalHeight
    {
      match this
      case Landscape => PhysicalWidth
      case Portrait => PhysicalHeight
    }

    function Other(): Orientation
    {
      if this == Landscape then Portrait else Landscape
    }
  }

  /** `Orientation::default()`. */
  const Default: Orientation := Landscape

  /** The legacy display constants, which are Landscape's extents. */
  const DisplayWidth: nat := 160
  const DisplayHeight: nat := 80

  /** Landscape is 160x80, Portrait 80x160; each is the other's transpose, and the default is Landscape. */
  lemma Shapes(o: Orientation)
    ensures Landscape.Width() == 160 && Landscape.Height() == 80
    ensures Portrait.Width() == 80 && Portrait.Height() == 160
    ensures o.Width() == o.Other().Height() && o.Height() == o.Other().Width()
    ensures o.Width() * o.Height() == PhysicalWidth * PhysicalHeight
    ensures Default.Width() == DisplayWidth && Default.Height() == DisplayHeight
  {
  }
}
