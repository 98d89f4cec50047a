/** The centre logo: how much of the symbol it may cover, and where it is placed. */
module Image {
  import opened Layout
  import opened Masks

  /** What the logo sizing step returns: how many modules to clear on each axis, and the logo's size in pixels. */
  datatype ImageSize = ImageSize(hideXDots: int, hideYDots: int, width: int, height: int)

  /** The size used when no logo is configured: nothing hidden, nothing drawn. */
  const NoImage: ImageSize := ImageSize(0, 0, 0, 0)

  /** What is asked of the logo sizing step. */
  datatype SizeRequest = SizeRequest(originalWidth: int, originalHeight: int, maxHiddenDots: int,
                                     maxHiddenAxisDots: int, dotSize: int)

  /**
   * The request: the logo may cover the fraction `imageSize * ecPercent` of the
   * symbol's modules (rounded down), and at most `count - 14` modules along an axis,
   * which keeps it clear of the two 7-module finder patterns on that axis.
   */
  function Request(imageSize: real, ecPercent: real, count: int, dotSize: int, originalWidth: int, originalHeight: int)
    : (r: SizeRequest)
    ensures r.maxHiddenDots as real <= imageSize * ecPercent * (count * count) as real < r.maxHiddenDots as real + 1.0
    ensures r.maxHiddenAxisDots + 14 == count
    ensures r.dotSize == dotSize && r.originalWidth == originalWidth && r.originalHeight == originalHeight
  {
    var coverLevel := imageSize * ecPercent;
    SizeRequest(originalWidth, originalHeight, (coverLevel * (count * count) as real).Floor, count - 14, dotSize)
  }

  /** An axis budget of `count - 14` modules, centred, leaves the first and last 7 modules of the axis alone. */
  lemma AxisBudgetSparesFinders(count: int, extent: int, k: int)
    requires 0 <= extent <= count - 14
    requires InHiddenBand(count, extent, k)
    ensures 7 <= k < count - 7
  {
  }

  /** The logo's rectangle on the canvas; halves can occur, so it is measured in reals. */
  datatype Placement = Placement(x: real, y: real, width: real, height: real)

  /**
   * The logo is centred on the module grid and then shrunk by `margin` on every
   * side: the grid's origin, plus the margin, plus half the room the logo leaves.
   */
  function PlaceImage(g: Grid, size: ImageSize, margin: int): (p: Placement)
    ensures p.width == (size.width - 2 * margin) as real && p.height == (size.height - 2 * margin) as real
  {
    var side := g.count * g.dotSize;
    Placement((g.xBeginning + margin) as real + (side - size.width) as real / 2.0,
              (g.yBeginning + margin) as real + (side - size.height) as real / 2.0,
              (size.width - margin * 2) as real,
              (size.height - margin * 2) as real)
  }

  /** The logo's centre is the grid's centre, whatever the margin. */
  lemma ImageCentred(g: Grid, size: ImageSize, margin: int)
    ensures var p := PlaceImage(g, size, margin); var side := (g.count * g.dotSize) as real;
      && p.x + p.width / 2.0 == g.xBeginning as real + side / 2.0
      && p.y + p.height / 2.0 == g.yBeginning as real + side / 2.0
  {
  }

  /** A logo no larger than the grid, with a margin at most half its size, stays inside the grid. */
  lemma ImageWithinGrid(g: Grid, size: ImageSize, margin: int)
    requires 0 <= margin && 2 * margin <= size.width && 2 * margin <= size.height
    requires size.width <= g.count * g.dotSize && size.height <= g.count * g.dotSize
    ensures var p := PlaceImage(g, size, margin); var r := GridRect(g);
      && r.x as real <= p.x && p.x + p.width <= (r.x + r.width) as real
      && r.y as real <= p.y && p.y + p.height <= (r.y + r.height) as real
  {
  }
}
