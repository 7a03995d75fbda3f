// The crop area of the picker: a scroll view holding an image view that can be
// zoomed, kept centred while smaller than the scroll view, with a grid of
// lines shown while zooming.

module Cropping {
  import opened Geometry

  /**
   * One axis of `centerContent`: a child shorter than the bounds gets half the
   * spare room in front of it, otherwise it starts at 0.
   */
  function CenteredOrigin(boundsLength: real, childLength: real): (r: real)
    ensures childLength < boundsLength ==> r > 0.0 && r + childLength + r == boundsLength
    ensures childLength >= boundsLength ==> r == 0.0
  {
    if childLength < boundsLength then (boundsLength - childLength) / 2.0 else 0.0
  }

  /** The child frame `centerContent` writes: the same size, a centred origin. */
  function CenteredFrame(bounds: Size, frame: Rect): (r: Rect)
    ensures r.width == frame.width && r.height == frame.height
    ensures r.x >= 0.0 && r.y >= 0.0
  {
    frame.(x := CenteredOrigin(bounds.width, frame.width), y := CenteredOrigin(bounds.height, frame.height))
  }

  /**
   * `centerContent` changes only the origin; the origin is never negative; a
   * child narrower (shorter) than the bounds has equal margins on both sides,
   * a wider (taller) one sits at 0; and centring twice is centring once.
   */
  lemma CenteredFrameProperties(bounds: Size, frame: Rect)
    ensures var r := CenteredFrame(bounds, frame);
      && r.width == frame.width && r.height == frame.height
      && r.x >= 0.0 && r.y >= 0.0
      && (frame.width < bounds.width ==> r.MinX() == bounds.width - r.MaxX())
      && (frame.width >= bounds.width ==> r.x == 0.0)
      && (frame.height < bounds.height ==> r.MinY() == bounds.height - r.MaxY())
      && (frame.height >= bounds.height ==> r.y == 0.0)
      && CenteredFrame(bounds, r) == r
  {
  }

  /**
   * The scale `updateContent` uses for both the minimum and the initial zoom:
   * the smaller of the width and height ratios of the superview to the child.
   */
  function FitScale(container: Size, child: Size): (r: real)
    requires child.width > 0.0 && child.height > 0.0
    ensures child.width * r <= container.width && child.height * r <= container.height
  {
    var widthScale := container.width / child.width;
    var heightScale := container.height / child.height;
    QuotientTimesDivisor(container.width, child.width);
    QuotientTimesDivisor(container.height, child.height);
    assert child.width * Min(widthScale, heightScale) <= child.width * widthScale;
    assert child.height * Min(widthScale, heightScale) <= child.height * heightScale;
    Min(widthScale, heightScale)
  }

  /** x / y * y == x for a positive y. */
  lemma QuotientTimesDivisor(x: real, y: real)
    requires y > 0.0
    ensures x / y * y == x
  {
  }

  /**
   * At the fitting scale the scaled child fits inside the container and fills
   * it along at least one axis.
   */
  lemma FitScaleFits(container: Size, child: Size)
    requires child.width > 0.0 && child.height > 0.0
    ensures var s := FitScale(container, child);
      && child.width * s <= container.width
      && child.height * s <= container.height
      && (child.width * s == container.width || child.height * s == container.height)
  {
    var s := FitScale(container, child);
    var ws, hs := container.width / child.width, container.height / child.height;
    QuotientTimesDivisor(container.width, child.width);
    QuotientTimesDivisor(container.height, child.height);
    assert child.width * ws == container.width;
    assert child.height * hs == container.height;
    assert s <= ws && s <= hs;
    assert child.width * s <= child.width * ws;
    assert child.height * s <= child.height * hs;
  }

  /** The largest zoom `updateContent` allows. */
  const MaximumZoom: real := 4.0

  /** Alpha of the grid of lines: shown while highlighting, hidden otherwise. */
  function LinesAlpha(highlight: bool): (r: real)
    ensures r == 1.0 <==> highlight
    ensures r == 0.0 <==> !highlight
  {
    if highlight then 1.0 else 0.0
  }

  /**
   * The scroll view (`cropView`), its content (`childView`) and the lines view
   * of a Cropable host, with the sizes UIKit's layout gives them.
   */
  class CropArea {
    var boundsSize: Size        // cropView.bounds.size
    var superviewSize: Size     // cropView.superview!.frame.size
    var childBoundsSize: Size   // childView.bounds.size
    var childFrame: Rect        // childView.frame
    var contentSize: Size       // cropView.contentSize
    var minimumZoomScale: real
    var maximumZoomScale: real
    var zoomScale: real
    var interactionEnabled: bool  // cropView.isUserInteractionEnabled
    var hasKeyWindow: bool        // UIApplication's key window exists
    var linesInserted: bool       // linesView.superview != nil
    var linesAlpha: real

    /**
     * The state `addCropable(to:)` leaves: the scroll view fills the container,
     * its content size is the container's size, and the still empty child is
     * added; the scroll view's own defaults hold for everything else.
     */
    constructor (containerSize: Size, keyWindow: bool)
      ensures boundsSize == containerSize && superviewSize == containerSize
      ensures contentSize == containerSize
      ensures childBoundsSize == Size(0.0, 0.0) && childFrame == ZeroRect
      ensures minimumZoomScale == 1.0 && maximumZoomScale == 1.0 && zoomScale == 1.0
      ensures interactionEnabled && hasKeyWindow == keyWindow
      ensures !linesInserted && linesAlpha == 1.0
    {
      boundsSize, superviewSize, contentSize := containerSize, containerSize, containerSize;
      childBoundsSize, childFrame := Size(0.0, 0.0), ZeroRect;
      minimumZoomScale, maximumZoomScale, zoomScale := 1.0, 1.0, 1.0;
      interactionEnabled, hasKeyWindow := true, keyWindow;
      linesInserted, linesAlpha := false, 1.0;
    }

    /** `centerContent`: rewrites the child frame with a centred origin. */
    method CenterContent()
      modifies this`childFrame
      ensures childFrame == CenteredFrame(boundsSize, old(childFrame))
    {
      var contentFrame := childFrame;
      if contentFrame.width < boundsSize.width {
        contentFrame := contentFrame.(x := (boundsSize.width - contentFrame.width) / 2.0);
      } else {
        contentFrame := contentFrame.(x := 0.0);
      }
      if contentFrame.height < boundsSize.height {
        contentFrame := contentFrame.(y := (boundsSize.height - contentFrame.height) / 2.0);
      } else {
        contentFrame := contentFrame.(y := 0.0);
      }
      childFrame := contentFrame;
    }

    /**
     * `updateContent`: enables interaction, sets the minimum and current zoom
     * to the fitting scale and the maximum to 4, then centres the child.
     */
    method UpdateContent()
      requires childBoundsSize.width > 0.0 && childBoundsSize.height > 0.0
      modifies this`interactionEnabled, this`minimumZoomScale, this`maximumZoomScale, this`zoomScale, this`childFrame
      ensures interactionEnabled
      ensures minimumZoomScale == FitScale(superviewSize, childBoundsSize) == zoomScale
      ensures maximumZoomScale == MaximumZoom
      ensures childFrame == CenteredFrame(boundsSize, old(childFrame))
    {
      var widthScale := superviewSize.width / childBoundsSize.width;
      var heightScale := superviewSize.height / childBoundsSize.height;
      var scale := Min(widthScale, heightScale);
      interactionEnabled := true;
      minimumZoomScale := scale;
      maximumZoomScale := MaximumZoom;
      zoomScale := scale;
      CenterContent();
    }

    /**
     * `highlightArea(_:animated:)`: nothing without a key window; the first
     * call inserts the lines view hidden whatever `highlight` says; later calls
     * show the lines when highlighting and hide them otherwise (animated or not,
     * the alpha ends at the same value).
     */
    method HighlightArea(highlight: bool, animated: bool)
      modifies this`linesInserted, this`linesAlpha
      ensures !hasKeyWindow ==> linesInserted == old(linesInserted) && linesAlpha == old(linesAlpha)
      ensures hasKeyWindow ==> linesInserted
      ensures hasKeyWindow && !old(linesInserted) ==> linesAlpha == 0.0
      ensures hasKeyWindow && old(linesInserted) ==> linesAlpha == LinesAlpha(highlight)
    {
      if !hasKeyWindow {
        return;
      }
      if !linesInserted {
        linesInserted := true;
        linesAlpha := 0.0;
      } else {
        linesAlpha := LinesAlpha(highlight);
      }
    }

    /** `didZoom`: centre the child, then show the lines. */
    method DidZoom()
      modifies this`childFrame, this`linesInserted, this`linesAlpha
      ensures childFrame == CenteredFrame(boundsSize, old(childFrame))
      ensures hasKeyWindow ==> linesInserted && linesAlpha == (if old(linesInserted) then 1.0 else 0.0)
      ensures !hasKeyWindow ==> linesInserted == old(linesInserted) && linesAlpha == old(linesAlpha)
    {
      CenterContent();
      HighlightArea(true, true);
    }

    /** `didEndZooming`: hide the lines. */
    method DidEndZooming()
      modifies this`linesInserted, this`linesAlpha
      ensures hasKeyWindow ==> linesInserted && linesAlpha == 0.0
      ensures !hasKeyWindow ==> linesInserted == old(linesInserted) && linesAlpha == old(linesAlpha)
    {
      HighlightArea(false, true);
    }

    /**
     * `addImage(_:)`: the child takes the image's size (sizeToFit keeps its
     * origin), the content size becomes the image size, the zoom is fitted and
     * the child centred, and the lines are hidden without animation.
     */
    method AddImage(imageSize: Size)
      requires imageSize.width > 0.0 && imageSize.height > 0.0
      modifies this`childBoundsSize, this`childFrame, this`contentSize, this`interactionEnabled,
        this`minimumZoomScale, this`maximumZoomScale, this`zoomScale, this`linesInserted, this`linesAlpha
      ensures childBoundsSize == imageSize && contentSize == imageSize
      ensures childFrame == CenteredFrame(boundsSize, old(childFrame).(width := imageSize.width, height := imageSize.height))
      ensures interactionEnabled && maximumZoomScale == MaximumZoom
      ensures minimumZoomScale == zoomScale == FitScale(superviewSize, imageSize)
      ensures hasKeyWindow ==> linesInserted && linesAlpha == 0.0
      ensures !hasKeyWindow ==> linesInserted == old(linesInserted) && linesAlpha == old(linesAlpha)
    {
      childBoundsSize := imageSize;
      childFrame := childFrame.(width := imageSize.width, height := imageSize.height);
      contentSize := imageSize;
      UpdateContent();
      HighlightArea(false, false);
    }
  }
}
