// The photo grid's cache window: as the grid scrolls, the images of the cells
// entering a look-ahead window are cached and those of the cells leaving it
// are released, recomputed only once the window has moved far enough.
//
// The image manager is a log of the requests it receives. The grid's mapping
// from an area to the assets of the cells laid out in it (`cachingAssets(at:)`)
// is a function the caller passes in.

module PhotoCaching {
  import opened Geometry
  import opened RectDifference
  import opened IndexSets

  /** A photo-library asset. */
  datatype Asset = Asset(localIdentifier: string)

  /** What the caching image manager is asked to do. */
  datatype CacheRequest =
    | StartCaching(assets: seq<Asset>, targetSize: Size)
    | StopCaching(assets: seq<Asset>, targetSize: Size)
    | StopCachingAll

  /**
   * `bounds.insetBy(dx: 0, dy: -0.5 * bounds.height)`: the viewport grown by
   * half its height above and below.
   */
  function PreheatRect(bounds: Rect): (r: Rect)
    ensures r.x == bounds.x && r.width == bounds.width
    ensures r.height == 2.0 * bounds.height && r.MidY() == bounds.MidY()
  {
    var dy := -0.5 * bounds.height;
    Rect(bounds.x, bounds.y + dy, bounds.width, bounds.height - 2.0 * dy)
  }

  /** The preheat rect keeps x and width, starts half a height higher, is twice as tall and shares the viewport's middle. */
  lemma PreheatRectShape(bounds: Rect)
    requires bounds.Valid()
    ensures var r := PreheatRect(bounds);
      && r.Valid() && r.x == bounds.x && r.width == bounds.width
      && r.MinY() == bounds.MinY() - bounds.height / 2.0
      && r.height == 2.0 * bounds.height
      && r.MidY() == bounds.MidY()
  {
  }

  /** The hysteresis test: recompute only when the window's middle moved more than a third of the viewport height. */
  predicate MovedEnough(previous: Rect, bounds: Rect): (r: bool)
    ensures r <==> Abs(bounds.MidY() - previous.MidY()) > bounds.height / 3.0
  {
    Abs(PreheatRect(bounds).MidY() - previous.MidY()) > bounds.height / 3.0
  }

  /** The assets of the Added areas of `d`, in order. */
  function AddedAssets(d: seq<Difference>, cachingAssets: Rect -> seq<Asset>): (r: seq<Asset>)
    ensures (forall i :: 0 <= i < |d| ==> d[i].Removed?) ==> r == []
    decreases |d|
  {
    if d == [] then []
    else
      var last := d[|d| - 1];
      AddedAssets(d[..|d| - 1], cachingAssets) + (if last.Added? then cachingAssets(last.area) else [])
  }

  /** The assets of the Removed areas of `d`, in order. */
  function RemovedAssets(d: seq<Difference>, cachingAssets: Rect -> seq<Asset>): (r: seq<Asset>)
    ensures (forall i :: 0 <= i < |d| ==> d[i].Added?) ==> r == []
    decreases |d|
  {
    if d == [] then []
    else
      var last := d[|d| - 1];
      RemovedAssets(d[..|d| - 1], cachingAssets) + (if last.Removed? then cachingAssets(last.area) else [])
  }

  /** Every asset of the start list belongs to some Added area. */
  lemma {:induction false} AddedAssetsFromAddedAreas(d: seq<Difference>, cachingAssets: Rect -> seq<Asset>, a: Asset)
    requires a in AddedAssets(d, cachingAssets)
    ensures exists i :: 0 <= i < |d| && d[i].Added? && a in cachingAssets(d[i].area)
    decreases |d|
  {
    var front, last := d[..|d| - 1], d[|d| - 1];
    if a in AddedAssets(front, cachingAssets) {
      AddedAssetsFromAddedAreas(front, cachingAssets, a);
      var i :| 0 <= i < |front| && front[i].Added? && a in cachingAssets(front[i].area);
      assert d[i] == front[i];
    } else {
      assert d[|d| - 1] == last;
    }
  }

  /** Every asset of the stop list belongs to some Removed area. */
  lemma {:induction false} RemovedAssetsFromRemovedAreas(d: seq<Difference>, cachingAssets: Rect -> seq<Asset>, a: Asset)
    requires a in RemovedAssets(d, cachingAssets)
    ensures exists i :: 0 <= i < |d| && d[i].Removed? && a in cachingAssets(d[i].area)
    decreases |d|
  {
    var front, last := d[..|d| - 1], d[|d| - 1];
    if a in RemovedAssets(front, cachingAssets) {
      RemovedAssetsFromRemovedAreas(front, cachingAssets, a);
      var i :| 0 <= i < |front| && front[i].Removed? && a in cachingAssets(front[i].area);
      assert d[i] == front[i];
    } else {
      assert d[|d| - 1] == last;
    }
  }

  /** One more entry of the difference adds its assets to the start list when it is Added. */
  lemma AddedAssetsStep(d: seq<Difference>, i: nat, cachingAssets: Rect -> seq<Asset>)
    requires i < |d|
    ensures AddedAssets(d[..i + 1], cachingAssets)
         == AddedAssets(d[..i], cachingAssets) + (if d[i].Added? then cachingAssets(d[i].area) else [])
  {
    assert d[..i + 1][..i] == d[..i];
  }

  /** One more entry of the difference adds its assets to the stop list when it is Removed. */
  lemma RemovedAssetsStep(d: seq<Difference>, i: nat, cachingAssets: Rect -> seq<Asset>)
    requires i < |d|
    ensures RemovedAssets(d[..i + 1], cachingAssets)
         == RemovedAssets(d[..i], cachingAssets) + (if d[i].Removed? then cachingAssets(d[i].area) else [])
  {
    assert d[..i + 1][..i] == d[..i];
  }

  /** The assets of every area of `areas`, in order. */
  function Gather(areas: seq<Rect>, cachingAssets: Rect -> seq<Asset>): seq<Asset>
    decreases |areas|
  {
    if areas == [] then [] else cachingAssets(areas[0]) + Gather(areas[1..], cachingAssets)
  }

  lemma {:induction false} GatherAppend(areas: seq<Rect>, area: Rect, cachingAssets: Rect -> seq<Asset>)
    ensures Gather(areas + [area], cachingAssets) == Gather(areas, cachingAssets) + cachingAssets(area)
    decreases |areas|
  {
    if areas == [] {
      assert [] + [area] == [area];
    } else {
      assert (areas + [area])[1..] == areas[1..] + [area];
      GatherAppend(areas[1..], area, cachingAssets);
    }
  }

  /** Dropping the last Removed entry of a tagged list leaves the tagged list of the shorter Removed part. */
  lemma DropLastRemoved(added: seq<Rect>, removed: seq<Rect>)
    requires removed != []
    ensures var d := AddedAll(added) + RemovedAll(removed);
      && d[..|d| - 1] == AddedAll(added) + RemovedAll(removed[..|removed| - 1])
      && d[|d| - 1] == Removed(removed[|removed| - 1])
  {
    var d := AddedAll(added) + RemovedAll(removed);
    var shorter := AddedAll(added) + RemovedAll(removed[..|removed| - 1]);
    assert |d[..|d| - 1]| == |shorter|;
    forall i | 0 <= i < |shorter|
      ensures d[i] == shorter[i]
    {
      if i >= |added| {
        assert d[i] == Removed(removed[i - |added|]);
      }
    }
  }

  /** Dropping the last entry of a list of Added entries only. */
  lemma DropLastAdded(added: seq<Rect>)
    requires added != []
    ensures var d := AddedAll(added) + RemovedAll([]);
      && d[..|d| - 1] == AddedAll(added[..|added| - 1]) + RemovedAll([])
      && d[|d| - 1] == Added(added[|added| - 1])
  {
    var d := AddedAll(added) + RemovedAll([]);
    var shorter := AddedAll(added[..|added| - 1]) + RemovedAll([]);
    assert |d[..|d| - 1]| == |shorter|;
    forall i | 0 <= i < |shorter|
      ensures d[i] == shorter[i]
    {
    }
  }

  /** In a list of Added entries followed by Removed entries, the start list gathers exactly the Added areas. */
  lemma {:induction false} AddedAssetsOfTagged(added: seq<Rect>, removed: seq<Rect>, cachingAssets: Rect -> seq<Asset>)
    ensures AddedAssets(AddedAll(added) + RemovedAll(removed), cachingAssets) == Gather(added, cachingAssets)
    decreases |added| + |removed|
  {
    if removed != [] {
      var shorter := removed[..|removed| - 1];
      DropLastRemoved(added, removed);
      AddedAssetsOfTagged(added, shorter, cachingAssets);
    } else if added != [] {
      var shorter := added[..|added| - 1];
      DropLastAdded(added);
      AddedAssetsOfTagged(shorter, [], cachingAssets);
      assert added == shorter + [added[|added| - 1]];
      GatherAppend(shorter, added[|added| - 1], cachingAssets);
    }
  }

  /** In a list of Added entries followed by Removed entries, the stop list gathers exactly the Removed areas. */
  lemma {:induction false} RemovedAssetsOfTagged(added: seq<Rect>, removed: seq<Rect>, cachingAssets: Rect -> seq<Asset>)
    ensures RemovedAssets(AddedAll(added) + RemovedAll(removed), cachingAssets) == Gather(removed, cachingAssets)
    decreases |added| + |removed|
  {
    if removed != [] {
      var shorter := removed[..|removed| - 1];
      DropLastRemoved(added, removed);
      RemovedAssetsOfTagged(added, shorter, cachingAssets);
      assert removed == shorter + [removed[|removed| - 1]];
      GatherAppend(shorter, removed[|removed| - 1], cachingAssets);
    } else if added != [] {
      var shorter := added[..|added| - 1];
      DropLastAdded(added);
      RemovedAssetsOfTagged(shorter, [], cachingAssets);
    }
  }

  /**
   * What an update asks for: when the windows do not overlap, start the whole
   * new window and stop the whole old one; otherwise start the strips of the
   * new window outside the old one and stop the strips of the old window
   * outside the new one.
   */
  lemma UpdateRequestsAreStrips(previous: Rect, preheat: Rect, cachingAssets: Rect -> seq<Asset>)
    ensures var d := DifferenceWith(previous, preheat);
      && (!previous.Intersects(preheat) ==>
            AddedAssets(d, cachingAssets) == cachingAssets(preheat) &&
            RemovedAssets(d, cachingAssets) == cachingAssets(previous))
      && (previous.Intersects(preheat) ==>
            AddedAssets(d, cachingAssets) == Gather(Strips(previous, preheat), cachingAssets) &&
            RemovedAssets(d, cachingAssets) == Gather(Strips(preheat, previous), cachingAssets))
  {
    if !previous.Intersects(preheat) {
      assert AddedAll([preheat]) + RemovedAll([previous]) == [Added(preheat), Removed(previous)];
      AddedAssetsOfTagged([preheat], [previous], cachingAssets);
      RemovedAssetsOfTagged([preheat], [previous], cachingAssets);
    } else {
      AddedAssetsOfTagged(Strips(previous, preheat), Strips(preheat, previous), cachingAssets);
      RemovedAssetsOfTagged(Strips(previous, preheat), Strips(preheat, previous), cachingAssets);
    }
  }

  /** A window recorded for a viewport is never far enough from that same viewport to recompute. */
  lemma SameViewportNotMovedEnough(bounds: Rect)
    requires bounds.Valid()
    ensures !MovedEnough(PreheatRect(bounds), bounds)
  {
  }

  /**
   * `assets(at:in:)`: no paths give no assets; otherwise one asset per path,
   * the fetch result's entry at the path's item, in the paths' order.
   */
  function AssetsAt(indexPaths: seq<IndexPath>, fetchResult: seq<Asset>): (r: seq<Asset>)
    requires forall i :: 0 <= i < |indexPaths| ==> indexPaths[i].item < |fetchResult|
    ensures |r| == |indexPaths|
    ensures forall i :: 0 <= i < |r| ==> r[i] == fetchResult[indexPaths[i].item]
  {
    if |indexPaths| == 0 then []
    else seq(|indexPaths|, i requires 0 <= i < |indexPaths| => fetchResult[indexPaths[i].item])
  }

  /** A PhotoCachable host: the recorded preheat rect and the image manager's request log. */
  class PhotoCache {
    var previousPreheatRect: Rect
    var requests: seq<CacheRequest>

    constructor ()
      ensures previousPreheatRect == ZeroRect && requests == []
    {
      previousPreheatRect := ZeroRect;
      requests := [];
    }

    /** `resetCachedAssets`: stop caching everything and forget the window. */
    method ResetCachedAssets()
      modifies this
      ensures requests == old(requests) + [StopCachingAll]
      ensures previousPreheatRect == ZeroRect
    {
      requests := requests + [StopCachingAll];
      previousPreheatRect := ZeroRect;
    }

    /**
     * `updateCachedAssets(for:targetSize:)`: when the window moved enough,
     * one start request for the assets of the Added areas, then one stop
     * request for those of the Removed areas, both at `targetSize`, and the
     * new window is recorded; otherwise nothing at all.
     */
    method UpdateCachedAssets(rect: Rect, targetSize: Size, cachingAssets: Rect -> seq<Asset>)
      requires rect.Valid()
      modifies this
      ensures var preheat := PreheatRect(rect);
        var d := DifferenceWith(old(previousPreheatRect), preheat);
        if MovedEnough(old(previousPreheatRect), rect) then
          && previousPreheatRect == preheat
          && requests == old(requests) + [StartCaching(AddedAssets(d, cachingAssets), targetSize),
                                          StopCaching(RemovedAssets(d, cachingAssets), targetSize)]
        else
          previousPreheatRect == old(previousPreheatRect) && requests == old(requests)
    {
      var bounds := rect;
      var dy := -0.5 * bounds.height;
      var preheatRect := Rect(bounds.x, bounds.y + dy, bounds.width, bounds.height - 2.0 * dy);
      var delta := Abs(preheatRect.MidY() - previousPreheatRect.MidY());
      assert preheatRect == PreheatRect(rect);
      assert delta > bounds.height / 3.0 <==> MovedEnough(previousPreheatRect, rect);

      if delta > bounds.height / 3.0 {
        var difference := DifferenceWith(previousPreheatRect, preheatRect);
        var assetsToStartCaching, assetsToStopCaching := CollectAssets(difference, cachingAssets);

        requests := requests + [StartCaching(assetsToStartCaching, targetSize)];
        requests := requests + [StopCaching(assetsToStopCaching, targetSize)];
        previousPreheatRect := preheatRect;
      }
    }
  }

  /**
   * The `forEach` over the difference in `updateCachedAssets`: the assets of
   * the Added areas go to the start list, those of the Removed areas to the
   * stop list, each in the difference's order.
   */
  method CollectAssets(difference: seq<Difference>, cachingAssets: Rect -> seq<Asset>)
      returns (assetsToStartCaching: seq<Asset>, assetsToStopCaching: seq<Asset>)
    ensures assetsToStartCaching == AddedAssets(difference, cachingAssets)
    ensures assetsToStopCaching == RemovedAssets(difference, cachingAssets)
  {
    assetsToStartCaching, assetsToStopCaching := [], [];
    var i := 0;
    while i < |difference|
      invariant 0 <= i <= |difference|
      invariant assetsToStartCaching == AddedAssets(difference[..i], cachingAssets)
      invariant assetsToStopCaching == RemovedAssets(difference[..i], cachingAssets)
    {
      var diff := difference[i];
      if diff.Added? {
        assetsToStartCaching := assetsToStartCaching + cachingAssets(diff.area);
      } else if diff.Removed? {
        assetsToStopCaching := assetsToStopCaching + cachingAssets(diff.area);
      }
      AddedAssetsStep(difference, i, cachingAssets);
      RemovedAssetsStep(difference, i, cachingAssets);
      i := i + 1;
    }
    assert difference[..|difference|] == difference;
  }

  /** Two resets leave the window and the manager where one reset leaves them. */
  method ResetTwice(cache: PhotoCache)
    modifies cache
    ensures cache.previousPreheatRect == ZeroRect
    ensures cache.requests == old(cache.requests) + [StopCachingAll, StopCachingAll]
  {
    cache.ResetCachedAssets();
    cache.ResetCachedAssets();
  }

  /**
   * The second of two updates for the same viewport asks for nothing and keeps
   * the window: two updates leave the cache where the first one left it.
   */
  method UpdateTwice(cache: PhotoCache, rect: Rect, targetSize: Size, cachingAssets: Rect -> seq<Asset>)
      returns (afterFirst: seq<CacheRequest>, windowAfterFirst: Rect)
    requires rect.Valid()
    modifies cache
    ensures cache.requests == afterFirst && cache.previousPreheatRect == windowAfterFirst
    ensures var d := DifferenceWith(old(cache.previousPreheatRect), PreheatRect(rect));
      if MovedEnough(old(cache.previousPreheatRect), rect) then
        && windowAfterFirst == PreheatRect(rect)
        && afterFirst == old(cache.requests) + [StartCaching(AddedAssets(d, cachingAssets), targetSize),
                                                StopCaching(RemovedAssets(d, cachingAssets), targetSize)]
      else
        windowAfterFirst == old(cache.previousPreheatRect) && afterFirst == old(cache.requests)
  {
    cache.UpdateCachedAssets(rect, targetSize, cachingAssets);
    afterFirst := cache.requests;
    windowAfterFirst := cache.previousPreheatRect;
    if windowAfterFirst == PreheatRect(rect) {
      SameViewportNotMovedEnough(rect);
    }
    cache.UpdateCachedAssets(rect, targetSize, cachingAssets);
  }
}
