// The vertical-only "rectangle XOR" used by the photo cache window: which
// horizontal strips of a rect lie above or below another rect, and the list of
// Added/Removed areas between an old and a new rect.

module RectDifference {
  import opened Geometry

  datatype Difference = Added(area: Rect) | Removed(area: Rect)

  /** The part of `rect` below `base`'s bottom edge, as wide as `rect`. */
  function BottomStrip(base: Rect, rect: Rect): Rect {
    Rect(Max(rect.x, base.x), base.MaxY(), rect.width, rect.MaxY() - base.MaxY())
  }

  /** The part of `rect` above `base`'s top edge, as wide as `rect`. */
  function TopStrip(base: Rect, rect: Rect): Rect {
    Rect(Max(rect.x, base.x), rect.MinY(), rect.width, base.MinY() - rect.MinY())
  }

  /**
   * `base.exclusiveOr(rect)` as a value: the bottom strip when `rect` reaches
   * below `base`, then the top strip when `rect` starts above `base`.
   */
  function Strips(base: Rect, rect: Rect): (r: seq<Rect>)
    ensures |r| <= 2
    ensures forall i :: 0 <= i < |r| ==> r[i].height > 0.0 && r[i].width == rect.width
  {
    (if rect.MaxY() > base.MaxY() then [BottomStrip(base, rect)] else []) +
    (if base.MinY() > rect.MinY() then [TopStrip(base, rect)] else [])
  }

  /** `base.exclusiveOr(rect)`: appends the strips to a local array one by one. */
  method ExclusiveOr(base: Rect, rect: Rect) returns (res: seq<Rect>)
    ensures res == Strips(base, rect)
  {
    res := [];
    if rect.MaxY() > base.MaxY() {
      var x := Max(rect.x, base.x);
      var bottomExtraRect := Rect(x, base.MaxY(), rect.width, rect.MaxY() - base.MaxY());
      res := res + [bottomExtraRect];
    }
    if base.MinY() > rect.MinY() {
      var x := Max(rect.x, base.x);
      var topExtraRect := Rect(x, rect.MinY(), rect.width, base.MinY() - rect.MinY());
      res := res + [topExtraRect];
    }
  }

  /** Some strip of `strips` spans the row `y`. */
  predicate CoversRow(strips: seq<Rect>, y: real) {
    exists i :: 0 <= i < |strips| && strips[i].MinY() <= y < strips[i].MaxY()
  }

  /** The row `y` belongs to `r`'s vertical extent. */
  predicate SpansRow(r: Rect, y: real) {
    r.MinY() <= y < r.MaxY()
  }

  /**
   * Shape of `base.exclusiveOr(rect)`: at most two strips, the bottom one
   * present exactly when `rect` reaches below `base` and listed first, the top
   * one present exactly when `rect` starts above `base`; each strip has
   * positive height, `rect`'s width and the larger of the two x origins.
   */
  lemma StripsShape(base: Rect, rect: Rect)
    ensures var r := Strips(base, rect);
      var bottom := rect.MaxY() > base.MaxY();
      var top := base.MinY() > rect.MinY();
      && |r| <= 2
      && |r| == (if bottom then 1 else 0) + (if top then 1 else 0)
      && (bottom ==> r[0].MinY() == base.MaxY() && r[0].MaxY() == rect.MaxY())
      && (top ==> r[|r| - 1].MinY() == rect.MinY() && r[|r| - 1].MaxY() == base.MinY())
      && (forall s :: s in r ==> s.height > 0.0 && s.width == rect.width && s.x == Max(rect.x, base.x))
  {
  }

  /** No strip of `base.exclusiveOr(rect)` shares a row with `base`. */
  lemma StripsOutsideBase(base: Rect, rect: Rect, y: real)
    requires CoversRow(Strips(base, rect), y)
    ensures !SpansRow(base, y)
  {
  }

  /**
   * When the two rects overlap, the strips cover exactly the rows of `rect`
   * that `base` does not: a vertical set difference.
   */
  lemma StripsAreRowDifference(base: Rect, rect: Rect, y: real)
    requires base.Valid() && rect.Valid() && base.Intersects(rect)
    ensures CoversRow(Strips(base, rect), y) <==> SpansRow(rect, y) && !SpansRow(base, y)
  {
    var r := Strips(base, rect);
    if SpansRow(rect, y) && !SpansRow(base, y) {
      if y < base.MinY() {
        assert r[|r| - 1] == TopStrip(base, rect);
      } else {
        assert r[0] == BottomStrip(base, rect);
      }
    }
  }

  function AddedAll(areas: seq<Rect>): (r: seq<Difference>)
    ensures |r| == |areas| && forall i :: 0 <= i < |r| ==> r[i] == Added(areas[i])
  {
    seq(|areas|, i requires 0 <= i < |areas| => Added(areas[i]))
  }

  function RemovedAll(areas: seq<Rect>): (r: seq<Difference>)
    ensures |r| == |areas| && forall i :: 0 <= i < |r| ==> r[i] == Removed(areas[i])
  {
    seq(|areas|, i requires 0 <= i < |areas| => Removed(areas[i]))
  }

  /**
   * `base.difference(with: rect)`: for rects that do not overlap, the whole new
   * rect is added and the whole old one removed; otherwise the strips of `rect`
   * outside `base` are added and the strips of `base` outside `rect` removed.
   */
  function DifferenceWith(base: Rect, rect: Rect): (r: seq<Difference>)
    ensures 2 <= |r| || base.Intersects(rect)
    ensures |r| <= 4
    ensures forall i, j :: 0 <= i < j < |r| && r[j].Added? ==> r[i].Added?
  {
    if !base.Intersects(rect) then [Added(rect), Removed(base)]
    else AddedAll(Strips(base, rect)) + RemovedAll(Strips(rect, base))
  }

  /** Rects that do not overlap: exactly `[Added(rect), Removed(base)]`. */
  lemma DifferenceOfDisjoint(base: Rect, rect: Rect)
    requires !base.Intersects(rect)
    ensures DifferenceWith(base, rect) == [Added(rect), Removed(base)]
  {
  }

  /**
   * Overlapping rects: at most two Added entries, taken in order from
   * `base.exclusiveOr(rect)`, then at most two Removed entries taken in order
   * from `rect.exclusiveOr(base)`; no Added entry follows a Removed one.
   */
  lemma DifferenceOfOverlapping(base: Rect, rect: Rect)
    requires base.Intersects(rect)
    ensures var d := DifferenceWith(base, rect);
      var added := Strips(base, rect);
      var removed := Strips(rect, base);
      && |d| == |added| + |removed| && |added| <= 2 && |removed| <= 2
      && (forall i :: 0 <= i < |added| ==> d[i] == Added(added[i]))
      && (forall i :: 0 <= i < |removed| ==> d[|added| + i] == Removed(removed[i]))
      && (forall i, j :: 0 <= i < j < |d| && d[j].Added? ==> d[i].Added?)
  {
    StripsShape(base, rect);
    StripsShape(rect, base);
  }

  /** Some Added entry of `d` spans the row `y`. */
  predicate AddedRow(d: seq<Difference>, y: real) {
    exists i :: 0 <= i < |d| && d[i].Added? && SpansRow(d[i].area, y)
  }

  /** Some Removed entry of `d` spans the row `y`. */
  predicate RemovedRow(d: seq<Difference>, y: real) {
    exists i :: 0 <= i < |d| && d[i].Removed? && SpansRow(d[i].area, y)
  }

  lemma AddedRowOfTagged(added: seq<Rect>, removed: seq<Rect>, y: real)
    ensures AddedRow(AddedAll(added) + RemovedAll(removed), y) <==> CoversRow(added, y)
  {
    var d := AddedAll(added) + RemovedAll(removed);
    if AddedRow(d, y) {
      var i :| 0 <= i < |d| && d[i].Added? && SpansRow(d[i].area, y);
      assert i < |added| && added[i] == d[i].area;
    }
    if CoversRow(added, y) {
      var i :| 0 <= i < |added| && added[i].MinY() <= y < added[i].MaxY();
      assert d[i].Added? && d[i].area == added[i];
    }
  }

  lemma RemovedRowOfTagged(added: seq<Rect>, removed: seq<Rect>, y: real)
    ensures RemovedRow(AddedAll(added) + RemovedAll(removed), y) <==> CoversRow(removed, y)
  {
    var d := AddedAll(added) + RemovedAll(removed);
    if RemovedRow(d, y) {
      var i :| 0 <= i < |d| && d[i].Removed? && SpansRow(d[i].area, y);
      assert i >= |added| && removed[i - |added|] == d[i].area;
    }
    if CoversRow(removed, y) {
      var i :| 0 <= i < |removed| && removed[i].MinY() <= y < removed[i].MaxY();
      assert d[|added| + i].Removed? && d[|added| + i].area == removed[i];
    }
  }

  /**
   * In the overlapping case the Added areas cover exactly the rows that are new
   * and the Removed areas exactly the rows that are gone.
   */
  lemma DifferenceIsRowXor(base: Rect, rect: Rect, y: real)
    requires base.Valid() && rect.Valid() && base.Intersects(rect)
    ensures AddedRow(DifferenceWith(base, rect), y) <==> SpansRow(rect, y) && !SpansRow(base, y)
    ensures RemovedRow(DifferenceWith(base, rect), y) <==> SpansRow(base, y) && !SpansRow(rect, y)
  {
    StripsAreRowDifference(base, rect, y);
    assert rect.Intersects(base);
    StripsAreRowDifference(rect, base, y);
    AddedRowOfTagged(Strips(base, rect), Strips(rect, base), y);
    RemovedRowOfTagged(Strips(base, rect), Strips(rect, base), y);
  }

  /** A rect with positive width and height differenced with itself yields nothing. */
  lemma DifferenceWithItself(r: Rect)
    requires r.width > 0.0 && r.height > 0.0
    ensures DifferenceWith(r, r) == []
  {
    assert r.Intersects(r);
  }

  /** The viewport scrolled down by half its height. */
  lemma DifferenceExample()
    ensures DifferenceWith(Rect(0.0, 0.0, 100.0, 300.0), Rect(0.0, 150.0, 100.0, 300.0))
         == [Added(Rect(0.0, 300.0, 100.0, 150.0)), Removed(Rect(0.0, 0.0, 100.0, 150.0))]
  {
    var base, rect := Rect(0.0, 0.0, 100.0, 300.0), Rect(0.0, 150.0, 100.0, 300.0);
    assert base.Intersects(rect);
    assert rect.MaxY() > base.MaxY() && !(base.MinY() > rect.MinY());
    assert BottomStrip(base, rect) == Rect(0.0, 300.0, 100.0, 150.0);
    assert Strips(base, rect) == [Rect(0.0, 300.0, 100.0, 150.0)];
    assert !(base.MaxY() > rect.MaxY()) && rect.MinY() > base.MinY();
    assert TopStrip(rect, base) == Rect(0.0, 0.0, 100.0, 150.0);
    assert Strips(rect, base) == [Rect(0.0, 0.0, 100.0, 150.0)];
    assert AddedAll([Rect(0.0, 300.0, 100.0, 150.0)]) == [Added(Rect(0.0, 300.0, 100.0, 150.0))];
    assert RemovedAll([Rect(0.0, 0.0, 100.0, 150.0)]) == [Removed(Rect(0.0, 0.0, 100.0, 150.0))];
  }
}
