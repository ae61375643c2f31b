/**
 * The main window's saved position and size: restored over the default size,
 * kept only when it lies wholly on some display (otherwise centred on the
 * primary display), and written back when the window closes.
 *
 * Coordinates are `real`: the centring divides by two and JavaScript keeps
 * the half.
 */
module WindowState {

  import opened Types

  datatype Rect = Rect(x: real, y: real, width: real, height: real)

  /** What the store holds under 'window-state': any of the four fields may be missing. */
  datatype StoredRect = StoredRect(x: Option<real>, y: Option<real>, width: Option<real>, height: Option<real>)

  /** `windowWithinBounds`: the window lies wholly inside `bounds`. */
  predicate WithinBounds(w: Rect, bounds: Rect)
  {
    && w.x >= bounds.x
    && w.y >= bounds.y
    && w.x + w.width <= bounds.x + bounds.width
    && w.y + w.height <= bounds.y + bounds.height
  }

  /** A point of the closed rectangle. */
  predicate Covers(r: Rect, px: real, py: real)
  {
    r.x <= px <= r.x + r.width && r.y <= py <= r.y + r.height
  }

  /** For a window of non-negative size, lying within the bounds means every point of it is a point of them. */
  lemma WithinBoundsMeansCovered(w: Rect, bounds: Rect)
    requires w.width >= 0.0 && w.height >= 0.0
    ensures WithinBounds(w, bounds) <==> forall px, py :: Covers(w, px, py) ==> Covers(bounds, px, py)
  {
    if forall px, py :: Covers(w, px, py) ==> Covers(bounds, px, py) {
      assert Covers(w, w.x, w.y);
      assert Covers(w, w.x + w.width, w.y + w.height);
    }
  }

  function Or(o: Option<real>, d: real): real
  {
    if o.Some? then o.value else d
  }

  /**
   * `restore`: the default size at (0, 0), each field replaced by the stored
   * one when present; with nothing stored the default size is read back.
   */
  function Restore(width: real, height: real, stored: Option<StoredRect>): (r: Rect)
    ensures stored.None? ==> r == Rect(0.0, 0.0, width, height)
    ensures stored.Some? ==>
      && r.x == Or(stored.value.x, 0.0) && r.y == Or(stored.value.y, 0.0)
      && r.width == Or(stored.value.width, width) && r.height == Or(stored.value.height, height)
  {
    var s := if stored.Some? then stored.value else StoredRect(None, None, Some(width), Some(height));
    Rect(Or(s.x, 0.0), Or(s.y, 0.0), Or(s.width, width), Or(s.height, height))
  }

  /** What `saveState` writes, read back: every field is present, so `restore` gives it back exactly. */
  lemma RestoreSaved(width: real, height: real, saved: Rect)
    ensures Restore(width, height, Some(StoredRect(Some(saved.x), Some(saved.y), Some(saved.width), Some(saved.height)))) == saved
  {
  }

  /** `resetToDefaults`: the default size, centred by the primary display's size alone (its origin is ignored). */
  function ResetToDefaults(width: real, height: real, primary: Rect): (r: Rect)
    ensures r.width == width && r.height == height
    ensures r.x + r.width / 2.0 == primary.width / 2.0 && r.y + r.height / 2.0 == primary.height / 2.0
  {
    Rect((primary.width - width) / 2.0, (primary.height - height) / 2.0, width, height)
  }

  /** On a display at the origin, a default size that fits gives a reset window that fits. */
  lemma ResetFitsPrimaryAtOrigin(width: real, height: real, primary: Rect)
    requires primary.x == 0.0 && primary.y == 0.0
    requires 0.0 <= width <= primary.width && 0.0 <= height <= primary.height
    ensures WithinBounds(ResetToDefaults(width, height, primary), primary)
  {
  }

  /** A display away from the origin is not where the reset window goes. */
  lemma ResetIgnoresOrigin()
    ensures !WithinBounds(ResetToDefaults(800.0, 600.0, Rect(1920.0, 0.0, 1920.0, 1080.0)), Rect(1920.0, 0.0, 1920.0, 1080.0))
  {
  }

  /** `displays.some(d => windowWithinBounds(state, d.bounds))`. */
  predicate OnSomeDisplay(w: Rect, displays: seq<Rect>)
  {
    exists i :: 0 <= i < |displays| && WithinBounds(w, displays[i])
  }

  /** `ensureVisibleOnSomeDisplay`. */
  function EnsureVisible(w: Rect, width: real, height: real, displays: seq<Rect>, primary: Rect): (r: Rect)
    ensures OnSomeDisplay(w, displays) ==> r == w
    ensures !OnSomeDisplay(w, displays) ==> r == ResetToDefaults(width, height, primary)
  {
    if OnSomeDisplay(w, displays) then w else ResetToDefaults(width, height, primary)
  }

  /**
   * Checking again changes nothing once the result is on a display; in
   * particular a restored window that was kept is never moved.
   */
  lemma EnsureVisibleIdempotent(w: Rect, width: real, height: real, displays: seq<Rect>, primary: Rect)
    ensures var r := EnsureVisible(w, width, height, displays, primary);
      OnSomeDisplay(r, displays) ==> EnsureVisible(r, width, height, displays, primary) == r
    ensures var r := EnsureVisible(w, width, height, displays, primary);
      r == w || r == ResetToDefaults(width, height, primary)
  {
  }

  /** A window that is not wholly on one display, even if it spans two, is reset. */
  lemma SpanningWindowIsReset(width: real, height: real)
    ensures var left := Rect(0.0, 0.0, 100.0, 100.0);
      var right := Rect(100.0, 0.0, 100.0, 100.0);
      var w := Rect(50.0, 0.0, 100.0, 100.0);
      EnsureVisible(w, width, height, [left, right], left) == ResetToDefaults(width, height, left)
  {
  }

  /** With the primary display at the origin and big enough, the starting state always fits some display. */
  lemma StartingStateVisible(width: real, height: real, stored: Option<StoredRect>, displays: seq<Rect>, primary: Rect)
    requires primary in displays && primary.x == 0.0 && primary.y == 0.0
    requires 0.0 <= width <= primary.width && 0.0 <= height <= primary.height
    ensures OnSomeDisplay(EnsureVisible(Restore(width, height, stored), width, height, displays, primary), displays)
  {
    var r := Restore(width, height, stored);
    if !OnSomeDisplay(r, displays) {
      ResetFitsPrimaryAtOrigin(width, height, primary);
      var i :| 0 <= i < |displays| && displays[i] == primary;
      assert WithinBounds(ResetToDefaults(width, height, primary), displays[i]);
    }
  }

  /** The window-state keeper of one window: the live `state` and what the store holds. */
  class WindowStateKeeper {
    const width: real
    const height: real
    var state: Rect
    var stored: Option<StoredRect>

    /** Computes the starting state from the store and the displays. */
    constructor (width: real, height: real, stored: Option<StoredRect>, displays: seq<Rect>, primary: Rect)
      ensures this.width == width && this.height == height && this.stored == stored
      ensures state == EnsureVisible(Restore(width, height, stored), width, height, displays, primary)
    {
      this.width := width;
      this.height := height;
      this.stored := stored;
      state := EnsureVisible(Restore(width, height, stored), width, height, displays, primary);
    }

    /** `saveState` on close: take the live bounds unless minimized or maximized, then always persist. */
    method SaveState(minimized: bool, maximized: bool, current: Rect)
      modifies this
      ensures !minimized && !maximized ==> state == current
      ensures minimized || maximized ==> state == old(state)
      ensures stored == Some(StoredRect(Some(state.x), Some(state.y), Some(state.width), Some(state.height)))
    {
      if !minimized && !maximized {
        state := current;
      }
      stored := Some(StoredRect(Some(state.x), Some(state.y), Some(state.width), Some(state.height)));
    }
  }
}
