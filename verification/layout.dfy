/**
 * The pure rules behind a Vida view's display: the system index rebuilt by
 * `renderPage`, the scan of `syncScroll`, the visibility of the navigation
 * and zoom icons, the zoom steps and the page size sent to Verovio.
 * Measurements of the DOM (`getBoundingClientRect().top`, `clientHeight`)
 * are inputs, in whole pixels.
 */
module Layout {
  import opened Protocol

  /** One element of `systemData`. */
  datatype SystemEntry = SystemEntry(topOffset: int, id: string)

  /** A `g.system` element found on the content surface: its top and its id. */
  datatype ScannedSystem = ScannedSystem(top: int, id: string)

  function Max(a: int, b: int): int { if a < b then b else a }

  /** The entry `renderPage` stores for a scanned system. */
  function Entry(s: ScannedSystem, vidaOffset: int, border: int): SystemEntry
  {
    SystemEntry(s.top - vidaOffset - border, s.id)
  }

  /**
   * `systemData` after the scan loop of `renderPage`: the first |scan|
   * entries are overwritten from the scan, entries beyond it are kept, and
   * the array never shrinks.
   */
  function Rescanned(prior: seq<SystemEntry>, scan: seq<ScannedSystem>, vidaOffset: int, border: int): (r: seq<SystemEntry>)
    ensures |r| == Max(|prior|, |scan|)
    ensures forall i | 0 <= i < |scan| :: r[i] == Entry(scan[i], vidaOffset, border)
    ensures forall i | |scan| <= i < |prior| :: r[i] == prior[i]
  {
    seq(Max(|prior|, |scan|), i requires 0 <= i < Max(|prior|, |scan|) =>
      if i < |scan| then Entry(scan[i], vidaOffset, border) else prior[i])
  }

  /** The scan loop of `renderPage`, which writes `systemData[sIdx]` for each scanned system in turn. */
  method Rescan(prior: seq<SystemEntry>, scan: seq<ScannedSystem>, vidaOffset: int, border: int) returns (r: seq<SystemEntry>)
    ensures r == Rescanned(prior, scan, vidaOffset, border)
  {
    r := prior;
    var sIdx := 0;
    while sIdx < |scan|
      invariant 0 <= sIdx <= |scan|
      invariant r == Rescanned(prior, scan[..sIdx], vidaOffset, border)
    {
      var entry := Entry(scan[sIdx], vidaOffset, border);
      var next := if sIdx < |r| then r[sIdx := entry] else r + [entry];
      assert next == Rescanned(prior, scan[..sIdx + 1], vidaOffset, border) by {
        var want := Rescanned(prior, scan[..sIdx + 1], vidaOffset, border);
        assert |next| == |want|;
        forall i | 0 <= i < |next| ensures next[i] == want[i] {
          if i < sIdx {
            assert scan[..sIdx + 1][i] == scan[..sIdx][i];
          }
        }
      }
      r := next;
      sIdx := sIdx + 1;
    }
    assert scan[..|scan|] == scan;
  }

  ghost predicate SortedByTop(entries: seq<SystemEntry>)
  {
    forall i, j | 0 <= i < j < |entries| :: entries[i].topOffset <= entries[j].topOffset
  }

  ghost predicate ScanSorted(scan: seq<ScannedSystem>)
  {
    forall i, j | 0 <= i < j < |scan| :: scan[i].top <= scan[j].top
  }

  /**
   * Pages may come back in any order. Once a scan covers at least as many
   * systems as an earlier one, the earlier scan leaves no trace: the index
   * is as if only the later scan had happened.
   */
  lemma LaterScanSupersedes(prior: seq<SystemEntry>, s1: seq<ScannedSystem>, s2: seq<ScannedSystem>,
                            off1: int, off2: int, border: int)
    requires |s1| <= |s2|
    ensures Rescanned(Rescanned(prior, s1, off1, border), s2, off2, border) == Rescanned(prior, s2, off2, border)
  {
    var a := Rescanned(Rescanned(prior, s1, off1, border), s2, off2, border);
    var b := Rescanned(prior, s2, off2, border);
    assert |a| == |b|;
    forall i | 0 <= i < |a| ensures a[i] == b[i] {
      if i >= |s2| {
        assert a[i] == Rescanned(prior, s1, off1, border)[i];
      }
    }
  }

  /**
   * When the scan covers every earlier entry and lists systems top to bottom,
   * the rebuilt index is sorted by offset. A shorter scan can leave stale
   * entries behind it, and `totalSystems` then counts them.
   */
  lemma FullScanIsSorted(prior: seq<SystemEntry>, scan: seq<ScannedSystem>, vidaOffset: int, border: int)
    requires |prior| <= |scan| && ScanSorted(scan)
    ensures SortedByTop(Rescanned(prior, scan, vidaOffset, border))
    ensures |Rescanned(prior, scan, vidaOffset, border)| == |scan|
  {
    var r := Rescanned(prior, scan, vidaOffset, border);
    forall i, j | 0 <= i < j < |r| ensures r[i].topOffset <= r[j].topOffset {
      assert r[i] == Entry(scan[i], vidaOffset, border);
      assert r[j] == Entry(scan[j], vidaOffset, border);
    }
  }

  /** The test of `syncScroll`: system `e` is at or below the scroll position. */
  predicate Within(e: SystemEntry, newTop: int)
  {
    newTop <= e.topOffset + 25
  }

  /** The index `syncScroll` stops at: the first entry within reach of `newTop`. */
  function FirstWithin(entries: seq<SystemEntry>, newTop: int): (r: Option<nat>)
    ensures r.Some? ==> r.value < |entries| && Within(entries[r.value], newTop)
    ensures r.Some? ==> forall j | 0 <= j < r.value :: !Within(entries[j], newTop)
    ensures r.None? <==> forall j | 0 <= j < |entries| :: !Within(entries[j], newTop)
  {
    if entries == [] then None
    else if Within(entries[0], newTop) then Some(0)
    else match FirstWithin(entries[1..], newTop)
      case None => None
      case Some(i) => Some(i + 1)
  }

  /** Consecutive systems lie more than 25 pixels apart. */
  ghost predicate Spaced(entries: seq<SystemEntry>)
  {
    forall i | 0 <= i < |entries| - 1 :: entries[i].topOffset + 25 < entries[i + 1].topOffset
  }

  /**
   * Scrolling to the offset of entry p (what `scrollToPage` does) makes the
   * scan of `syncScroll` stop at p or earlier; when the systems are spaced
   * more than 25 pixels apart it stops exactly at p.
   */
  lemma ScrollLandsOnPage(entries: seq<SystemEntry>, p: nat)
    requires p < |entries|
    ensures FirstWithin(entries, entries[p].topOffset).Some?
    ensures FirstWithin(entries, entries[p].topOffset).value <= p
    ensures Spaced(entries) ==> FirstWithin(entries, entries[p].topOffset) == Some(p)
  {
    if Spaced(entries) {
      SpacedBelow(entries, p);
    }
  }

  /** In spaced entries every system above p is out of reach of p's offset. */
  lemma {:induction false} SpacedBelow(entries: seq<SystemEntry>, p: nat)
    requires p < |entries| && Spaced(entries)
    ensures forall j | 0 <= j < p :: !Within(entries[j], entries[p].topOffset)
    decreases p
  {
    if p > 0 {
      SpacedBelow(entries, p - 1);
      assert entries[p - 1].topOffset + 25 < entries[p].topOffset;
    }
  }

  /** The index `mouseDownListener` records as the clicked page: the first entry with id `sysID`. */
  function IndexOfSystem(entries: seq<SystemEntry>, sysID: string): (r: Option<nat>)
    ensures r.Some? ==> r.value < |entries| && entries[r.value].id == sysID
    ensures r.Some? ==> forall j | 0 <= j < r.value :: entries[j].id != sysID
    ensures r.None? <==> forall j | 0 <= j < |entries| :: entries[j].id != sysID
  {
    if entries == [] then None
    else if entries[0].id == sysID then Some(0)
    else match IndexOfSystem(entries[1..], sysID)
      case None => None
      case Some(i) => Some(i + 1)
  }

  /** `updateNavIcons`: the next-page icon is hidden in horizontal mode and on the last system. */
  predicate NextPageVisible(noLayout: int, currentSystem: int, totalSystems: int)
  {
    !(noLayout != 0 || currentSystem == totalSystems - 1)
  }

  /** `updateNavIcons`: the previous-page icon is hidden in horizontal mode and on the first system. */
  predicate PrevPageVisible(noLayout: int, currentSystem: int)
  {
    !(noLayout != 0 || currentSystem == 0)
  }

  /**
   * In vertical mode, with at least one system and the current system in
   * range, an icon is shown exactly when its button would move:
   * `gotoNextPage` acts iff currentSystem < totalSystems - 1 and
   * `gotoPrevPage` iff currentSystem > 0.
   */
  lemma NavIconsMatchGuards(noLayout: int, currentSystem: int, totalSystems: int)
    requires noLayout == 0 && 0 <= currentSystem < totalSystems
    ensures NextPageVisible(noLayout, currentSystem, totalSystems) <==> currentSystem < totalSystems - 1
    ensures PrevPageVisible(noLayout, currentSystem) <==> currentSystem > 0
  {
  }

  /** `updateZoomIcons`. */
  predicate ZoomInVisible(scale: int) { scale != 100 }

  predicate ZoomOutVisible(scale: int) { scale != 10 }

  /** `zoomIn`: the guard is `scale <= 100`, so 100 still steps to 110. */
  function ZoomedIn(scale: int): (r: int)
    ensures scale <= 100 ==> r == scale + 10
    ensures scale > 100 ==> r == scale
  {
    if scale <= 100 then scale + 10 else scale
  }

  /** `zoomOut`. */
  function ZoomedOut(scale: int): (r: int)
    ensures scale > 10 ==> r == scale - 10
    ensures scale <= 10 ==> r == scale
  {
    if scale > 10 then scale - 10 else scale
  }

  /** The scales reachable from the initial 40: multiples of 10 from 10 to 110. */
  ghost predicate ReachableScale(scale: int)
  {
    10 <= scale <= 110 && scale % 10 == 0
  }

  /** Zooming out undoes zooming in wherever zooming in acted, and conversely. */
  lemma ZoomStepsUndo(scale: int)
    requires ReachableScale(scale)
    ensures scale <= 100 ==> ZoomedOut(ZoomedIn(scale)) == scale
    ensures scale > 10 ==> ZoomedIn(ZoomedOut(scale)) == scale
  {
  }

  /** A sequence of clicks on the zoom buttons: true for zoom in, false for zoom out. */
  function ZoomAfter(scale: int, clicks: seq<bool>): int
    decreases |clicks|
  {
    if clicks == [] then scale
    else ZoomAfter(if clicks[0] then ZoomedIn(scale) else ZoomedOut(scale), clicks[1..])
  }

  /**
   * Starting from a reachable scale (the initial 40 is one), any sequence of
   * zoom clicks keeps the scale a multiple of 10 between 10 and 110; in
   * particular it never drops below 10.
   */
  lemma {:induction false} ZoomStaysReachable(scale: int, clicks: seq<bool>)
    requires ReachableScale(scale)
    ensures ReachableScale(ZoomAfter(scale, clicks))
    decreases |clicks|
  {
    if clicks != [] {
      var next := if clicks[0] then ZoomedIn(scale) else ZoomedOut(scale);
      assert ReachableScale(next);
      ZoomStaysReachable(next, clicks[1..]);
    }
  }

  /**
   * The overshoot to 110 needs a click on the zoom-in icon at 100, which
   * `updateZoomIcons` hides: a click on a visible icon keeps the scale at
   * most 100.
   */
  lemma VisibleZoomInStaysInRange(scale: int)
    requires ReachableScale(scale) && scale <= 100 && ZoomInVisible(scale)
    ensures ZoomedIn(scale) <= 100
  {
  }

  /** `x >> 0` on an integral value: wrap to a signed 32-bit integer. */
  function ToInt32(n: int): (r: int)
    ensures -0x8000_0000 <= r < 0x8000_0000
    ensures (n - r) % 0x1_0000_0000 == 0
    ensures -0x8000_0000 <= n < 0x8000_0000 ==> r == n
  {
    var m := n % 0x1_0000_0000;
    if m < 0x8000_0000 then m else m - 0x1_0000_0000
  }

  /**
   * The page height or width `refreshVerovio` sends:
   * `Math.max(clientSize * (100 / scale) - border, 100) >> 0`.
   */
  function PageExtent(clientSize: int, scale: int, border: int): (r: int)
    requires scale != 0
    ensures -0x8000_0000 <= r < 0x8000_0000
  {
    var size := clientSize as real * (100.0 / scale as real) - border as real;
    var atLeast100 := if size < 100.0 then 100.0 else size;
    ToInt32(atLeast100.Floor)
  }

  /** Verovio's minimum of 100 holds whenever the size fits in 32 bits. */
  lemma PageExtentAtLeast100(clientSize: int, scale: int, border: int)
    requires scale != 0
    requires clientSize as real * (100.0 / scale as real) - border as real < 2147483648.0
    ensures 100 <= PageExtent(clientSize, scale, border)
  {
  }
}
