/**
 * The arithmetic and bookkeeping of a drag on the overlay: the record
 * `mouseDownListener` keeps, the vertical shift of `mouseMoveListener`, the
 * committed coordinate of `commitChanges`, and which highlighted ids the
 * commit loop reaches while it splices the cache it walks.
 */
module Dragging {
  import opened Protocol
  import opened Highlights

  /**
   * `dragInfo`: the clicked note's x and y as written in the SVG, the mouse's
   * page y when the drag began, and SVG units per screen pixel.
   */
  datatype DragInfo = DragInfo(x: int, svgY: int, initY: int, pixPerPix: real)

  /** `actualHeight / svgHeight`: the viewBox height over the rendered height. */
  function PixPerPix(actualHeight: int, svgHeight: int): (r: real)
    requires svgHeight != 0
    ensures r * svgHeight as real == actualHeight as real
  {
    actualHeight as real / svgHeight as real
  }

  /** The translation `mouseMoveListener` applies while the mouse is at `pageY`. */
  function Shift(info: DragInfo, pageY: int): (r: real)
    ensures pageY == info.initY ==> r == 0.0
    ensures info.pixPerPix > 0.0 ==> (r > 0.0 <==> pageY > info.initY)
  {
    (pageY - info.initY) as real * info.pixPerPix
  }

  /** `parseInt` of a number's decimal text: the integer part, rounding toward zero. */
  function Trunc(v: real): (r: int)
    ensures 0.0 <= v ==> r as real <= v < r as real + 1.0
    ensures v < 0.0 ==> r as real - 1.0 < v <= r as real
  {
    if 0.0 <= v then v.Floor else -((-v).Floor)
  }

  /** The y coordinate `commitChanges` sends to the editor once the mouse is released at `finalY`. */
  function CommittedY(info: DragInfo, finalY: int): (r: int)
    ensures finalY == info.initY ==> r == info.svgY
  {
    Trunc(info.svgY as real + Shift(info, finalY))
  }

  /** A drag that ends where it began commits the note's own y; one that moves commits a shifted y. */
  lemma CommittedYFollowsMouse(info: DragInfo, finalY: int)
    requires info.pixPerPix > 0.0
    ensures finalY > info.initY ==> CommittedY(info, finalY) >= info.svgY
    ensures finalY < info.initY ==> CommittedY(info, finalY) <= info.svgY
    ensures (finalY - info.initY) as real * info.pixPerPix >= 1.0 ==> CommittedY(info, finalY) > info.svgY
  {
  }

  /** The elements at even positions: 0, 2, 4, ... */
  function Evens<T>(s: seq<T>): (r: seq<T>)
    ensures |r| == (|s| + 1) / 2
    ensures forall i | 0 <= i < |r| :: r[i] == s[2 * i]
  {
    seq((|s| + 1) / 2, i requires 0 <= i < (|s| + 1) / 2 => s[2 * i])
  }

  /** The elements at odd positions: 1, 3, 5, ... */
  function Odds<T>(s: seq<T>): (r: seq<T>)
    ensures |r| == |s| / 2
    ensures forall i | 0 <= i < |r| :: r[i] == s[2 * i + 1]
  {
    seq(|s| / 2, i requires 0 <= i < |s| / 2 => s[2 * i + 1])
  }

  /** Evens and Odds split a sequence: every element lands in exactly one, by position. */
  lemma EvensOddsPartition<T>(s: seq<T>)
    ensures |Evens(s)| + |Odds(s)| == |s|
    ensures multiset(Evens(s)) + multiset(Odds(s)) == multiset(s)
    decreases |s|
  {
    if |s| >= 2 {
      var t := s[2..];
      EvensOddsPartition(t);
      assert Evens(s) == [s[0]] + Evens(t);
      assert Odds(s) == [s[1]] + Odds(t);
      assert s == [s[0], s[1]] + t;
    } else if |s| == 1 {
      assert Evens(s) == s;
      assert Odds(s) == [];
    } else {
      assert Evens(s) == [] && Odds(s) == [];
    }
  }

  /** Growing an even-length prefix by one element adds it to the evens and leaves the odds. */
  lemma ExtendEven<T>(s: seq<T>, m: nat)
    requires m < |s| && m % 2 == 0
    ensures Evens(s[..m + 1]) == Evens(s[..m]) + [s[m]]
    ensures Odds(s[..m + 1]) == Odds(s[..m])
  {
  }

  /** Growing it by a second element adds that one to the odds and leaves the evens. */
  lemma ExtendOdd<T>(s: seq<T>, m: nat)
    requires m < |s| && m % 2 == 1
    ensures Evens(s[..m + 1]) == Evens(s[..m])
    ensures Odds(s[..m + 1]) == Odds(s[..m]) + [s[m]]
  {
  }

  function Min(a: int, b: int): int { if a < b then a else b }

  /**
   * The cache while `commitChanges` walks it, once the first m elements of
   * the original have been walked: the odd ones among them (the even ones
   * were removed) followed by the elements not yet walked.
   */
  function Unvisited(orig: seq<Id>, m: nat): (r: seq<Id>)
    requires m <= |orig|
    ensures |r| == m / 2 + |orig| - m
    ensures forall i | 0 <= i < m / 2 :: r[i] == orig[2 * i + 1]
    ensures forall i | m / 2 <= i < |r| :: r[i] == orig[i - m / 2 + m]
  {
    seq(m / 2 + |orig| - m, i requires 0 <= i < m / 2 + |orig| - m =>
      if i < m / 2 then orig[2 * i + 1] else orig[i - m / 2 + m])
  }

  /** Before the walk the cache is the original; after the whole walk it holds the odd positions. */
  lemma UnvisitedEnds(orig: seq<Id>)
    ensures Unvisited(orig, 0) == orig
    ensures Unvisited(orig, |orig|) == Odds(orig)
  {
  }

  /**
   * One turn of the `commitChanges` loop, on sequences. When the first m
   * elements of the original cache have been walked (m even), the loop index
   * m / 2 points at original element m. Splicing it out skips the element
   * after it: the walk advances by two.
   */
  lemma SpliceSeq(orig: seq<Id>, m: nat)
    requires m % 2 == 0 && m < |orig|
    ensures m / 2 < |Unvisited(orig, m)| && Unvisited(orig, m)[m / 2] == orig[m]
    ensures Spliced(Unvisited(orig, m), m / 2) == Unvisited(orig, Min(m + 2, |orig|))
  {
    var u := Unvisited(orig, m);
    var a := Spliced(u, m / 2);
    var b := Unvisited(orig, Min(m + 2, |orig|));
    assert |a| == |b|;
    forall i | 0 <= i < |a| ensures a[i] == b[i] {
      if i < m / 2 {
        assert a[i] == u[i] == orig[2 * i + 1];
      } else {
        assert a[i] == u[i + 1] == orig[i + 1 - m / 2 + m];
      }
    }
  }

  /** In a distinct cache, removing the id at position k splices out exactly position k. */
  lemma RemoveAt(h: Surfaces, k: nat)
    requires Distinct(h.cache) && k < |h.cache|
    ensures Remove(h, h.cache[k]).cache == Spliced(h.cache, k)
  {
    var i := IndexOf(h.cache, h.cache[k]);
    assert i <= k;
    assert h.cache[i] == h.cache[k];
  }

  /**
   * After the whole walk over a distinct cache the loop has reached exactly
   * the elements at even positions and left those at odd positions behind:
   * `commitChanges` acts on every highlighted id only when there is at most one.
   */
  lemma WalkOfOne(cache: seq<Id>)
    requires |cache| <= 1
    ensures Evens(cache) == cache && Odds(cache) == []
  {
  }

  /** `removeHighlight` applied to each id of `ids` in order. */
  function RemoveAll(h: Surfaces, ids: seq<Id>): (r: Surfaces)
    ensures |h.cache| - |ids| <= |r.cache| <= |h.cache|
    decreases |ids|
  {
    if ids == [] then h
    else Remove(RemoveAll(h, ids[..|ids| - 1]), ids[|ids| - 1])
  }

  /** Removing any ids one after another keeps the surfaces consistent and none of the ids cached. */
  lemma {:induction false} RemoveAllConsistent(h: Surfaces, ids: seq<Id>)
    requires Consistent(h)
    ensures Consistent(RemoveAll(h, ids))
    ensures forall id | id in ids :: id !in RemoveAll(h, ids).cache
    decreases |ids|
  {
    if ids != [] {
      var front := ids[..|ids| - 1];
      var last := ids[|ids| - 1];
      RemoveAllConsistent(h, front);
      var before := RemoveAll(h, front);
      RemoveConsistent(before, last);
      RemoveKeepsOthers(before, last);
      forall id | id in ids && id != last ensures id in front {
        var k :| 0 <= k < |ids| && ids[k] == id;
        assert front[k] == id;
      }
    }
  }
}
