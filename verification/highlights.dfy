/**
 * The highlight cache of a Vida view and the inline styles it drives on the
 * two surfaces: the content surface (`svgWrapper`), where a highlighted
 * element is made transparent, and the interaction overlay (`svgOverlay`),
 * where it is painted red.
 */
module Highlights {
  import opened Protocol

  /** The `style` attributes the highlight code writes. */
  datatype Style =
    | Suppressed  // content surface: "fill-opacity: 0.0; stroke-opacity: 0.0;"
    | Restored    // content surface: "fill-opacity: 1.0; stroke-opacity: 1.0;"
    | Active      // overlay: red fill and stroke, opacity 1
    | Cleared     // overlay: black fill and stroke, opacity 0

  /** `highlightedCache` and the styles of both surfaces, keyed by element id. */
  datatype Surfaces = Surfaces(cache: seq<Id>, wrapper: map<Id, Style>, overlay: map<Id, Style>)

  ghost predicate Distinct(s: seq<Id>)
  {
    forall i, j | 0 <= i < j < |s| :: s[i] != s[j]
  }

  /**
   * An id is in the cache iff it is suppressed on the content surface and
   * active on the overlay; every other styled id is back at baseline.
   */
  ghost predicate Consistent(h: Surfaces)
  {
    && Distinct(h.cache)
    && (forall id | id in h.cache :: id in h.wrapper && h.wrapper[id] == Suppressed)
    && (forall id | id in h.cache :: id in h.overlay && h.overlay[id] == Active)
    && (forall id | id in h.wrapper && id !in h.cache :: h.wrapper[id] == Restored)
    && (forall id | id in h.overlay && id !in h.cache :: h.overlay[id] == Cleared)
  }

  /** `highlightedCache.indexOf(id)`. */
  function IndexOf(s: seq<Id>, x: Id): (r: int)
    ensures -1 <= r < |s|
    ensures r == -1 <==> x !in s
    ensures r >= 0 ==> s[r] == x && forall j | 0 <= j < r :: s[j] != x
  {
    if s == [] then -1
    else if s[0] == x then 0
    else
      var i := IndexOf(s[1..], x);
      if i == -1 then -1 else i + 1
  }

  /** The overlay after `reapplyHighlights`: every cached id painted active. */
  function Reapplied(overlay: map<Id, Style>, cache: seq<Id>): (r: map<Id, Style>)
    ensures forall id | id in cache :: id in r && r[id] == Active
    ensures forall id | id !in cache :: (id in r <==> id in overlay) && (id in r ==> r[id] == overlay[id])
  {
    map id | id in overlay.Keys + (set x | x in cache) :: if id in cache then Active else overlay[id]
  }

  /** Painting one more cached id: the loop step of `reapplyHighlights`. */
  lemma ReappliedSnoc(overlay: map<Id, Style>, cache: seq<Id>, id: Id)
    ensures Reapplied(overlay, cache + [id]) == Reapplied(overlay, cache)[id := Active]
  {
    var a := Reapplied(overlay, cache + [id]);
    var b := Reapplied(overlay, cache)[id := Active];
    forall x ensures (x in a <==> x in b) && (x in a ==> a[x] == b[x]) {
      if x != id {
        assert x in cache + [id] <==> x in cache;
      }
    }
  }

  /** The loop of `reapplyHighlights`: each cached id in turn is painted active. */
  method Repaint(overlay: map<Id, Style>, cache: seq<Id>) returns (r: map<Id, Style>)
    ensures r == Reapplied(overlay, cache)
  {
    r := overlay;
    assert Reapplied(overlay, []) == overlay;
    for idx := 0 to |cache|
      invariant r == Reapplied(overlay, cache[..idx])
    {
      assert cache[..idx + 1] == cache[..idx] + [cache[idx]];
      ReappliedSnoc(overlay, cache[..idx], cache[idx]);
      r := r[cache[idx] := Active];
    }
    assert cache[..|cache|] == cache;
  }

  /** With consistent surfaces, re-applying the highlights changes nothing. */
  lemma ReappliedConsistent(h: Surfaces)
    requires Consistent(h)
    ensures Reapplied(h.overlay, h.cache) == h.overlay
  {
  }

  /** `activateHighlight(id)`. */
  function Activate(h: Surfaces, id: Id): (r: Surfaces)
    ensures id in r.cache
    ensures id in h.cache ==> r == h
    ensures id !in h.cache ==> r.cache == h.cache + [id]
    ensures Consistent(h) ==> Consistent(r)
  {
    if id in h.cache then h
    else
      var cache := h.cache + [id];
      Surfaces(cache, h.wrapper[id := Suppressed], Reapplied(h.overlay, cache))
  }

  /** `splice(i, 1)`: the sequence without its element at position i. */
  function Spliced(s: seq<Id>, i: nat): (r: seq<Id>)
    requires i < |s|
    ensures |r| == |s| - 1
    ensures forall k | 0 <= k < i :: r[k] == s[k]
    ensures forall k | i <= k < |r| :: r[k] == s[k + 1]
  {
    seq(|s| - 1, k requires 0 <= k < |s| - 1 => if k < i then s[k] else s[k + 1])
  }

  /** Splicing position i out leaves what comes before it followed by what comes after it. */
  lemma SplicedSlices(s: seq<Id>, i: nat)
    requires i < |s|
    ensures Spliced(s, i) == s[..i] + s[i + 1..]
    ensures s == s[..i] + [s[i]] + s[i + 1..]
  {
  }

  /** `removeHighlight(id)`: splice the first occurrence out and restore both surfaces. */
  function Remove(h: Surfaces, id: Id): (r: Surfaces)
    ensures id !in h.cache ==> r == h
    ensures id in h.cache ==> r.wrapper == h.wrapper[id := Restored] && r.overlay == h.overlay[id := Cleared]
    ensures id in h.cache ==> |r.cache| == |h.cache| - 1
  {
    var i := IndexOf(h.cache, id);
    if i == -1 then h
    else Surfaces(Spliced(h.cache, i), h.wrapper[id := Restored], h.overlay[id := Cleared])
  }

  /** `removeHighlight` drops exactly one occurrence of the id, when there is one, and nothing else. */
  lemma RemoveCount(h: Surfaces, id: Id)
    ensures multiset(Remove(h, id).cache) == multiset(h.cache) - multiset{id}
  {
    var i := IndexOf(h.cache, id);
    if i != -1 {
      SplicedSlices(h.cache, i);
    } else {
      assert multiset(h.cache)[id] == 0;
    }
  }

  /** Every other id is cached after `removeHighlight(id)` exactly when it was before. */
  lemma RemoveKeepsOthers(h: Surfaces, id: Id)
    ensures forall x | x in Remove(h, id).cache :: x in h.cache
    ensures forall x | x in h.cache && x != id :: x in Remove(h, id).cache
  {
    var i := IndexOf(h.cache, id);
    if i != -1 {
      var r := Remove(h, id).cache;
      forall x | x in r ensures x in h.cache {
        var k :| 0 <= k < |r| && r[k] == x;
        assert h.cache[if k < i then k else k + 1] == x;
      }
      forall x | x in h.cache && x != id ensures x in r {
        var k :| 0 <= k < |h.cache| && h.cache[k] == x;
        assert r[if k < i then k else k - 1] == x;
      }
    }
  }

  /** Removing an id keeps the surfaces consistent and the id out of the cache. */
  lemma RemoveConsistent(h: Surfaces, id: Id)
    requires Consistent(h)
    ensures Consistent(Remove(h, id)) && id !in Remove(h, id).cache
  {
    var i := IndexOf(h.cache, id);
    if i != -1 {
      var r := Remove(h, id);
      var c := h.cache;
      assert r.cache == Spliced(c, i);
      forall a, b | 0 <= a < b < |r.cache| ensures r.cache[a] != r.cache[b] {
        var a' := if a < i then a else a + 1;
        var b' := if b < i then b else b + 1;
        assert r.cache[a] == c[a'] && r.cache[b] == c[b'];
      }
      forall x | x in r.cache ensures x in c && x != id {
        var k :| 0 <= k < |r.cache| && r.cache[k] == x;
        var k' := if k < i then k else k + 1;
        assert c[k'] == x && k' != i;
      }
      RemoveKeepsOthers(h, id);
    }
  }

  /** `resetHighlights`: remove the first cached id until the cache is empty. */
  function Reset(h: Surfaces): (r: Surfaces)
    ensures r.cache == []
    decreases |h.cache|
  {
    if |h.cache| == 0 then h
    else
      Reset(Remove(h, h.cache[0]))
  }

  /** After `resetHighlights` the cache is empty and every id it held is back at baseline. */
  lemma {:induction false} ResetRestoresAll(h: Surfaces)
    requires Consistent(h)
    ensures Reset(h).cache == [] && Consistent(Reset(h))
    ensures forall id | id in h.cache :: id in Reset(h).wrapper && Reset(h).wrapper[id] == Restored
    ensures forall id | id in h.cache :: id in Reset(h).overlay && Reset(h).overlay[id] == Cleared
    ensures forall id | id in h.wrapper && id !in h.cache :: id in Reset(h).wrapper && Reset(h).wrapper[id] == h.wrapper[id]
    ensures forall id | id in h.overlay && id !in h.cache :: id in Reset(h).overlay && Reset(h).overlay[id] == h.overlay[id]
    decreases |h.cache|
  {
    if |h.cache| > 0 {
      var first := h.cache[0];
      var next := Remove(h, first);
      RemoveConsistent(h, first);
      ResetRestoresAll(next);
      RemoveKeepsOthers(h, first);
    }
  }

  /**
   * Pressing on a note (`resetHighlights`, then `activateHighlight(id)`)
   * leaves that note as the only highlight, whatever was highlighted before.
   */
  lemma PressHighlightsOnly(h: Surfaces, id: Id)
    requires Consistent(h)
    ensures Activate(Reset(h), id).cache == [id]
    ensures Consistent(Activate(Reset(h), id))
  {
    ResetRestoresAll(h);
  }

  /** Activating an id twice leaves it in the cache exactly once. */
  lemma ActivateTwice(h: Surfaces, id: Id)
    requires Distinct(h.cache)
    ensures Activate(Activate(h, id), id) == Activate(h, id)
    ensures multiset(Activate(h, id).cache)[id] == 1
  {
    if id in h.cache {
      var i :| 0 <= i < |h.cache| && h.cache[i] == id;
      assert h.cache == h.cache[..i] + [id] + h.cache[i + 1..];
      assert id !in h.cache[..i] && id !in h.cache[i + 1..];
    } else {
      assert multiset(h.cache)[id] == 0;
    }
  }

  /**
   * Activating an id that is not highlighted and then removing it gives the
   * cache back exactly, restores both surfaces of that id to baseline and
   * leaves every other id as it was.
   */
  lemma ActivateThenRemove(h: Surfaces, id: Id)
    requires Consistent(h) && id !in h.cache
    ensures Remove(Activate(h, id), id) == Surfaces(h.cache, h.wrapper[id := Restored], h.overlay[id := Cleared])
  {
    ReappliedThenCleared(h, id);
    var cache := h.cache + [id];
    assert IndexOf(cache, id) == |h.cache|;
    assert Spliced(cache, |h.cache|) == h.cache;
    assert h.wrapper[id := Suppressed][id := Restored] == h.wrapper[id := Restored];
  }

  /** Helper: painting the cache plus `id` and then clearing `id` touches nothing else. */
  lemma ReappliedThenCleared(h: Surfaces, id: Id)
    requires Consistent(h) && id !in h.cache
    ensures Reapplied(h.overlay, h.cache + [id])[id := Cleared] == h.overlay[id := Cleared]
  {
    var cache := h.cache + [id];
    var overlay := Reapplied(h.overlay, cache);
    forall x | x != id && x in h.cache ensures x in overlay && x in h.overlay && overlay[x] == h.overlay[x] {
      assert x in cache;
    }
  }
}
