/**
 * The frame loop (js/scriptanimationlogo.js:188-204): the glyphs are built once,
 * then every frame sorts them in place by projected scale, smallest first, and
 * draws them in that order. Drawing projects, so the sort sees the scales the
 * PREVIOUS frame left behind (all 0 in the first frame).
 */
module Painter {
  import opened Wrappers
  import opened Camera
  import opened Sphere
  import opened Glyphs

  /** The glyphs are in ascending order of projected scale. */
  predicate ByScale(s: seq<Dot>)
    reads s
  {
    forall i, j :: 0 <= i < j < |s| ==> s[i].scaleProjected <= s[j].scaleProjected
  }

  /** No glyph appears twice. */
  predicate Distinct(s: seq<Dot>) {
    forall i, j :: 0 <= i < j < |s| ==> s[i] != s[j]
  }

  /** The glyph list built once at start-up, one glyph per parsed glyph outline:
      glyph i gets colour row i, its path count and its place on the spiral; `thetas` and `radii` stand for the
      trigonometry and square root the constructor computes. */
  method MakeDots(rows: seq<seq<Option<string>>>, pathCounts: seq<nat>, thetas: seq<Angle>, radii: seq<real>)
    returns (dots: array<Dot>)
    requires |rows| == |pathCounts| == |thetas| == |radii| != 1
    requires forall i :: 0 <= i < |thetas| ==> thetas[i].Unit()
    requires forall i :: 0 <= i < |radii| ==>
      radii[i] >= 0.0 && radii[i] * radii[i] == 1.0 - InitialY(i, |radii|) * InitialY(i, |radii|)
    ensures fresh(dots) && dots.Length == |rows| && Distinct(dots[..])
    ensures forall i :: 0 <= i < dots.Length ==>
      fresh(dots[i]) && dots[i].Valid() &&
      dots[i].Pos() == SpiralPoint(InitialY(i, dots.Length), radii[i], thetas[i]) &&
      dots[i].colors == rows[i] && dots[i].pathCount == pathCounts[i] &&
      dots[i].scaleProjected == 0.0
  {
    var n := |rows|;
    var made: seq<Dot> := [];
    var i := 0;
    while i < n
      invariant 0 <= i <= n && |made| == i && Distinct(made)
      invariant forall k :: 0 <= k < i ==>
        fresh(made[k]) && made[k].Valid() &&
        made[k].Pos() == SpiralPoint(InitialY(k, n), radii[k], thetas[k]) &&
        made[k].colors == rows[k] && made[k].pathCount == pathCounts[k] &&
        made[k].scaleProjected == 0.0
    {
      var d := new Dot(i, n, rows[i], pathCounts[i], thetas[i], radii[i]);
      made := made + [d];
      i := i + 1;
    }
    dots := new Dot[n](k requires 0 <= k < n reads made => made[k]);
    assert dots[..] == made;
  }

  /** The scales of a list of glyphs, in order. */
  function Keys(s: seq<Dot>): seq<real>
    reads s
  {
    seq(|s|, k requires 0 <= k < |s| reads s => s[k].scaleProjected)
  }

  /** keys lists the scales of s, in order. */
  predicate KeysOf(keys: seq<real>, s: seq<Dot>)
    reads s
  {
    |keys| == |s| && forall k :: 0 <= k < |s| ==> keys[k] == s[k].scaleProjected
  }

  /** The places of a list of glyphs, in order. */
  function Places(s: seq<Dot>): seq<Point>
    reads s
  {
    seq(|s|, k requires 0 <= k < |s| reads s => s[k].Pos())
  }

  /** The depths of a list of glyphs, in order. */
  function Depths(s: seq<Dot>): seq<real>
    reads s
  {
    seq(|s|, k requires 0 <= k < |s| reads s => s[k].z)
  }

  /** The snapshots list the scales and places of s, glyph by glyph. */
  lemma Snapshots(s: seq<Dot>)
    ensures KeysOf(Keys(s), s)
    ensures |Places(s)| == |s| && forall k :: 0 <= k < |s| ==> Places(s)[k] == s[k].Pos()
    ensures |Depths(s)| == |s| && forall k :: 0 <= k < |s| ==> Depths(s)[k] == s[k].z
  {
  }

  /** The first n keys are in ascending order. */
  predicate SortedBelow(keys: seq<real>, n: nat) {
    forall k, l :: 0 <= k < l < n && l < |keys| ==> keys[k] <= keys[l]
  }

  /** Entry k of s is entry from[k] of orig. */
  predicate Tracks<T(==)>(s: seq<T>, orig: seq<T>, from: seq<nat>) {
    |from| == |s| == |orig| && forall k :: 0 <= k < |s| ==> from[k] < |orig| && s[k] == orig[from[k]]
  }

  /** Among the first n entries no two come from the same place, and equal keys
      keep their original relative order. */
  predicate StableBelow(keys: seq<real>, from: seq<nat>, n: nat)
    requires |from| == |keys|
  {
    (forall k, l :: 0 <= k < l < n && l < |keys| ==> from[k] != from[l]) &&
    (forall k, l :: 0 <= k < l < n && l < |keys| && keys[k] == keys[l] ==> from[k] < from[l])
  }

  /** s with entries j-1 and j exchanged. */
  function Swapped<T>(s: seq<T>, j: nat): (r: seq<T>)
    requires 0 < j < |s|
    ensures |r| == |s| && r[j - 1] == s[j] && r[j] == s[j - 1]
    ensures forall k :: 0 <= k < |s| && k != j - 1 && k != j ==> r[k] == s[k]
  {
    s[j - 1 := s[j]][j := s[j - 1]]
  }

  /** The state of a pass that has carried entry i (originally at position i)
      down to position j: everything else in the first i+1 is in order, and
      everything it has passed has a strictly larger key. */
  predicate Inserting(keys: seq<real>, from: seq<nat>, i: nat, j: nat) {
    j <= i < |keys| == |from| &&
    (forall k, l :: 0 <= k < l <= i && l != j ==> keys[k] <= keys[l]) &&
    (forall l :: j < l <= i ==> keys[j] < keys[l]) &&
    from[j] == i &&
    (forall k :: 0 <= k <= i && k != j ==> from[k] < i) &&
    (forall k :: i < k < |keys| ==> from[k] == k) &&
    StableBelow(keys, from, i + 1)
  }

  /** Exchanging two neighbours exchanges their keys. */
  lemma KeysSwapped(keys: seq<real>, s: seq<Dot>, j: nat)
    requires KeysOf(keys, s) && 0 < j < |s|
    ensures KeysOf(Swapped(keys, j), Swapped(s, j))
  {
  }

  /** Exchanging two neighbours in both the list and its origins keeps the tracking. */
  lemma TracksSwapped<T>(s: seq<T>, orig: seq<T>, from: seq<nat>, j: nat)
    requires Tracks(s, orig, from) && 0 < j < |s|
    ensures Tracks(Swapped(s, j), orig, Swapped(from, j))
  {
  }

  /** Moving the entry one place left, past a strictly larger key, keeps the state. */
  lemma SwapKeepsInserting(keys: seq<real>, from: seq<nat>, i: nat, j: nat)
    requires Inserting(keys, from, i, j) && 0 < j && keys[j - 1] > keys[j]
    ensures Inserting(Swapped(keys, j), Swapped(from, j), i, j - 1)
  {
    var keys', from' := Swapped(keys, j), Swapped(from, j);
    assert StableBelow(keys', from', i + 1) by {
      forall k, l | 0 <= k < l <= i
        ensures from'[k] != from'[l]
        ensures keys'[k] == keys'[l] ==> from'[k] < from'[l]
      {
        var pk := if k == j - 1 then j else if k == j then j - 1 else k;
        var pl := if l == j - 1 then j else if l == j then j - 1 else l;
        assert keys'[k] == keys[pk] && keys'[l] == keys[pl] && from'[k] == from[pk] && from'[l] == from[pl];
      }
    }
  }

  /** A pass ends when the entry meets a key no larger than its own. */
  lemma DoneInserting(keys: seq<real>, from: seq<nat>, i: nat, j: nat)
    requires Inserting(keys, from, i, j)
    requires j == 0 || keys[j - 1] <= keys[j]
    ensures SortedBelow(keys, i + 1) && StableBelow(keys, from, i + 1)
    ensures forall k :: 0 <= k <= i ==> from[k] <= i
    ensures forall k :: i < k < |keys| ==> from[k] == k
  {
    forall k, l | 0 <= k < l <= i
      ensures keys[k] <= keys[l]
    {
      if l == j && k < j - 1 {
        assert keys[k] <= keys[j - 1];
      }
    }
  }

  /** Exchanges two neighbouring glyphs. */
  method SwapDown(dots: array<Dot>, j: nat)
    requires 0 < j < dots.Length
    modifies dots
    ensures dots[..] == Swapped(old(dots[..]), j)
    ensures multiset(dots[..]) == old(multiset(dots[..]))
  {
    dots[j - 1], dots[j] := dots[j], dots[j - 1];
  }

  /** One pass of the insertion sort: glyph i moves left past every strictly
      larger scale among the sorted first i. `keys` follows the scales of the
      array as it is reordered. */
  method InsertNext(dots: array<Dot>, i: nat, ghost orig: seq<Dot>, ghost base: seq<real>,
                    ghost keys0: seq<real>, ghost from0: seq<nat>)
    returns (ghost keys: seq<real>, ghost from: seq<nat>)
    requires i < dots.Length && KeysOf(keys0, dots[..])
    requires Tracks(dots[..], orig, from0) && Tracks(keys0, base, from0)
    requires SortedBelow(keys0, i) && StableBelow(keys0, from0, i)
    requires forall k :: 0 <= k < i ==> from0[k] < i
    requires forall k :: i <= k < dots.Length ==> from0[k] == k
    modifies dots
    ensures KeysOf(keys, dots[..]) && Tracks(dots[..], orig, from) && Tracks(keys, base, from)
    ensures SortedBelow(keys, i + 1) && StableBelow(keys, from, i + 1)
    ensures forall k :: 0 <= k <= i ==> from[k] <= i
    ensures forall k :: i < k < dots.Length ==> from[k] == k
    ensures multiset(dots[..]) == old(multiset(dots[..]))
  {
    keys, from := keys0, from0;
    var j := i;
    while j > 0 && dots[j - 1].scaleProjected > dots[j].scaleProjected
      invariant 0 <= j <= i && KeysOf(keys, dots[..])
      invariant Tracks(dots[..], orig, from) && Tracks(keys, base, from) && Inserting(keys, from, i, j)
      invariant multiset(dots[..]) == old(multiset(dots[..]))
    {
      SwapKeepsInserting(keys, from, i, j);
      KeysSwapped(keys, dots[..], j);
      TracksSwapped(dots[..], orig, from, j);
      TracksSwapped(keys, base, from, j);
      SwapDown(dots, j);
      keys, from := Swapped(keys, j), Swapped(from, j);
      j := j - 1;
    }
    DoneInserting(keys, from, i, j);
  }

  /** Sorted keys of a list are a list sorted by scale. */
  lemma SortedKeysByScale(s: seq<Dot>, keys: seq<real>)
    requires KeysOf(keys, s) && SortedBelow(keys, |s|)
    ensures ByScale(s)
  {
    forall i, j | 0 <= i < j < |s|
      ensures s[i].scaleProjected <= s[j].scaleProjected
    {
      assert keys[i] <= keys[j];
    }
  }

  /** Sorted, stable keys that come from `base` through `from` list `base`
      stably in ascending order, each position once. */
  lemma SortedIsStablyOrdered(keys: seq<real>, base: seq<real>, from: seq<nat>)
    requires Tracks(keys, base, from)
    requires SortedBelow(keys, |keys|) && StableBelow(keys, from, |keys|)
    ensures StablyOrdered(base, from)
    ensures forall k, l :: 0 <= k < l < |from| ==> from[k] != from[l]
  {
    forall i, j | 0 <= i < j < |from|
      ensures base[from[i]] <= base[from[j]]
      ensures base[from[i]] == base[from[j]] ==> from[i] < from[j]
    {
      assert keys[i] == base[from[i]] && keys[j] == base[from[j]];
    }
  }

  /** The sort of `render`, by ascending projected scale: an insertion sort,
      stable as the ECMAScript 2019 sort is. `base` lists the scales before the
      sort; `from[k]` is the position glyph k held before the sort. */
  method SortByScale(dots: array<Dot>, ghost base: seq<real>) returns (ghost from: seq<nat>)
    requires KeysOf(base, dots[..])
    modifies dots
    ensures ByScale(dots[..])
    ensures multiset(dots[..]) == old(multiset(dots[..]))
    ensures Tracks(dots[..], old(dots[..]), from)
    ensures forall k, l :: 0 <= k < l < dots.Length ==> from[k] != from[l]
    ensures StablyOrdered(base, from)
    ensures old(Distinct(dots[..])) ==> Distinct(dots[..])
  {
    ghost var orig := dots[..];
    ghost var keys := base;
    from := seq(dots.Length, k => k);
    var i := 0;
    while i < dots.Length
      invariant 0 <= i <= dots.Length
      invariant KeysOf(keys, dots[..]) && Tracks(dots[..], orig, from) && Tracks(keys, base, from)
      invariant SortedBelow(keys, i) && StableBelow(keys, from, i)
      invariant forall k :: 0 <= k < i ==> from[k] < i
      invariant forall k :: i <= k < dots.Length ==> from[k] == k
      invariant multiset(dots[..]) == old(multiset(dots[..]))
    {
      keys, from := InsertNext(dots, i, orig, base, keys, from);
      i := i + 1;
    }
    SortedKeysByScale(dots[..], keys);
    SortedIsStablyOrdered(keys, base, from);
    if Distinct(orig) {
      forall k, l | 0 <= k < l < dots.Length
        ensures dots[k] != dots[l]
      {
        assert from[k] != from[l];
      }
    }
  }

  /** A glyph built from the colour row of an SVG glyph, with one path per
      path of that glyph, hands the canvas an assigned colour for every path:
      no path is filled with `undefined`. */
  lemma EveryPathColoured(svg: Element, d: Dot)
    requires svg.children != [] && ExpectedRow(svg) == Success(d.colors)
    requires d.pathCount == |Paths(svg)|
    ensures forall i :: 0 <= i < |d.Fills()| ==> d.Fills()[i].Some?
  {
    var fills := Glyphs.Fills(Paths(svg));
    forall i | 0 <= i < |d.Fills()|
      ensures d.Fills()[i].Some?
    {
      assert i < |fills|;
      assert d.colors[i] == Some(SlotColor(Seed(svg), fills, i));
    }
  }

  /** Each glyph draws in array order. `places` gives where the glyphs stand
      before they turn. */
  method DrawAll(stage: Stage, dots: array<Dot>, vx: Angle, vy: Angle, vz: Angle, ghost places: seq<Point>)
    returns (frame: seq<DrawCall>)
    requires stage.Valid() && vx.Unit() && vy.Unit() && vz.Unit()
    requires Distinct(dots[..]) && |places| == dots.Length
    requires forall i :: 0 <= i < dots.Length ==> dots[i].Valid() && dots[i].Pos() == places[i]
    modifies dots[..]
    ensures |frame| == dots.Length
    ensures forall i :: 0 <= i < dots.Length ==>
      dots[i].Valid() && dots[i].Synced() && dots[i].Placed(stage) && dots[i].Pos() == Rotated(places[i], vx, vy, vz)
    ensures forall i :: 0 <= i < dots.Length ==> frame[i] == dots[i].CallFor(stage)
  {
    frame := [];
    var i := 0;
    while i < dots.Length
      invariant 0 <= i <= dots.Length && |frame| == i
      invariant forall k :: 0 <= k < i ==>
        dots[k].Valid() && dots[k].Synced() && dots[k].Placed(stage) && dots[k].Pos() == Rotated(places[k], vx, vy, vz)
      invariant forall k :: 0 <= k < i ==> frame[k] == dots[k].CallFor(stage)
      invariant forall k :: i <= k < dots.Length ==> dots[k].Valid() && dots[k].Pos() == places[k]
    {
      var call := dots[i].Draw(stage, vx, vy, vz);
      frame := frame + [call];
      i := i + 1;
    }
  }

  /** Listing the positions `from` in order visits the keys in ascending order,
      and positions with equal keys in their original order. */
  predicate StablyOrdered(keys: seq<real>, from: seq<nat>)
    requires forall k :: 0 <= k < |from| ==> from[k] < |keys|
  {
    (forall i, j :: 0 <= i < j < |from| ==> keys[from[i]] <= keys[from[j]]) &&
    (forall i, j :: 0 <= i < j < |from| && keys[from[i]] == keys[from[j]] ==> from[i] < from[j])
  }

  /** Listing the positions `from` in order visits the depths from the back
      (largest z) to the front. */
  predicate BackToFront(zs: seq<real>, from: seq<nat>)
    requires forall k :: 0 <= k < |from| ==> from[k] < |zs|
  {
    forall i, j :: 0 <= i < j < |from| ==> zs[from[i]] >= zs[from[j]]
  }

  /** Every glyph's scale is the one its depth gives. */
  ghost predicate AllSynced(s: seq<Dot>)
    reads s
  {
    forall k :: 0 <= k < |s| ==> s[k].Synced()
  }

  /** Each key is the scale its depth gives. */
  predicate InStep(keys: seq<real>, zs: seq<real>) {
    |keys| == |zs| && forall k :: 0 <= k < |zs| ==> zs[k] > -3.2 && keys[k] == DepthScale(zs[k])
  }

  /** When every scale is the one its depth gives, ordering by ascending scale
      is ordering from the back to the front. */
  lemma ScaleOrderIsDepthOrder(keys: seq<real>, zs: seq<real>, from: seq<nat>)
    requires InStep(keys, zs) && forall k :: 0 <= k < |from| ==> from[k] < |keys|
    requires StablyOrdered(keys, from)
    ensures BackToFront(zs, from)
  {
    forall i, j | 0 <= i < j < |from|
      ensures zs[from[i]] >= zs[from[j]]
    {
      DepthScaleDecreasing(zs[from[j]], zs[from[i]]);
    }
  }

  /** keys, places and zs list the scales, places and depths of s, glyph by glyph. */
  predicate Entry(s: seq<Dot>, keys: seq<real>, places: seq<Point>, zs: seq<real>)
    reads s
  {
    KeysOf(keys, s) && |places| == |s| && |zs| == |s| &&
    forall k :: 0 <= k < |s| ==> places[k] == s[k].Pos() && zs[k] == s[k].z
  }

  /** Glyphs whose scales are in step with their depths give keys in step with depths. */
  lemma SyncedIsInStep(s: seq<Dot>, keys: seq<real>, places: seq<Point>, zs: seq<real>)
    requires Entry(s, keys, places, zs)
    ensures AllSynced(s) ==> InStep(keys, zs)
  {
  }

  /** The sort step of `render`, stated against the glyphs as they entered
      the frame: their scales, places and depths. */
  method OrderForFrame(dots: array<Dot>)
    returns (ghost from: seq<nat>, ghost keys: seq<real>, ghost places: seq<Point>, ghost zs: seq<real>)
    requires Distinct(dots[..])
    requires forall i :: 0 <= i < dots.Length ==> dots[i].Valid()
    modifies dots
    ensures old(Entry(dots[..], keys, places, zs))
    ensures Tracks(dots[..], old(dots[..]), from) && Distinct(dots[..])
    ensures multiset(dots[..]) == old(multiset(dots[..]))
    ensures StablyOrdered(keys, from)
    ensures old(AllSynced(dots[..])) ==> BackToFront(zs, from)
    ensures forall i :: 0 <= i < dots.Length ==> dots[i].Valid() && dots[i].Pos() == places[from[i]]
  {
    keys, places, zs := Keys(dots[..]), Places(dots[..]), Depths(dots[..]);
    Snapshots(dots[..]);
    SyncedIsInStep(dots[..], keys, places, zs);
    ghost var inStep := InStep(keys, zs);
    from := SortByScale(dots, keys);
    if inStep {
      ScaleOrderIsDepthOrder(keys, zs, from);
    }
  }

  /** `render`: sorts the glyphs by the scales they held before this frame
      (stably), then draws each in that order; every glyph turns by the same
      velocities. Glyph k drawn was glyph `from[k]` of the array before; `keys`,
      `places` and `zs` are the scales, places and depths the glyphs entered
      the frame with. When every glyph entered with its scale in step with its
      depth (every frame after the first), the glyphs are drawn from the back
      to the front by those entry depths; this frame's rotation happens while
      drawing, after the order is fixed. */
  method Render(stage: Stage, dots: array<Dot>, vx: Angle, vy: Angle, vz: Angle)
    returns (frame: seq<DrawCall>, ghost from: seq<nat>,
             ghost keys: seq<real>, ghost places: seq<Point>, ghost zs: seq<real>)
    requires stage.Valid() && vx.Unit() && vy.Unit() && vz.Unit()
    requires Distinct(dots[..])
    requires forall i :: 0 <= i < dots.Length ==> dots[i].Valid()
    modifies dots, dots[..]
    ensures old(Entry(dots[..], keys, places, zs))
    ensures Tracks(dots[..], old(dots[..]), from) && Distinct(dots[..])
    ensures multiset(dots[..]) == old(multiset(dots[..]))
    ensures StablyOrdered(keys, from)
    ensures old(AllSynced(dots[..])) ==> BackToFront(zs, from)
    ensures forall i :: 0 <= i < dots.Length ==>
      dots[i].Valid() && dots[i].Synced() && dots[i].Placed(stage) && dots[i].Pos() == Rotated(places[from[i]], vx, vy, vz)
    ensures |frame| == dots.Length
    ensures forall i :: 0 <= i < dots.Length ==> frame[i] == dots[i].CallFor(stage)
  {
    ghost var before := dots[..];
    from, keys, places, zs := OrderForFrame(dots);
    ghost var sorted := dots[..];
    assert multiset(sorted) == multiset(before);
    ghost var moved := seq(|from|, k requires 0 <= k < |from| => places[from[k]]);
    frame := DrawAll(stage, dots, vx, vy, vz, moved);
    assert dots[..] == sorted;
  }
}
