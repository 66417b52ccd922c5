/**
 * The colour table built when the script starts (js/scriptanimationlogo.js:8-29).
 * Each child of the SVG container is one glyph; the script walks its paths and
 * fills one colour slot per path. Path outlines themselves are not modelled.
 */
module Glyphs {
  import opened Wrappers

  /** An SVG element reduced to what the colouring reads: its tag name, its
      `fill` attribute (None when `getAttribute` returns null) and its children. */
  datatype Element = Element(tag: string, fill: Option<string>, children: seq<Element>)

  /** What the script does when a glyph has no child: reading `tagName` of
      `undefined` throws and the script stops. */
  datatype Fault = NoFirstChild

  /** The fallback colour of a path without its own fill. */
  const WHITE: string := "#FFF"

  /** JavaScript truthiness of a colour slot: an unset slot, null and "" are falsy. */
  predicate Truthy(slot: Option<string>) {
    slot.Some? && slot.value != ""
  }

  /** The colour an unfilled path takes: slot 0 when truthy, otherwise white. */
  function Inherit(slot0: Option<string>): string {
    if Truthy(slot0) then slot0.value else WHITE
  }

  /** Whether the glyph's first child is a group whose children are the paths. */
  predicate IsGroup(svg: Element)
    requires svg.children != []
  {
    svg.children[0].tag == "g"
  }

  /** The elements whose colours are recorded: the group's children, or the glyph's own. */
  function Paths(svg: Element): seq<Element>
    requires svg.children != []
  {
    if IsGroup(svg) then svg.children[0].children else svg.children
  }

  /** What slot 0 holds before the per-path loop: the group's fill, or nothing. */
  function Seed(svg: Element): Option<string>
    requires svg.children != []
  {
    if IsGroup(svg) then svg.children[0].fill else None
  }

  /** The `fill` attributes of a list of paths, in order. */
  function Fills(paths: seq<Element>): seq<Option<string>>
  {
    seq(|paths|, j requires 0 <= j < |paths| => paths[j].fill)
  }

  /** The colour of path j once the loop has passed it. Slot 0 is written first,
      so every later unfilled path reads slot 0 as path 0 left it. */
  function SlotColor(seed: Option<string>, fills: seq<Option<string>>, j: nat): string
    requires j < |fills|
  {
    match fills[j]
    case Some(c) => c
    case None => if j == 0 then Inherit(seed) else Inherit(Some(SlotColor(seed, fills, 0)))
  }

  /** The row `COLORS[i]` the script builds for one glyph, or the fault it throws. */
  function ExpectedRow(svg: Element): Result<seq<Option<string>>, Fault> {
    if svg.children == [] then Failure(NoFirstChild)
    else
      var fills := Fills(Paths(svg));
      if IsGroup(svg) && fills == [] then Success([Seed(svg)])
      else Success(seq(|fills|, j requires 0 <= j < |fills| => Some(SlotColor(Seed(svg), fills, j))))
  }

  /** One glyph's colour row, filled slot by slot as the `map` callback does. */
  method GlyphColors(svg: Element) returns (r: Result<seq<Option<string>>, Fault>)
    ensures r == ExpectedRow(svg)
    ensures r.Success? <==> svg.children != []
    ensures r.Success? && Paths(svg) != [] ==>
      |r.value| == |Paths(svg)| && forall j :: 0 <= j < |r.value| ==> r.value[j].Some?
  {
    if svg.children == [] {
      return Failure(NoFirstChild);
    }
    var paths := svg.children;
    var row: array<Option<string>>;
    if svg.children[0].tag == "g" {
      paths := svg.children[0].children;
      if |paths| == 0 {
        // Writing slot 0 of an empty JavaScript array extends it to length one.
        return Success([svg.children[0].fill]);
      }
      row := new Option<string>[|paths|](_ => None);
      row[0] := svg.children[0].fill;
    } else {
      row := new Option<string>[|paths|](_ => None);
    }
    ghost var seed := Seed(svg);
    ghost var fills := Fills(paths);
    var j := 0;
    while j < |paths|
      invariant 0 <= j <= |paths| == row.Length == |fills|
      invariant j == 0 && row.Length > 0 ==> row[0] == seed
      invariant forall k :: 0 <= k < j ==> row[k] == Some(SlotColor(seed, fills, k))
    {
      var c := paths[j].fill;
      if c.Some? {
        row[j] := c;
      } else {
        row[j] := Some(Inherit(row[0]));
      }
      j := j + 1;
    }
    assert paths == Paths(svg);
    assert row[..] == seq(|fills|, k requires 0 <= k < |fills| => Some(SlotColor(seed, fills, k)));
    return Success(row[..]);
  }

  /** The whole table `COLORS`, one row per glyph; the first glyph without a
      child throws and nothing after it runs. */
  method BuildColors(svgs: seq<Element>) returns (r: Result<seq<seq<Option<string>>>, Fault>)
    ensures r.Success? <==> forall i :: 0 <= i < |svgs| ==> svgs[i].children != []
    ensures r.Success? ==>
      |r.value| == |svgs| &&
      forall i :: 0 <= i < |svgs| ==> ExpectedRow(svgs[i]) == Success(r.value[i])
  {
    var rows: seq<seq<Option<string>>> := [];
    var i := 0;
    while i < |svgs|
      invariant 0 <= i <= |svgs| && |rows| == i
      invariant forall k :: 0 <= k < i ==> ExpectedRow(svgs[k]) == Success(rows[k])
    {
      var row := GlyphColors(svgs[i]);
      if row.Failure? {
        return Failure(row.error);
      }
      rows := rows + [row.value];
      i := i + 1;
    }
    return Success(rows);
  }

  /** A path's own fill always wins, whatever slot 0 holds. */
  lemma OwnFillWins(seed: Option<string>, fills: seq<Option<string>>, j: nat, c: string)
    requires j < |fills| && fills[j] == Some(c)
    ensures SlotColor(seed, fills, j) == c
  {
  }

  /** With no fill on path 0, every unfilled path takes the group's fill when it
      is truthy and white otherwise. */
  lemma GroupFillInherited(seed: Option<string>, fills: seq<Option<string>>, j: nat)
    requires j < |fills| && fills[0] == None && fills[j] == None
    ensures SlotColor(seed, fills, j) == if Truthy(seed) then seed.value else WHITE
  {
  }

  /** A fill on path 0 overwrites slot 0: every later unfilled path takes path 0's
      colour (white when it is ""), and the group's fill is never seen. */
  lemma FirstPathShadowsGroup(seed: Option<string>, other: Option<string>, fills: seq<Option<string>>, j: nat, c: string)
    requires 0 < j < |fills| && fills[0] == Some(c) && fills[j] == None
    ensures SlotColor(seed, fills, j) == SlotColor(other, fills, j)
    ensures SlotColor(seed, fills, j) == if c != "" then c else WHITE
  {
  }
}
