/**
 The clip window of unit-step CELs: InitLineMap works out, for each of the eight
 orientations, which source rows and columns can land on the screen, and the
 literal-CEL loop visits just those.

 Coordinates are 16.16 numbers; shifting right by 16 is flooring. The source's
 32-bit coordinates agree with these integers as long as none overflows.
 */
module CelClip {
  import opened Words

  const ONE: int := 0x1_0000

  // Position, steps and size of a CEL, and the screen's last column and row.
  datatype Cel = Cel(
    x: int, y: int,
    hdx: int, hdy: int,
    vdx: int, vdy: int,
    width: nat, height: nat,
    clipX: nat, clipY: nat)

  predicate Unit(d: int) { d == ONE || d == -ONE }

  // What TestInitVisual checks before it picks the line map.
  predicate LineMappable(c: Cel)
  {
    && c.x % ONE == 0 && c.y % ONE == 0
    && UnitSteps(c)
  }

  // The origin after the half-pixel shift of mirrored CELs.
  function Shifted(c: Cel): Cel
  {
    c.(x := if c.hdx < 0 || c.vdx < 0 then c.x - 0x8000 else c.x,
    y := if c.hdy < 0 || c.vdy < 0 then c.y - 0x8000 else c.y)
  }

  // Where source pixel (row i, column j) goes.
  function DestX(c: Cel, i: int, j: int): int { Floor16(c.x + j * c.hdx + i * c.vdx) }

  function DestY(c: Cel, i: int, j: int): int { Floor16(c.y + j * c.hdy + i * c.vdy) }

  predicate OnScreen(c: Cel, i: int, j: int)
  {
    0 <= DestX(c, i, j) <= c.clipX && 0 <= DestY(c, i, j) <= c.clipY
  }

  predicate InCel(c: Cel, i: int, j: int) { 0 <= i < c.height && 0 <= j < c.width }

  // Rows and columns the drawing loops walk.
  datatype Window = Window(rowStart: int, rowEnd: int, colStart: int, colEnd: int)

  predicate Visits(c: Cel, w: Window, i: int, j: int)
  {
    w.rowStart <= i < w.rowEnd && w.colStart <= j < Min(c.width, w.colEnd)
  }

  // k unit steps in direction d, in pixels.
  function Steps(k: int, d: int): int { if d > 0 then k else if d < 0 then -k else 0 }

  predicate UnitSteps(c: Cel)
  {
    || (Unit(c.hdx) && c.hdy == 0 && c.vdx == 0 && Unit(c.vdy))
    || (c.hdx == 0 && Unit(c.hdy) && Unit(c.vdx) && c.vdy == 0)
  }

  // Destinations advance by whole pixels from the origin's.
  lemma DestAdvances(c: Cel, i: int, j: int)
    requires UnitSteps(c)
    ensures DestX(c, i, j) == Floor16(c.x) + Steps(j, c.hdx) + Steps(i, c.vdx)
    ensures DestY(c, i, j) == Floor16(c.y) + Steps(j, c.hdy) + Steps(i, c.vdy)
  {
    UnitStep(c.hdx, j);
    UnitStep(c.hdy, j);
    UnitStep(c.vdx, i);
    UnitStep(c.vdy, i);
  }

  lemma UnitStep(d: int, k: int)
    requires d == 0 || Unit(d)
    ensures k * d == Steps(k, d) * ONE
  {
  }

  // How far along, in pixels, step k of a direction lies: a mirrored one starts with the pixel before the origin.
  function Along(d: int, k: int): int { if d > 0 then k else -1 - k }

  // Where the shifted CEL's pixels go, in whole pixels from the origin given, for all eight orientations.
  lemma PixelPlaces(c: Cel, i: int, j: int)
    requires LineMappable(c)
    ensures DestX(Shifted(c), i, j) == c.x / ONE + if c.hdx != 0 then Along(c.hdx, j) else Along(c.vdx, i)
    ensures DestY(Shifted(c), i, j) == c.y / ONE + if c.vdy != 0 then Along(c.vdy, i) else Along(c.hdy, j)
  {
    hide DestX, DestY;
    DestAdvances(Shifted(c), i, j);
    HalfPixelBack(c.x);
    HalfPixelBack(c.y);
  }

  lemma HalfPixelBack(x: int)
    requires x % ONE == 0
    ensures Floor16(x) == x / ONE && Floor16(x - 0x8000) == x / ONE - 1
  {
  }

  // Both CELs put every pixel of one where the other has its pixel of row row(i) and column column(j).
  ghost predicate SamePlaces(a: Cel, b: Cel, row: int -> int, column: int -> int)
  {
    forall i, j ::
      DestX(Shifted(a), i, j) == DestX(Shifted(b), row(i), column(j)) &&
      DestY(Shifted(a), i, j) == DestY(Shifted(b), row(i), column(j))
  }

  // A CEL with one step reversed, set off by its size along that step, covers its mirror image, whichever of the
  // four steps that is and whatever the other one.
  lemma MirrorCovers(c: Cel)
    requires LineMappable(c)
    ensures c.hdx == ONE ==>
              SamePlaces(c.(hdx := -ONE, x := c.x + c.width * ONE), c, i => i, j => c.width - 1 - j)
    ensures c.hdy == ONE ==>
              SamePlaces(c.(hdy := -ONE, y := c.y + c.width * ONE), c, i => i, j => c.width - 1 - j)
    ensures c.vdx == ONE ==>
              SamePlaces(c.(vdx := -ONE, x := c.x + c.height * ONE), c, i => c.height - 1 - i, j => j)
    ensures c.vdy == ONE ==>
              SamePlaces(c.(vdy := -ONE, y := c.y + c.height * ONE), c, i => c.height - 1 - i, j => j)
  {
    hide DestX, DestY, Shifted;
    WholeOn(c.x, c.width);
    WholeOn(c.x, c.height);
    WholeOn(c.y, c.width);
    WholeOn(c.y, c.height);
    forall a: Cel, i, j | LineMappable(a)
      ensures DestX(Shifted(a), i, j) == a.x / ONE + if a.hdx != 0 then Along(a.hdx, j) else Along(a.vdx, i)
      ensures DestY(Shifted(a), i, j) == a.y / ONE + if a.vdy != 0 then Along(a.vdy, i) else Along(a.hdy, j)
    {
      PixelPlaces(a, i, j);
    }
  }

  lemma WholeOn(x: int, n: nat)
    requires x % ONE == 0
    ensures (x + n * ONE) % ONE == 0 && (x + n * ONE) / ONE == x / ONE + n
  {
  }

  // The eight orientations, in whole pixels: what InitLineMap has to get right.
  ghost predicate ExactWindow(c: Cel, w: Window)
  {
    forall i, j :: Visits(c, w, i, j) <==> InCel(c, i, j) && OnScreen(c, i, j)
  }

  ghost predicate NothingVisible(c: Cel)
  {
    forall i, j :: InCel(c, i, j) ==> !OnScreen(c, i, j)
  }

  class LineMapper {
    var c: Cel
    var w: Window

    // InitLineMap. Returns true only when nothing is visible; otherwise the window is exact.
    method InitLineMap() returns (hidden: bool)
      requires LineMappable(c)
      modifies this
      ensures c == Shifted(old(c)) && UnitSteps(c)
      ensures hidden ==> NothingVisible(c)
      ensures !hidden ==> ExactWindow(c, w) && 0 <= w.rowStart && 0 <= w.colStart < w.colEnd
    {
      hide Floor16;
      if c.hdx < 0 || c.vdx < 0 {
        c := c.(x := c.x - 0x8000);
      }
      if c.hdy < 0 || c.vdy < 0 {
        c := c.(y := c.y - 0x8000);
      }
      var rowEnd := RowLimit();
      var colEnd := ColumnLimit();
      var off, rowStart, colStart := Starts();
      w := Window(rowStart, rowEnd, colStart, colEnd);
      hidden := off || colEnd <= 0;
      LimitsAreExact(c, w);
    }

    // TEXTURE_HI_LIM
    method RowLimit() returns (rowEnd: int)
      requires UnitSteps(c)
      ensures rowEnd == RowsEnd(c)
    {
      rowEnd := c.height;
      if c.vdx < 0 {
        if Floor16(c.x - (c.height - 1) * ONE) < 0 {
          rowEnd := Floor16(c.x) + 1;
        }
        if rowEnd > c.height {
          rowEnd := c.height;
        }
      } else if c.vdx > 0 {
        if Floor16(c.x + c.height * ONE) > c.clipX {
          rowEnd := c.clipX - Floor16(c.x) + 1;
        }
      }
      if c.vdy < 0 {
        if Floor16(c.y - (c.height - 1) * ONE) < 0 {
          rowEnd := Floor16(c.y) + 1;
        }
        if rowEnd > c.height {
          rowEnd := c.height;
        }
      } else if c.vdy > 0 {
        if Floor16(c.y + c.height * ONE) > c.clipY {
          rowEnd := c.clipY - Floor16(c.y) + 1;
        }
      }
    }

    // TEXTURE_WI_LIM
    method ColumnLimit() returns (colEnd: int)
      requires UnitSteps(c)
      ensures colEnd == ColumnsEnd(c)
    {
      colEnd := w.colEnd;
      if c.hdx < 0 {
        colEnd := Floor16(c.x) + 1;
      } else if c.hdx > 0 {
        colEnd := c.clipX - Floor16(c.x) + 1;
      }
      if c.hdy < 0 {
        colEnd := Floor16(c.y) + 1;
      } else if c.hdy > 0 {
        colEnd := c.clipY - Floor16(c.y) + 1;
      }
    }

    // TEXTURE_HI_START and TEXTURE_WI_START, or off when the CEL starts past the screen and
    // walks away from it.
    method Starts() returns (off: bool, rowStart: int, colStart: int)
      requires UnitSteps(c)
      ensures off <==> WalksAway(c)
      ensures !off ==> colStart == ColumnsBefore(c) && rowStart == RowsBefore(c)
    {
      off, rowStart, colStart := false, 0, 0;
      if c.x < 0 {
        if c.hdx < 0 {
          return true, rowStart, colStart;
        } else if c.hdx > 0 {
          colStart := -Floor16(c.x);
        }
        if c.vdx < 0 {
          return true, rowStart, colStart;
        } else if c.vdx > 0 {
          rowStart := -Floor16(c.x);
        }
      } else if Floor16(c.x) > c.clipX {
        if c.hdx > 0 {
          return true, rowStart, colStart;
        } else if c.hdx < 0 {
          colStart := Floor16(c.x) - c.clipX;
        }
        if c.vdx > 0 {
          return true, rowStart, colStart;
        } else if c.vdx < 0 {
          rowStart := Floor16(c.x) - c.clipX;
        }
      }
      if c.y < 0 {
        if c.hdy < 0 {
          return true, rowStart, colStart;
        } else if c.hdy > 0 {
          colStart := -Floor16(c.y);
        }
        if c.vdy < 0 {
          return true, rowStart, colStart;
        } else if c.vdy > 0 {
          rowStart := -Floor16(c.y);
        }
      } else if Floor16(c.y) > c.clipY {
        if c.hdy > 0 {
          return true, rowStart, colStart;
        } else if c.hdy < 0 {
          colStart := Floor16(c.y) - c.clipY;
        }
        if c.vdy > 0 {
          return true, rowStart, colStart;
        } else if c.vdy < 0 {
          rowStart := Floor16(c.y) - c.clipY;
        }
      }
    }

    // The LINE branch of the literal-CEL loops: every visible pixel once, row by row, at its own
    // destination. Each visit records (row, column, x, y).
    method VisitPixels() returns (visits: seq<(int, int, int, int)>)
      requires UnitSteps(c) && ExactWindow(c, w) && 0 <= w.rowStart && 0 <= w.colStart
      ensures forall k :: 0 <= k < |visits| ==>
                            var (i, j, x, y) := visits[k];
                            InCel(c, i, j) && OnScreen(c, i, j) && x == DestX(c, i, j) && y == DestY(c, i, j)
      ensures forall i, j :: InCel(c, i, j) && OnScreen(c, i, j) ==> (i, j, DestX(c, i, j), DestY(c, i, j)) in visits
      ensures forall k, l :: 0 <= k < l < |visits| ==> Before(visits[k], visits[l])
    {
      visits := [];
      var last := Min(c.width, w.colEnd);
      var xvert, yvert := c.x + w.rowStart * c.vdx, c.y + w.rowStart * c.vdy;
      var i := w.rowStart;
      while i < w.rowEnd
        invariant w.rowStart <= i
        invariant xvert == c.x + i * c.vdx && yvert == c.y + i * c.vdy
        invariant RowsDone(c, w, visits, i, w.colStart)
      {
        var xcur, ycur := xvert + w.colStart * c.hdx, yvert + w.colStart * c.hdy;
        xvert, yvert := xvert + c.vdx, yvert + c.vdy;
        var j := w.colStart;
        while j < last
          invariant w.colStart <= j
          invariant xcur == c.x + i * c.vdx + j * c.hdx && ycur == c.y + i * c.vdy + j * c.hdy
          invariant RowsDone(c, w, visits, i, j)
        {
          ghost var before := visits;
          visits := visits + [(i, j, Floor16(xcur), Floor16(ycur))];
          VisitOne(c, w, before, i, j);
          NextStep(j, c.hdx);
          NextStep(j, c.hdy);
          xcur, ycur := xcur + c.hdx, ycur + c.hdy;
          j := j + 1;
        }
        RowOver(c, w, visits, i, j);
        NextStep(i, c.vdx);
        NextStep(i, c.vdy);
        i := i + 1;
      }
      AllOver(c, w, visits, i);
    }
  }

  lemma NextStep(k: int, d: int)
    ensures (k + 1) * d == k * d + d
  {
  }

  // Starting at o and moving along d leads away from [0, clip].
  predicate Away(o: int, clip: int, d: int) { (o < 0 && d < 0) || (o > clip && d > 0) }

  // How many steps along d from o come before the screen.
  function Outside(o: int, clip: int, d: int): int
  {
    if o < 0 && d > 0 then -o else if o > clip && d < 0 then o - clip else 0
  }

  // The first step count along d that is past the screen.
  function Limit(o: int, clip: int, d: int): int { if d < 0 then o + 1 else clip - o + 1 }

  predicate WalksAway(c: Cel)
  {
    || Away(Floor16(c.x), c.clipX, c.hdx) || Away(Floor16(c.x), c.clipX, c.vdx)
    || Away(Floor16(c.y), c.clipY, c.hdy) || Away(Floor16(c.y), c.clipY, c.vdy)
  }

  function ColumnsBefore(c: Cel): int
  {
    if c.hdx != 0 then Outside(Floor16(c.x), c.clipX, c.hdx) else Outside(Floor16(c.y), c.clipY, c.hdy)
  }

  function RowsBefore(c: Cel): int
  {
    if c.vdx != 0 then Outside(Floor16(c.x), c.clipX, c.vdx) else Outside(Floor16(c.y), c.clipY, c.vdy)
  }

  function ColumnsEnd(c: Cel): int
  {
    if c.hdx != 0 then Limit(Floor16(c.x), c.clipX, c.hdx) else Limit(Floor16(c.y), c.clipY, c.hdy)
  }

  function RowsEnd(c: Cel): int
  {
    Min(c.height, if c.vdx != 0 then Limit(Floor16(c.x), c.clipX, c.vdx) else Limit(Floor16(c.y), c.clipY, c.vdy))
  }

  // One axis: the steps that land on the screen are exactly those between the two limits.
  lemma AxisExact(o: int, clip: nat, d: int, k: int)
    requires Unit(d) && k >= 0
    ensures 0 <= o + Steps(k, d) <= clip <==> !Away(o, clip, d) && Outside(o, clip, d) <= k < Limit(o, clip, d)
    ensures !Away(o, clip, d) ==> 0 <= Outside(o, clip, d) < Limit(o, clip, d)
    ensures Limit(o, clip, d) <= 0 ==> Away(o, clip, d)
  {
  }

  lemma LimitsAreExact(c: Cel, w: Window)
    requires UnitSteps(c)
    requires w.rowEnd == RowsEnd(c)
    requires w.colEnd == ColumnsEnd(c)
    requires !WalksAway(c) ==> w.colStart == ColumnsBefore(c) && w.rowStart == RowsBefore(c)
    ensures WalksAway(c) || w.colEnd <= 0 ==> NothingVisible(c)
    ensures !(WalksAway(c) || w.colEnd <= 0) ==> ExactWindow(c, w) && 0 <= w.rowStart && 0 <= w.colStart < w.colEnd
  {
    hide DestX, DestY, Floor16, Away, Outside, Limit;
    forall i, j
      ensures InCel(c, i, j) && OnScreen(c, i, j) ==> !WalksAway(c) && Visits(c, w, i, j)
      ensures !WalksAway(c) && Visits(c, w, i, j) && i >= 0 && j >= 0 ==> InCel(c, i, j) && OnScreen(c, i, j)
    {
      PixelExact(c, w, i, j);
    }
    AxisAtZero(c);
  }

  lemma AxisAtZero(c: Cel)
    requires UnitSteps(c)
    ensures !WalksAway(c) ==> 0 <= RowsBefore(c) && 0 <= ColumnsBefore(c)
    ensures !WalksAway(c) ==> ColumnsBefore(c) < ColumnsEnd(c)
    ensures ColumnsEnd(c) <= 0 ==> WalksAway(c)
  {
    hide Floor16;
  }

  lemma PixelExact(c: Cel, w: Window, i: int, j: int)
    requires UnitSteps(c)
    requires w.rowEnd == RowsEnd(c)
    requires w.colEnd == ColumnsEnd(c)
    requires !WalksAway(c) ==> w.colStart == ColumnsBefore(c) && w.rowStart == RowsBefore(c)
    ensures InCel(c, i, j) && OnScreen(c, i, j) ==> !WalksAway(c) && Visits(c, w, i, j)
    ensures !WalksAway(c) && Visits(c, w, i, j) && i >= 0 && j >= 0 ==> InCel(c, i, j) && OnScreen(c, i, j)
  {
    hide DestX, DestY, Floor16, Outside, Limit;
    DestAdvances(c, i, j);
    var x, y := Floor16(c.x), Floor16(c.y);
    if i >= 0 && j >= 0 {
      if c.hdx != 0 {
        AxisExact(x, c.clipX, c.hdx, j);
        AxisExact(y, c.clipY, c.vdy, i);
      } else {
        AxisExact(y, c.clipY, c.hdy, j);
        AxisExact(x, c.clipX, c.vdx, i);
      }
    }
  }

  predicate Before(p: (int, int, int, int), q: (int, int, int, int))
  {
    p.0 < q.0 || (p.0 == q.0 && p.1 < q.1)
  }

  function Visit(c: Cel, i: int, j: int): (int, int, int, int) { (i, j, DestX(c, i, j), DestY(c, i, j)) }

  // Everything before (i, j) in the window has been visited, in order, and nothing else.
  ghost predicate RowsDone(c: Cel, w: Window, visits: seq<(int, int, int, int)>, i: int, j: int)
  {
    && (forall k :: 0 <= k < |visits| ==>
                      && Visits(c, w, visits[k].0, visits[k].1)
                      && visits[k] == Visit(c, visits[k].0, visits[k].1)
                      && (visits[k].0 < i || (visits[k].0 == i && visits[k].1 < j)))
    && (forall a, b :: Visits(c, w, a, b) && (a < i || (a == i && b < j)) ==> Visit(c, a, b) in visits)
    && (forall k, l :: 0 <= k < l < |visits| ==> Before(visits[k], visits[l]))
  }

  lemma VisitOne(c: Cel, w: Window, visits: seq<(int, int, int, int)>, i: int, j: int)
    requires RowsDone(c, w, visits, i, j) && Visits(c, w, i, j)
    ensures RowsDone(c, w, visits + [Visit(c, i, j)], i, j + 1)
  {
    hide DestX, DestY;
    var after := visits + [Visit(c, i, j)];
    assert after[|visits|] == Visit(c, i, j);
    forall a, b | Visits(c, w, a, b) && (a < i || (a == i && b < j + 1))
      ensures Visit(c, a, b) in after
    {
      if !(a == i && b == j) {
        assert Visit(c, a, b) in visits;
      }
    }
  }

  lemma RowOver(c: Cel, w: Window, visits: seq<(int, int, int, int)>, i: int, j: int)
    requires RowsDone(c, w, visits, i, j) && j >= Min(c.width, w.colEnd)
    ensures RowsDone(c, w, visits, i + 1, w.colStart)
  {
    hide DestX, DestY;
  }

  lemma AllOver(c: Cel, w: Window, visits: seq<(int, int, int, int)>, i: int)
    requires ExactWindow(c, w) && RowsDone(c, w, visits, i, w.colStart) && i >= w.rowEnd
    ensures forall k :: 0 <= k < |visits| ==>
                          InCel(c, visits[k].0, visits[k].1) && OnScreen(c, visits[k].0, visits[k].1)
    ensures forall a, b :: InCel(c, a, b) && OnScreen(c, a, b) ==> Visit(c, a, b) in visits
  {
    hide DestX, DestY;
    forall k | 0 <= k < |visits|
      ensures InCel(c, visits[k].0, visits[k].1) && OnScreen(c, visits[k].0, visits[k].1)
    {
      assert Visits(c, w, visits[k].0, visits[k].1);
    }
    forall a, b | InCel(c, a, b) && OnScreen(c, a, b)
      ensures Visit(c, a, b) in visits
    {
      assert Visits(c, w, a, b);
    }
  }
}
