/** Multiplying the cells of a flat, in place, by a correction that covers their chip. */
module CellCorrection {
  import opened Wrappers

  // ---------------------------------------------------------------- cells on a chip

  /** A row and a column. */
  datatype Place = Place(row: int, col: int)
  type Image = map<Place, real>

  /** Where a cell's pixel (0, 0) is on the chip, and whether its rows and columns run along
      those of the chip (1) or against them (-1). */
  datatype Frame = Frame(x0: int, y0: int, xParity: int, yParity: int)
  datatype Tile = Tile(frame: Frame, pixels: Image)

  function OnChip(f: Frame, p: Place): Place {
    Place(f.y0 + p.row * f.yParity, f.x0 + p.col * f.xParity)
  }

  function OnCell(f: Frame, q: Place): Place {
    Place((q.row - f.y0) * f.yParity, (q.col - f.x0) * f.xParity)
  }

  predicate Oriented(f: Frame) {
    (f.xParity == 1 || f.xParity == -1) && (f.yParity == 1 || f.yParity == -1)
  }

  lemma ThereAndBack(f: Frame, p: Place)
    requires Oriented(f)
    ensures OnCell(f, OnChip(f, p)) == p && OnChip(f, OnCell(f, p)) == p
  {
  }

  predicate Covers(t: Tile, q: Place) {
    OnCell(t.frame, q) in t.pixels
  }

  /** The mosaic: what the cells, laid on the chip one after the other, show at a place. */
  function Shown(tiles: seq<Tile>, q: Place): Option<real> {
    if tiles == [] then None
    else
      var t := tiles[|tiles| - 1];
      if Covers(t, q) then Some(t.pixels[OnCell(t.frame, q)]) else Shown(tiles[..|tiles| - 1], q)
  }

  function Scaled(v: real, corr: Image, q: Place): real {
    if q in corr then v * corr[q] else v
  }

  /** Every pixel of the cell multiplied by the correction at the pixel's place. */
  ghost predicate Corrected(t: Tile, corr: Image, u: Tile) {
    && u.frame == t.frame && u.pixels.Keys == t.pixels.Keys
    && forall p | p in t.pixels :: u.pixels[p] == Scaled(t.pixels[p], corr, OnChip(t.frame, p))
  }

  /** Pixel (i, j) of a corrected cell is the old one times the correction at the place that
      the cell's origin and parities give it. */
  lemma CorrectedPixel(t: Tile, corr: Image, u: Tile, j: int, i: int)
    requires Corrected(t, corr, u) && Place(j, i) in t.pixels
    requires Place(t.frame.y0 + j * t.frame.yParity, t.frame.x0 + i * t.frame.xParity) in corr
    ensures Place(j, i) in u.pixels
    ensures u.pixels[Place(j, i)]
            == t.pixels[Place(j, i)] * corr[Place(t.frame.y0 + j * t.frame.yParity, t.frame.x0 + i * t.frame.xParity)]
  {
    assert OnChip(t.frame, Place(j, i)).row == t.frame.y0 + j * t.frame.yParity;
  }

  ghost predicate AllCorrected(tiles: seq<Tile>, corr: Image, us: seq<Tile>) {
    |us| == |tiles| && forall i | 0 <= i < |tiles| :: Corrected(tiles[i], corr, us[i])
  }

  // ---------------------------------------------------------------- correcting and mosaicking

  /** Correcting each cell and then putting them together shows, everywhere on the chip,
      what putting them together and then correcting would show. */
  lemma {:induction false} CorrectingCommutesWithMosaic(tiles: seq<Tile>, corr: Image, us: seq<Tile>, q: Place)
    requires AllCorrected(tiles, corr, us) && forall t | t in tiles :: Oriented(t.frame)
    ensures Shown(us, q) == match Shown(tiles, q)
                            case None => None
                            case Some(v) => Some(Scaled(v, corr, q))
  {
    if tiles != [] {
      var n := |tiles| - 1;
      assert AllCorrected(tiles[..n], corr, us[..n]);
      CorrectingCommutesWithMosaic(tiles[..n], corr, us[..n], q);
      assert Corrected(tiles[n], corr, us[n]);
      ThereAndBack(tiles[n].frame, q);
    }
  }

  /** The pixel of a tile that lies at a place of the chip. */
  ghost predicate LiesAt(t: Tile, p: Place, q: Place) {
    && p in t.pixels
    && q.row == t.frame.y0 + p.row * t.frame.yParity && q.col == t.frame.x0 + p.col * t.frame.xParity
  }

  lemma CoveredExactly(t: Tile, q: Place)
    requires Oriented(t.frame)
    ensures Covers(t, q) <==> exists p | p in t.pixels :: LiesAt(t, p, q)
    ensures forall p | LiesAt(t, p, q) :: p == OnCell(t.frame, q)
  {
    ThereAndBack(t.frame, q);
    if Covers(t, q) {
      assert LiesAt(t, OnCell(t.frame, q), q);
    }
    forall p | LiesAt(t, p, q)
      ensures p == OnCell(t.frame, q)
    {
      ThereAndBack(t.frame, p);
    }
  }

  /** A place shows the pixel that lies there of the last cell that has one, and nothing if no
      cell has. */
  lemma {:induction false} ShownExactly(tiles: seq<Tile>, q: Place)
    requires forall t | t in tiles :: Oriented(t.frame)
    ensures Shown(tiles, q) == None <==> forall i, p | 0 <= i < |tiles| :: !LiesAt(tiles[i], p, q)
    ensures Shown(tiles, q).Some? ==> exists i, p | 0 <= i < |tiles| ::
              && LiesAt(tiles[i], p, q) && Shown(tiles, q) == Some(tiles[i].pixels[p])
              && forall k, r | i < k < |tiles| :: !LiesAt(tiles[k], r, q)
  {
    if tiles != [] {
      var n := |tiles| - 1;
      CoveredExactly(tiles[n], q);
      ShownExactly(tiles[..n], q);
      if Covers(tiles[n], q) {
        assert LiesAt(tiles[n], OnCell(tiles[n].frame, q), q);
      } else if Shown(tiles[..n], q).Some? {
        var i, p :| 0 <= i < n && LiesAt(tiles[..n][i], p, q) && Shown(tiles[..n], q) == Some(tiles[..n][i].pixels[p])
                    && forall k, r | i < k < n :: !LiesAt(tiles[..n][k], r, q);
        assert LiesAt(tiles[i], p, q);
        forall k, r | i < k < |tiles|
          ensures !LiesAt(tiles[k], r, q)
        {
          assert k < n ==> tiles[..n][k] == tiles[k];
        }
      } else {
        forall i, p | 0 <= i < |tiles|
          ensures !LiesAt(tiles[i], p, q)
        {
          assert i < n ==> tiles[..n][i] == tiles[i];
        }
      }
    }
  }

  ghost predicate Disjoint(tiles: seq<Tile>) {
    forall i, j, q | 0 <= i < j < |tiles| :: !(Covers(tiles[i], q) && Covers(tiles[j], q))
  }

  /** If the cells do not overlap, the mosaic shows every pixel of every cell. */
  lemma {:induction false} MosaicShowsAll(tiles: seq<Tile>, i: nat, p: Place)
    requires Disjoint(tiles) && forall t | t in tiles :: Oriented(t.frame)
    requires i < |tiles| && p in tiles[i].pixels
    ensures Shown(tiles, OnChip(tiles[i].frame, p)) == Some(tiles[i].pixels[p])
  {
    var n, q := |tiles| - 1, OnChip(tiles[i].frame, p);
    ThereAndBack(tiles[i].frame, p);
    assert Covers(tiles[i], q);
    if i < n {
      assert Disjoint(tiles[..n]) by {
        assert forall k | 0 <= k < n :: tiles[..n][k] == tiles[k];
      }
      MosaicShowsAll(tiles[..n], i, p);
    }
  }

  /** Then, too, no place of the correction is used for two pixels. */
  lemma EachPlaceUsedOnce(tiles: seq<Tile>, i: nat, p: Place, j: nat, r: Place)
    requires Disjoint(tiles) && forall t | t in tiles :: Oriented(t.frame)
    requires i < |tiles| && p in tiles[i].pixels && j < |tiles| && r in tiles[j].pixels
    requires OnChip(tiles[i].frame, p) == OnChip(tiles[j].frame, r)
    ensures i == j && p == r
  {
    var q := OnChip(tiles[i].frame, p);
    ThereAndBack(tiles[i].frame, p);
    ThereAndBack(tiles[j].frame, r);
    assert Covers(tiles[i], q) && Covers(tiles[j], q);
  }

  // ---------------------------------------------------------------- in place

  /** A cell with its image; `frame` is absent if the header lacks one of its four values. */
  datatype Cell = Cell(process: bool, frame: Option<Frame>, image: array2<real>)

  predicate InImage(a: array2<real>, p: Place) {
    0 <= p.row < a.Length0 && 0 <= p.col < a.Length1
  }

  ghost function Contents(a: array2<real>): Image
    reads a
  {
    map p: Place | p in Places(a) :: a[p.row, p.col]
  }

  ghost function Places(a: array2<real>): (s: set<Place>)
    ensures forall p :: p in s <==> InImage(a, p)
  {
    set row, col | 0 <= row < a.Length0 && 0 <= col < a.Length1 :: Place(row, col)
  }

  /** Every pixel of the cell has a place in the correction image. */
  ghost predicate Fits(f: Frame, image: array2<real>, corr: array2<real>) {
    forall j, i | 0 <= j < image.Length0 && 0 <= i < image.Length1 :: FitsAt(f, corr, j, i)
  }

  ghost predicate FitsAt(f: Frame, corr: array2<real>, j: int, i: int) {
    0 <= f.y0 + j * f.yParity < corr.Length0 && 0 <= f.x0 + i * f.xParity < corr.Length1
  }

  /** Pixel (i, j) of the cell is multiplied by the correction at (x0 + i xParity,
      y0 + j yParity).  Nothing changes if the frame is incomplete. */
  method CorrectCell(c: Cell, corr: array2<real>) returns (ok: bool)
    requires c.image != corr && (c.frame.Some? ==> Fits(c.frame.value, c.image, corr))
    modifies c.image
    ensures ok == c.frame.Some?
    ensures ok ==> Corrected(Tile(c.frame.value, old(Contents(c.image))), Contents(corr),
                             Tile(c.frame.value, Contents(c.image)))
    ensures !ok ==> Contents(c.image) == old(Contents(c.image))
  {
    if c.frame.None? {
      return false;
    }
    var f, image := c.frame.value, c.image;
    ghost var was, factor := Contents(image), Contents(corr);
    var j := 0;
    while j < image.Length0
      invariant 0 <= j <= image.Length0 && Contents(image).Keys == was.Keys
      invariant forall p | p in was && p.row < j :: Contents(image)[p] == Scaled(was[p], factor, OnChip(f, p))
      invariant forall p | p in was && p.row >= j :: Contents(image)[p] == was[p]
    {
      CorrectRow(f, image, corr, j);
      j := j + 1;
    }
    ok := true;
  }

  /** The inner loop: one row of a cell. */
  method CorrectRow(f: Frame, image: array2<real>, corr: array2<real>, j: nat)
    requires image != corr && j < image.Length0 && Fits(f, image, corr)
    modifies image
    ensures Contents(image).Keys == old(Contents(image)).Keys
    ensures forall p | p in Contents(image) :: Contents(image)[p] ==
              if p.row == j then Scaled(old(Contents(image))[p], Contents(corr), OnChip(f, p))
              else old(Contents(image))[p]
  {
    var jc := f.y0 + j * f.yParity;
    var i := 0;
    while i < image.Length1
      invariant 0 <= i <= image.Length1
      invariant forall p | InImage(image, p) && (p.row != j || p.col >= i) ::
                  image[p.row, p.col] == old(image[p.row, p.col])
      invariant forall c | 0 <= c < i ::
                  image[j, c] == Scaled(old(image[j, c]), Contents(corr), OnChip(f, Place(j, c)))
    {
      var ic := f.x0 + i * f.xParity;
      assert FitsAt(f, corr, j, i) && OnChip(f, Place(j, i)) == Place(jc, ic);
      image[j, i] := image[j, i] * corr[jc, ic];
      i := i + 1;
    }
    forall p | p in Contents(image) && p.row == j
      ensures Contents(image)[p] == Scaled(old(Contents(image))[p], Contents(corr), OnChip(f, p))
    {
      assert p == Place(j, p.col);
    }
  }

  /** What a cell holds once it was corrected, or as it is if it is not to be processed. */
  ghost predicate Done(c: Cell, was: Image, now: Image, corr: Image) {
    if c.process then c.frame.Some? && Corrected(Tile(c.frame.value, was), corr, Tile(c.frame.value, now))
    else now == was
  }

  /** The first `n` cells are done and the others are as they were. */
  ghost predicate DoneUpTo(cells: seq<Cell>, n: nat, was: seq<Image>, now: seq<Image>, corr: Image)
    requires n <= |cells| == |was| == |now|
  {
    && (forall k | 0 <= k < n :: Done(cells[k], was[k], now[k], corr))
    && (forall k | n <= k < |cells| :: now[k] == was[k])
  }

  ghost function AllContents(cells: seq<Cell>): (r: seq<Image>)
    reads set c | c in cells :: c.image
    ensures |r| == |cells| && forall i | 0 <= i < |cells| :: r[i] == Contents(cells[i].image)
  {
    seq(|cells|, i requires 0 <= i < |cells| reads set c | c in cells :: c.image => Contents(cells[i].image))
  }

  /** A cell that was not to be processed is as it was; of any other, each pixel is the old one
      times the correction at its place. */
  lemma DonePixels(c: Cell, was: Image, now: Image, corr: Image, j: int, i: int)
    requires Done(c, was, now, corr)
    ensures !c.process ==> now == was
    ensures c.process ==> c.frame.Some? && now.Keys == was.Keys
    ensures c.process && Place(j, i) in was ==>
              var f := c.frame.value; var q := Place(f.y0 + j * f.yParity, f.x0 + i * f.xParity);
              q in corr ==> now[Place(j, i)] == was[Place(j, i)] * corr[q]
  {
    if c.process && Place(j, i) in was {
      var f := c.frame.value;
      if Place(f.y0 + j * f.yParity, f.x0 + i * f.xParity) in corr {
        CorrectedPixel(Tile(f, was), corr, Tile(f, now), j, i);
      }
    }
  }

  /** The cells of a chip in turn, up to the first with an incomplete frame. */
  method CorrectCells(cells: seq<Cell>, corr: array2<real>) returns (ok: bool)
    requires forall i, j | 0 <= i < j < |cells| :: cells[i].image != cells[j].image
    requires forall c | c in cells :: c.image != corr && (c.frame.Some? ==> Fits(c.frame.value, c.image, corr))
    modifies set c | c in cells :: c.image
    ensures ok <==> forall c | c in cells :: c.process ==> c.frame.Some?
    ensures ok ==> DoneUpTo(cells, |cells|, old(AllContents(cells)), AllContents(cells), Contents(corr))
    ensures !ok ==> StoppedEarly(cells, old(AllContents(cells)), AllContents(cells), Contents(corr))
    ensures Contents(corr) == old(Contents(corr))
  {
    ghost var was, factor := AllContents(cells), Contents(corr);
    ghost var now := was;
    var i := 0;
    while i < |cells|
      invariant 0 <= i <= |cells| == |now|
      invariant forall k | 0 <= k < i :: cells[k].process ==> cells[k].frame.Some?
      invariant forall k | 0 <= k < |cells| :: now[k] == Contents(cells[k].image)
      invariant DoneUpTo(cells, i, was, now, factor) && Contents(corr) == factor
    {
      var c := cells[i];
      if c.process {
        assert forall k | 0 <= k < |cells| && k != i :: cells[k].image != c.image;
        ok := CorrectCell(c, corr);
        if !ok {
          ContentsAre(cells, now);
          return;
        }
        OneMoreDone(cells, i, was, now, Contents(c.image), factor);
        now := now[i := Contents(c.image)];
      }
      i := i + 1;
    }
    ContentsAre(cells, now);
    ok := true;
  }

  lemma ContentsAre(cells: seq<Cell>, now: seq<Image>)
    requires |now| == |cells| && forall k | 0 <= k < |cells| :: now[k] == Contents(cells[k].image)
    ensures AllContents(cells) == now
  {
  }

  lemma OneMoreDone(cells: seq<Cell>, n: nat, was: seq<Image>, now: seq<Image>, next: Image, corr: Image)
    requires n < |cells| == |was| == |now| && DoneUpTo(cells, n, was, now, corr)
    requires Done(cells[n], was[n], next, corr)
    ensures DoneUpTo(cells, n + 1, was, now[n := next], corr)
  {
  }

  ghost predicate StoppedEarly(cells: seq<Cell>, was: seq<Image>, now: seq<Image>, corr: Image)
    requires |cells| == |was| == |now|
  {
    exists n | 0 <= n < |cells| :: cells[n].process && cells[n].frame.None? && DoneUpTo(cells, n, was, now, corr)
  }

  /** Once all cells of a chip are corrected, their mosaic is the corrected mosaic. */
  lemma CorrectedChip(cells: seq<Cell>, was: seq<Image>, now: seq<Image>, corr: Image, q: Place)
    requires |cells| == |was| == |now| && DoneUpTo(cells, |cells|, was, now, corr)
    requires forall c | c in cells :: c.process && c.frame.Some? && Oriented(c.frame.value)
    ensures Shown(Tiles(cells, now), q) == match Shown(Tiles(cells, was), q)
                                           case None => None
                                           case Some(v) => Some(Scaled(v, corr, q))
  {
    forall i | 0 <= i < |cells|
      ensures Corrected(Tiles(cells, was)[i], corr, Tiles(cells, now)[i])
    {
      assert Done(cells[i], was[i], now[i], corr);
    }
    CorrectingCommutesWithMosaic(Tiles(cells, was), corr, Tiles(cells, now), q);
  }

  function Tiles(cells: seq<Cell>, images: seq<Image>): (r: seq<Tile>)
    requires |cells| == |images| && forall c | c in cells :: c.frame.Some?
    ensures |r| == |cells| && forall i | 0 <= i < |cells| :: r[i] == Tile(cells[i].frame.value, images[i])
  {
    seq(|cells|, i requires 0 <= i < |cells| => Tile(cells[i].frame.value, images[i]))
  }
}
