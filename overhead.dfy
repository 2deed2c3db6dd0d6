/**
 * The overhead (2D) view of the maze: `draw_cell` and the cell loop of
 * `render_maze` (src/main.rs:28-61). Every non-blank cell (row r, column c)
 * becomes a red `block_size` square whose top-left pixel is (c*bs, r*bs).
 */
module Overhead {
  import opened Screen

  /** The maze: rows of cells, `' '` for an open cell, any other character a
      wall. */
  type Maze = seq<seq<char>>

  /** Pixel (x, y) lies in the `bs` x `bs` square with top-left pixel (xo, yo). */
  predicate InBlock(x: nat, y: nat, xo: nat, yo: nat, bs: nat)
  {
    xo <= x < xo + bs && yo <= y < yo + bs
  }

  /** The reference view of the picture: pixel (x, y) is in a wall exactly
      when the cell it falls into, (y / bs, x / bs), exists and is not blank. */
  predicate WallAt(maze: Maze, bs: nat, x: nat, y: nat)
  {
    bs > 0 && y / bs < |maze| && x / bs < |maze[y / bs]| && maze[y / bs][x / bs] != ' '
  }

  /** Some cell of the maze is a wall. */
  predicate HasWall(maze: Maze)
  {
    exists r, c :: 0 <= r < |maze| && 0 <= c < |maze[r]| && maze[r][c] != ' '
  }

  /** Every wall cell's square fits on a `width` x `height` screen. */
  predicate FitsOnScreen(maze: Maze, bs: nat, width: nat, height: nat)
  {
    forall r, c :: 0 <= r < |maze| && 0 <= c < |maze[r]| && maze[r][c] != ' ' ==>
      (c + 1) * bs <= width && (r + 1) * bs <= height
  }

  /** Along one axis: v lies in the k-th block of size bs exactly when v / bs == k. */
  lemma DivBlock(v: nat, k: nat, bs: nat)
    requires bs > 0
    ensures (k * bs <= v < k * bs + bs) <==> v / bs == k
  {
    var q := v / bs;
    assert q * bs <= v < q * bs + bs;
    if q < k {
      assert (q + 1) * bs <= k * bs;
    } else if q > k {
      assert (k + 1) * bs <= q * bs;
    }
  }

  /** The square `render_maze` draws for cell (r, c) holds exactly the pixels
      that fall into that cell, so squares of different cells never overlap. */
  lemma CellSquare(x: nat, y: nat, r: nat, c: nat, bs: nat)
    requires bs > 0
    ensures InBlock(x, y, c * bs, r * bs, bs) <==> (y / bs == r && x / bs == c)
  {
    DivBlock(x, c, bs);
    DivBlock(y, r, bs);
  }

  /** `draw_cell`: nothing for a blank cell; otherwise selects RED and paints
      the `bs` x `bs` square at (xo, yo), and nothing else. */
  method DrawCell(fb: Framebuffer, xo: nat, yo: nat, bs: nat, cell: char)
    requires fb.Valid()
    requires cell != ' ' ==> xo + bs <= fb.width && yo + bs <= fb.height
    modifies fb, fb.pixels
    ensures forall x, y :: 0 <= x < fb.width && 0 <= y < fb.height ==>
              fb.pixels[x, y] == if cell != ' ' && InBlock(x, y, xo, yo, bs) then RED else old(fb.pixels[x, y])
    ensures fb.currentColor == if cell == ' ' then old(fb.currentColor) else RED
  {
    if cell == ' ' {
      return;
    }
    fb.SetCurrentColor(RED);
    var x := xo;
    while x < xo + bs
      invariant xo <= x <= xo + bs
      invariant fb.currentColor == RED
      invariant forall i, j :: 0 <= i < fb.width && 0 <= j < fb.height ==>
                  fb.pixels[i, j] == if xo <= i < x && yo <= j < yo + bs then RED else old(fb.pixels[i, j])
    {
      var y := yo;
      while y < yo + bs
        invariant yo <= y <= yo + bs
        invariant fb.currentColor == RED
        invariant forall i, j :: 0 <= i < fb.width && 0 <= j < fb.height ==>
                    fb.pixels[i, j] == if (xo <= i < x && yo <= j < yo + bs) || (i == x && yo <= j < y)
                                       then RED else old(fb.pixels[i, j])
      {
        fb.SetPixel(x, y);
        y := y + 1;
      }
      x := x + 1;
    }
  }

  /** Pixels of wall cells that come before cell (r, c) in row-major order. */
  predicate PaintedBefore(maze: Maze, bs: nat, x: nat, y: nat, r: nat, c: nat)
  {
    WallAt(maze, bs, x, y) && (y / bs < r || (y / bs == r && x / bs < c))
  }

  /** Some wall cell comes before cell (r, c) in row-major order. */
  predicate WallBefore(maze: Maze, r: nat, c: nat)
  {
    exists r', c' :: 0 <= r' < |maze| && 0 <= c' < |maze[r']| && (r' < r || (r' == r && c' < c)) && maze[r'][c'] != ' '
  }

  /** Drawing cell (r, c) extends the painted region by exactly that cell's
      square, and the square fits on the screen. */
  lemma PaintStep(maze: Maze, bs: nat, width: nat, height: nat, r: nat, c: nat)
    requires r < |maze| && c < |maze[r]|
    requires FitsOnScreen(maze, bs, width, height)
    ensures maze[r][c] != ' ' ==> c * bs + bs <= width && r * bs + bs <= height
    ensures forall x: nat, y: nat ::
              PaintedBefore(maze, bs, x, y, r, c + 1) <==>
              PaintedBefore(maze, bs, x, y, r, c) || (maze[r][c] != ' ' && InBlock(x, y, c * bs, r * bs, bs))
    ensures WallBefore(maze, r, c + 1) <==> WallBefore(maze, r, c) || maze[r][c] != ' '
  {
    assert (c + 1) * bs == c * bs + bs && (r + 1) * bs == r * bs + bs;
    forall x: nat, y: nat
      ensures PaintedBefore(maze, bs, x, y, r, c + 1) <==>
              PaintedBefore(maze, bs, x, y, r, c) || (maze[r][c] != ' ' && InBlock(x, y, c * bs, r * bs, bs))
    {
      if bs > 0 {
        CellSquare(x, y, r, c, bs);
      }
    }
    if maze[r][c] != ' ' {
      assert WallBefore(maze, r, c + 1) by {
        assert 0 <= r < |maze| && 0 <= c < |maze[r]| && (r < r || (r == r && c < c + 1)) && maze[r][c] != ' ';
      }
    }
  }

  /** Finishing a row is the same as starting the next one. */
  lemma RowStep(maze: Maze, bs: nat, r: nat)
    requires r < |maze|
    ensures forall x: nat, y: nat ::
              PaintedBefore(maze, bs, x, y, r, |maze[r]|) <==> PaintedBefore(maze, bs, x, y, r + 1, 0)
    ensures WallBefore(maze, r, |maze[r]|) <==> WallBefore(maze, r + 1, 0)
  {
  }

  /** The cell loop of `render_maze`: cell (r, c) is drawn with `draw_cell`
      at (c*bs, r*bs). Afterwards every pixel of a wall cell's block is RED and
      every other pixel keeps its colour. */
  method RenderMaze(fb: Framebuffer, maze: Maze, bs: nat)
    requires fb.Valid()
    requires FitsOnScreen(maze, bs, fb.width, fb.height)
    modifies fb, fb.pixels
    ensures forall x, y :: 0 <= x < fb.width && 0 <= y < fb.height ==>
              fb.pixels[x, y] == if WallAt(maze, bs, x, y) then RED else old(fb.pixels[x, y])
    ensures fb.currentColor == if HasWall(maze) then RED else old(fb.currentColor)
  {
    var r := 0;
    while r < |maze|
      invariant 0 <= r <= |maze|
      invariant forall x, y :: 0 <= x < fb.width && 0 <= y < fb.height ==>
                  fb.pixels[x, y] == if PaintedBefore(maze, bs, x, y, r, 0) then RED else old(fb.pixels[x, y])
      invariant fb.currentColor == if WallBefore(maze, r, 0) then RED else old(fb.currentColor)
    {
      var c := 0;
      while c < |maze[r]|
        invariant 0 <= c <= |maze[r]|
        invariant forall x, y :: 0 <= x < fb.width && 0 <= y < fb.height ==>
                    fb.pixels[x, y] == if PaintedBefore(maze, bs, x, y, r, c) then RED else old(fb.pixels[x, y])
        invariant fb.currentColor == if WallBefore(maze, r, c) then RED else old(fb.currentColor)
      {
        PaintStep(maze, bs, fb.width, fb.height, r, c);
        DrawCell(fb, c * bs, r * bs, bs, maze[r][c]);
        c := c + 1;
      }
      RowStep(maze, bs, r);
      r := r + 1;
    }
  }
}
