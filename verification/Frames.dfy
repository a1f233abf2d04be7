/** Depth frames, their rotation and the sampling of one pixel (realsense_mux.py), and the browser's
    mapping from a click on the displayed frame to the sensor frame (templates/depth_features.js). */
module Frames {
  import opened Options

  /** A matrix of `h` rows and `w` columns, at least one pixel. */
  datatype Img<T> = Img(h: nat, w: nat, px: seq<seq<T>>) {
    predicate Ok() {
      h > 0 && w > 0 && |px| == h && forall i :: 0 <= i < h ==> |px[i]| == w
    }
  }

  // ---------- numpy ----------

  /** `np.rot90` once: counterclockwise. */
  function RotCcw<T>(a: Img<T>): (r: Img<T>)
    requires a.Ok()
    ensures r.Ok() && r.h == a.w && r.w == a.h
    ensures forall i, j :: 0 <= i < r.h && 0 <= j < r.w ==> r.px[i][j] == a.px[j][a.w - 1 - i]
  {
    Img(a.w, a.h, seq(a.w, i requires 0 <= i < a.w => seq(a.h, j requires 0 <= j < a.h => a.px[j][a.w - 1 - i])))
  }

  /** `np.rot90(arr, k)`. */
  function Rot90<T>(a: Img<T>, k: nat): (r: Img<T>)
    requires a.Ok()
    ensures r.Ok()
  {
    if k == 0 then a else RotCcw(Rot90(a, k - 1))
  }

  function FlipUd<T>(a: Img<T>): (r: Img<T>)
    requires a.Ok()
    ensures r.Ok() && r.h == a.h && r.w == a.w
    ensures forall i, j :: 0 <= i < r.h && 0 <= j < r.w ==> r.px[i][j] == a.px[a.h - 1 - i][j]
  {
    Img(a.h, a.w, seq(a.h, i requires 0 <= i < a.h => a.px[a.h - 1 - i]))
  }

  function Scaled(z: Img<nat>, scale: real): (r: Img<real>)
    requires z.Ok()
    ensures r.Ok() && r.h == z.h && r.w == z.w
    ensures forall i, j :: 0 <= i < r.h && 0 <= j < r.w ==> r.px[i][j] == z.px[i][j] as real * scale
  {
    Img(z.h, z.w, seq(z.h, i requires 0 <= i < z.h => seq(z.w, j requires 0 <= j < z.w => z.px[i][j] as real * scale)))
  }

  /** Python's `round`: nearest integer, ties to the even one. */
  function Round(t: real): int {
    var f := t.Floor;
    var d := t - f as real;
    if d < 0.5 then f
    else if d > 0.5 then f + 1
    else if f % 2 == 0 then f
    else f + 1
  }

  function Clamp(t: real): real {
    if t < 0.0 then 0.0 else if t > 1.0 then 1.0 else t
  }

  // ---------- the camera service ----------

  datatype Mode = Cw | Ccw | Flip | Unrotated

  function RotateImg<T>(a: Img<T>, mode: Mode): (r: Img<T>)
    requires a.Ok()
    ensures r.Ok()
  {
    match mode
    case Cw => Rot90(a, 3)
    case Ccw => Rot90(a, 1)
    case Flip => FlipUd(a)
    case Unrotated => a
  }

  /** What `update_depth_from_z16` stores. */
  function Stored(z: Img<nat>, scale: real, mode: Mode, flip180: bool): (r: Img<real>)
    requires z.Ok()
    ensures r.Ok()
  {
    var m := RotateImg(Scaled(z, scale), mode);
    if flip180 then Rot90(m, 2) else m
  }

  /** A normalised coordinate stretched over `n` pixels. */
  function Stretch(t: real, n: nat): real {
    t * (n as real - 1.0)
  }

  /** The pixel that a normalised coordinate reads in a frame of `h` rows and `w` columns. */
  function PixelAt(h: nat, w: nat, x: real, y: real): (int, int) {
    (Round(Stretch(y, h)), Round(Stretch(x, w)))
  }

  datatype Reading = Reading(depth: real, i: int, j: int, w: nat, h: nat)

  /** Index `i` of an axis of `n` pixels is the one for the coordinate `t`, 0 being the first pixel and 1 the
      last (the other way round if mirrored): an end outside that range, otherwise the nearest pixel, and
      between two the even one. */
  predicate Nearest(n: nat, t: real, mirrored: bool, i: int) {
    if t < 0.0 then i == if mirrored then n - 1 else 0
    else if t > 1.0 then i == if mirrored then 0 else n - 1
    else
      var off := i as real - (if mirrored then 1.0 - t else t) * (n as real - 1.0);
      -0.5 <= off <= 0.5 && (off == 0.5 || off == -0.5 ==> i % 2 == 0)
  }

  class CameraService {
    const rotate: Mode
    const flipX: bool
    const flipY: bool
    const depthFlip180: bool
    var depth: Option<Img<real>>

    ghost predicate Valid()
      reads this
    {
      depth.Some? ==> depth.value.Ok()
    }

    constructor (rotate: Mode, flipX: bool, flipY: bool, depthFlip180: bool)
      ensures Valid() && depth == None
      ensures this.rotate == rotate && this.flipX == flipX && this.flipY == flipY && this.depthFlip180 == depthFlip180
    {
      this.rotate, this.flipX, this.flipY, this.depthFlip180 := rotate, flipX, flipY, depthFlip180;
      depth := None;
    }

    method UpdateDepth(z: Img<nat>, scale: real)
      requires Valid() && z.Ok()
      modifies this
      ensures Valid() && depth == Some(Stored(z, scale, rotate, depthFlip180))
    {
      var m := RotateImg(Scaled(z, scale), rotate);
      if depthFlip180 {
        m := Rot90(m, 2);
      }
      depth := Some(m);
    }

    /** None stands for "no depth frame yet". The indices are always in bounds. */
    method GetDepth(x: real, y: real) returns (r: Option<Reading>)
      requires Valid()
      ensures r.None? <==> depth.None?
      ensures r.Some? ==>
        && var a, d := depth.value, r.value;
        && 0 <= d.i < a.h && 0 <= d.j < a.w && (d.h, d.w) == (a.h, a.w)
        && (d.i, d.j) == PixelAt(a.h, a.w, if flipX then 1.0 - Clamp(x) else Clamp(x), if flipY then 1.0 - Clamp(y) else Clamp(y))
        && Nearest(a.w, x, flipX, d.j) && Nearest(a.h, y, flipY, d.i)
        && d.depth == a.px[d.i][d.j]
    {
      if depth.None? {
        return None;
      }
      var a := depth.value;
      var xn, yn := Clamp(x), Clamp(y);
      if flipX {
        xn := 1.0 - xn;
      }
      if flipY {
        yn := 1.0 - yn;
      }
      var j := Round(Stretch(xn, a.w));
      var i := Round(Stretch(yn, a.h));
      RoundInBounds(a.w, xn);
      RoundInBounds(a.h, yn);
      ReadsNearest(a.w, x, flipX);
      ReadsNearest(a.h, y, flipY);
      r := Some(Reading(a.px[i][j], i, j, a.w, a.h));
    }
  }

  lemma RoundBetween(s: real, m: int)
    requires 0.0 <= s <= m as real
    ensures 0 <= Round(s) <= m
  {
    if s.Floor == m { assert s == m as real; }
  }

  lemma RoundInBounds(n: nat, t: real)
    requires n > 0 && 0.0 <= t <= 1.0
    ensures 0 <= Round(Stretch(t, n)) < n
  {
    var m := n as real - 1.0;
    assert 0.0 <= t * m;
    assert (1.0 - t) * m >= 0.0;
    assert Stretch(t, n) <= (n - 1) as real;
    RoundBetween(Stretch(t, n), n - 1);
  }

  lemma RoundIsNearest(t: real)
    ensures var off := Round(t) as real - t; -0.5 <= off <= 0.5 && (off == 0.5 || off == -0.5 ==> Round(t) % 2 == 0)
  {
  }

  lemma ReadsNearest(n: nat, t: real, mirrored: bool)
    requires n > 0
    ensures Nearest(n, t, mirrored, Round(Stretch(if mirrored then 1.0 - Clamp(t) else Clamp(t), n)))
  {
    var c := if mirrored then 1.0 - Clamp(t) else Clamp(t);
    assert Stretch(0.0, n) == 0.0 && Stretch(1.0, n) == n as real - 1.0;
    RoundIsNearest(Stretch(c, n));
    assert (n - 1) as real == n as real - 1.0;
  }

  /** There is one such pixel. */
  lemma NearestIsOne(n: nat, t: real, mirrored: bool, i: int, j: int)
    requires Nearest(n, t, mirrored, i) && Nearest(n, t, mirrored, j)
    ensures i == j
  {
    if 0.0 <= t <= 1.0 {
      assert -1.0 <= i as real - j as real <= 1.0;
      assert -1 <= i - j <= 1;
    }
  }

  // ---------- the browser ----------

  /** JavaScript's `%` on integers: the remainder takes the dividend's sign. */
  function JsRem(a: int, b: int): int
    requires b > 0
  {
    if a >= 0 then a % b else -((-a) % b)
  }

  function TotalDegrees(ffmpegRot: int, cssRot: int): int {
    JsRem(JsRem(ffmpegRot + cssRot, 360) + 360, 360)
  }

  /** `viewportToFrame` on percentages; `flip180` is the legacy transform attribute. */
  function ViewportToFrame(flip180: bool, ffmpegRot: int, cssRot: int, x: real, y: real): (real, real) {
    if flip180 then (100.0 - x, 100.0 - y)
    else
      var total := TotalDegrees(ffmpegRot, cssRot);
      if total == 90 then (y, 100.0 - x)
      else if total == 180 then (100.0 - x, 100.0 - y)
      else if total == 270 then (100.0 - y, x)
      else (x, y)
  }
}

/** Sampling the rotated frame where the user clicked and sampling the sensor frame at the mapped
    coordinate read the same pixel, up to one tie. */
module FrameLaws {
  import opened Options
  import opened Frames

  // ---------- rounding ----------

  predicate Tie(t: real) {
    t - t.Floor as real == 0.5
  }

  /** Mirroring before rounding and after rounding agree except at ties of an odd length, where they
      are one apart. */
  lemma MirrorRound(n: int, t: real)
    ensures n - Round(t) == Round(n as real - t) <==> !(Tie(t) && n % 2 == 1)
    ensures -1 <= n - Round(t) - Round(n as real - t) <= 1
  {
    var f := t.Floor;
    var u := n as real - t;
    if t == f as real {
      assert u.Floor == n - f;
    } else {
      assert u.Floor == n - f - 1;
    }
  }

  // ---------- quarter turns of a frame ----------

  /** `k` quarter turns clockwise, as the display shows them. */
  function Turned<T>(a: Img<T>, k: nat): Img<T>
    requires a.Ok()
  {
    Rot90(a, 3 * k)
  }

  function TurnedSize(h: nat, w: nat, k: int): (nat, nat) {
    if k % 2 == 0 then (h, w) else (w, h)
  }

  /** Where pixel (i, j) of the frame turned clockwise `k` times came from. */
  function Source(h: nat, w: nat, k: int, i: int, j: int): (int, int) {
    if k % 4 == 0 then (i, j)
    else if k % 4 == 1 then (h - 1 - j, i)
    else if k % 4 == 2 then (h - 1 - i, w - 1 - j)
    else (j, w - 1 - i)
  }

  lemma FourTurns<T>(a: Img<T>, k: nat)
    requires a.Ok()
    ensures Rot90(a, k + 4) == Rot90(a, k)
  {
    var b := Rot90(a, k);
    var b1 := RotCcw(b);
    var b2 := RotCcw(b1);
    var b3 := RotCcw(b2);
    var b4 := RotCcw(b3);
    assert Rot90(a, k + 1) == b1 && Rot90(a, k + 2) == b2 && Rot90(a, k + 3) == b3 && Rot90(a, k + 4) == b4;
    forall i | 0 <= i < b.h ensures b4.px[i] == b.px[i] {}
    assert b4.px == b.px;
  }

  /** Pixel (i, j) of `r` is pixel `from` of `a`. */
  predicate Shows<T(==)>(r: Img<T>, i: int, j: int, a: Img<T>, from: (int, int))
    requires r.Ok() && a.Ok() && 0 <= i < r.h && 0 <= j < r.w
  {
    0 <= from.0 < a.h && 0 <= from.1 < a.w && r.px[i][j] == a.px[from.0][from.1]
  }

  /** Turning counterclockwise `m` times reads where the turned frame came from. */
  lemma {:induction false} RotSource<T>(a: Img<T>, m: nat)
    requires a.Ok()
    ensures var r := Rot90(a, m);
      && (r.h, r.w) == TurnedSize(a.h, a.w, m)
      && forall i, j :: 0 <= i < r.h && 0 <= j < r.w ==> Shows(r, i, j, a, Source(a.h, a.w, 3 * m, i, j))
    decreases m
  {
    if m > 0 {
      var p := Rot90(a, m - 1);
      RotSource(a, m - 1);
      forall i, j | 0 <= i < RotCcw(p).h && 0 <= j < RotCcw(p).w
        ensures Shows(RotCcw(p), i, j, a, Source(a.h, a.w, 3 * m, i, j))
      {
        RotSourceAt(a, p, m, i, j);
      }
    }
  }

  lemma RotSourceAt<T>(a: Img<T>, p: Img<T>, m: nat, i: nat, j: nat)
    requires p.Ok() && a.Ok() && m > 0 && i < p.w && j < p.h && p.w == TurnedSize(a.h, a.w, m - 1).1
    requires Shows(p, j, p.w - 1 - i, a, Source(a.h, a.w, 3 * (m - 1), j, p.w - 1 - i))
    ensures Shows(RotCcw(p), i, j, a, Source(a.h, a.w, 3 * m, i, j))
  {
    TurnBack(a.h, a.w, m, i, j);
  }

  lemma Mod4(x: int, d: int, r: int)
    requires x == 4 * d + r && 0 <= r < 4
    ensures x % 4 == r
  {
  }

  lemma TurnBackQuarter(h: nat, w: nat, k: int, l: int, s: int, i: int, j: int)
    requires (k % 4, l % 4, s % 2) in {(0, 1, 1), (3, 0, 0), (2, 3, 1), (1, 2, 0)}
    ensures Source(h, w, k, i, j) == Source(h, w, l, j, TurnedSize(h, w, s).1 - 1 - i)
  {
  }

  lemma TurnBack(h: nat, w: nat, m: nat, i: int, j: int)
    requires m > 0
    ensures Source(h, w, 3 * m, i, j) == Source(h, w, 3 * (m - 1), j, TurnedSize(h, w, m - 1).1 - 1 - i)
  {
    var d := m / 4;
    var k, l := 3 * m, 3 * (m - 1);
    if m == 4 * d {
      Mod4(k, 3 * d, 0);
      Mod4(l, 3 * d - 1, 1);
      Mod2(m - 1, 2 * d - 1, 1);
    } else if m == 4 * d + 1 {
      Mod4(k, 3 * d, 3);
      Mod4(l, 3 * d, 0);
      Mod2(m - 1, 2 * d, 0);
    } else if m == 4 * d + 2 {
      Mod4(k, 3 * d + 1, 2);
      Mod4(l, 3 * d, 3);
      Mod2(m - 1, 2 * d, 1);
    } else {
      Mod4(k, 3 * d + 2, 1);
      Mod4(l, 3 * d + 1, 2);
      Mod2(m - 1, 2 * d + 1, 0);
    }
    TurnBackQuarter(h, w, k, l, m - 1, i, j);
  }

  lemma Mod2(x: int, d: int, r: int)
    requires x == 2 * d + r && 0 <= r < 2
    ensures x % 2 == r
  {
  }

  lemma TurnedSource<T>(a: Img<T>, k: nat)
    requires a.Ok()
    ensures var r := Turned(a, k);
      && (r.h, r.w) == TurnedSize(a.h, a.w, k)
      && forall i, j :: 0 <= i < r.h && 0 <= j < r.w ==> Shows(r, i, j, a, Source(a.h, a.w, k, i, j))
  {
    RotSource(a, 3 * k);
    NineTurns(k);
    var r := Turned(a, k);
    forall i, j | 0 <= i < r.h && 0 <= j < r.w ensures Shows(r, i, j, a, Source(a.h, a.w, k, i, j)) {
      assert Shows(r, i, j, a, Source(a.h, a.w, 3 * (3 * k), i, j));
      SameQuarter(a.h, a.w, 3 * (3 * k), k, i, j);
    }
  }

  lemma NineTurns(k: nat)
    ensures (3 * (3 * k)) % 4 == k % 4 && (3 * k) % 2 == k % 2
  {
    Mod4(3 * (3 * k), 9 * (k / 4) + 2 * (k % 4), k % 4);
  }

  lemma SameQuarter(h: nat, w: nat, k: int, m: int, i: int, j: int)
    requires k % 4 == m % 4
    ensures Source(h, w, k, i, j) == Source(h, w, m, i, j)
  {
  }

  // ---------- the mapped coordinate ----------

  /** The normalised coordinate on the sensor frame for one on a frame turned `k` times. */
  function Unturn(k: int, x: real, y: real): (real, real) {
    if k % 4 == 0 then (x, y)
    else if k % 4 == 1 then (y, 1.0 - x)
    else if k % 4 == 2 then (1.0 - x, 1.0 - y)
    else (1.0 - y, x)
  }

  /** On multiples of a right angle, positive or negative, the browser undoes exactly the sum of the
      two rotations. */
  lemma BrowserUnturns(f: int, c: int, x: real, y: real)
    ensures var (u, v) := Unturn(f + c, x / 100.0, y / 100.0);
      ViewportToFrame(false, 90 * f, 90 * c, x, y) == (100.0 * u, 100.0 * v)
    ensures (f + c) % 4 == 2 ==> ViewportToFrame(true, 90 * f, 90 * c, x, y) == ViewportToFrame(false, 90 * f, 90 * c, x, y)
  {
    TotalOfTurns(f, c);
  }

  lemma Mod360(x: int, d: int, r: int)
    requires x == 360 * d + r && 0 <= r < 360
    ensures x % 360 == r
  {
  }

  lemma TotalOfTurns(f: int, c: int)
    ensures TotalDegrees(90 * f, 90 * c) == 90 * ((f + c) % 4)
  {
    var s := f + c;
    var q, d := s % 4, s / 4;
    if s >= 0 {
      Mod360(90 * f + 90 * c, d, 90 * q);
      Mod360(90 * q + 360, 1, 90 * q);
    } else if q == 0 {
      Mod360(-(90 * f + 90 * c), -d, 0);
      Mod360(360, 1, 0);
    } else {
      Mod360(-(90 * f + 90 * c), -d - 1, 360 - 90 * q);
      Mod360(90 * q, 0, 90 * q);
    }
  }

  /** Undoing the display's rotation and then the encoder's is undoing their sum. */
  lemma UnturnsCompose(f: int, c: int, x: real, y: real)
    ensures var (u, v) := Unturn(c, x, y); Unturn(f, u, v) == Unturn(f + c, x, y)
  {
    assert (f + c) % 4 == (f % 4 + c % 4) % 4;
  }

  // ---------- main results ----------

  /** The row axis is mirrored by `k` turns, resp. the column axis. */
  predicate RowsMirrored(k: int) {
    k % 4 == 1 || k % 4 == 2
  }

  predicate ColumnsMirrored(k: int) {
    k % 4 == 2 || k % 4 == 3
  }

  /** The display coordinate that lands on the row axis, resp. the column axis. */
  function RowCoord(k: int, x: real, y: real): real {
    if k % 2 == 0 then y else x
  }

  function ColumnCoord(k: int, x: real, y: real): real {
    if k % 2 == 0 then x else y
  }

  /** A click lands between two pixels of a mirrored axis whose last index is odd. */
  predicate RowTie(h: nat, k: int, x: real, y: real) {
    RowsMirrored(k) && h % 2 == 0 && Tie(Stretch(RowCoord(k, x, y), h))
  }

  predicate ColumnTie(w: nat, k: int, x: real, y: real) {
    ColumnsMirrored(k) && w % 2 == 0 && Tie(Stretch(ColumnCoord(k, x, y), w))
  }

  /** One axis: reading the mirrored coordinate against mirroring the index read. */
  lemma AxisAgrees(n: nat, t: real, mirrored: bool)
    requires n > 0
    ensures var read := Round(Stretch(if mirrored then 1.0 - t else t, n));
      var under := if mirrored then n - 1 - Round(Stretch(t, n)) else Round(Stretch(t, n));
      (under == read <==> !(mirrored && n % 2 == 0 && Tie(Stretch(t, n)))) && -1 <= under - read <= 1
  {
    StretchMirror(n, t);
    MirrorRound(n - 1, Stretch(t, n));
  }

  lemma StretchMirror(n: nat, t: real)
    ensures Stretch(1.0 - t, n) == (n - 1) as real - Stretch(t, n)
  {
    var m := n as real - 1.0;
    assert (1.0 - t) * m == m - t * m;
  }

  /** The sensor pixel behind the one under a click on the frame turned `k` times. */
  function Under(h: nat, w: nat, k: int, x: real, y: real): (int, int) {
    var (th, tw) := TurnedSize(h, w, k);
    var (i, j) := PixelAt(th, tw, x, y);
    Source(h, w, k, i, j)
  }

  /** The sensor pixel that the unturned coordinate reads. */
  function Asked(h: nat, w: nat, k: int, x: real, y: real): (int, int) {
    var (u, v) := Unturn(k, x, y);
    PixelAt(h, w, u, v)
  }

  lemma UnderIs(h: nat, w: nat, k: int, x: real, y: real)
    requires h > 0 && w > 0
    ensures var r, c := Round(Stretch(RowCoord(k, x, y), h)), Round(Stretch(ColumnCoord(k, x, y), w));
      Under(h, w, k, x, y) == (if RowsMirrored(k) then h - 1 - r else r, if ColumnsMirrored(k) then w - 1 - c else c)
  {
    if k % 2 == 0 {
      assert k % 4 == 0 || k % 4 == 2;
      assert TurnedSize(h, w, k) == (h, w);
    } else {
      assert k % 4 == 1 || k % 4 == 3;
      assert TurnedSize(h, w, k) == (w, h);
    }
  }

  lemma AskedIs(h: nat, w: nat, k: int, x: real, y: real)
    requires h > 0 && w > 0
    ensures var r, c := RowCoord(k, x, y), ColumnCoord(k, x, y);
      Asked(h, w, k, x, y) == (Round(Stretch(if RowsMirrored(k) then 1.0 - r else r, h)),
                               Round(Stretch(if ColumnsMirrored(k) then 1.0 - c else c, w)))
  {
    UnturnIs(k, x, y);
    var (u, v) := Unturn(k, x, y);
    assert Asked(h, w, k, x, y) == PixelAt(h, w, u, v);
  }

  lemma UnturnIs(k: int, x: real, y: real)
    ensures var (u, v) := Unturn(k, x, y); var r, c := RowCoord(k, x, y), ColumnCoord(k, x, y);
      v == (if RowsMirrored(k) then 1.0 - r else r) && u == (if ColumnsMirrored(k) then 1.0 - c else c)
  {
    TurnCases(k);
  }

  lemma TurnCases(k: int)
    ensures k % 4 == 0 || k % 4 == 1 || k % 4 == 2 || k % 4 == 3
    ensures k % 2 == 0 <==> k % 4 == 0 || k % 4 == 2
  {
    Halves(k / 4, k % 4);
  }

  lemma Halves(q: int, r: int)
    requires 0 <= r < 4
    ensures (4 * q + r) % 2 == 0 <==> r == 0 || r == 2
  {
    var half := 2 * q + (if r < 2 then 0 else 1);
    assert 4 * q + r == 2 * half + (if r == 0 || r == 2 then 0 else 1);
  }

  /** The pixel of the turned frame under the click came from exactly the pixel of the sensor frame at
      the unturned coordinate, except that a tie on a mirrored axis with an even number of pixels
      moves that one index, and only that one, by exactly one. */
  lemma ClickReadsSensorPixel(h: nat, w: nat, k: int, x: real, y: real)
    requires h > 0 && w > 0
    ensures var (si, sj) := Under(h, w, k, x, y);
      var (ri, rj) := Asked(h, w, k, x, y);
      && (si == ri <==> !RowTie(h, k, x, y)) && -1 <= si - ri <= 1
      && (sj == rj <==> !ColumnTie(w, k, x, y)) && -1 <= sj - rj <= 1
  {
    UnderIs(h, w, k, x, y);
    AskedIs(h, w, k, x, y);
    AxisAgrees(h, RowCoord(k, x, y), RowsMirrored(k));
    AxisAgrees(w, ColumnCoord(k, x, y), ColumnsMirrored(k));
  }

  /** What the frame turned `k` times answers at a normalised click. */
  lemma TurnedFrameAnswers<T>(a: Img<T>, k: nat, x: real, y: real)
    requires a.Ok() && 0.0 <= x <= 1.0 && 0.0 <= y <= 1.0
    ensures var r := Turned(a, k);
      var (i, j) := PixelAt(r.h, r.w, x, y);
      0 <= i < r.h && 0 <= j < r.w && Shows(r, i, j, a, Under(a.h, a.w, k, x, y))
  {
    TurnedSource(a, k);
    var (th, tw) := TurnedSize(a.h, a.w, k);
    RoundInBounds(th, y);
    RoundInBounds(tw, x);
  }

  lemma AskedInBounds(h: nat, w: nat, k: int, x: real, y: real)
    requires h > 0 && w > 0 && 0.0 <= x <= 1.0 && 0.0 <= y <= 1.0
    ensures 0 <= Asked(h, w, k, x, y).0 < h && 0 <= Asked(h, w, k, x, y).1 < w
  {
    var (u, v) := Unturn(k, x, y);
    RoundInBounds(h, v);
    RoundInBounds(w, u);
  }

  /** The frame rotated by the encoder and then by the page answers a click as the sensor frame
      answers the mapped click, every index in bounds, unless the click hits such a tie. */
  lemma RotatedFrameAnswersAlike<T>(a: Img<T>, f: nat, c: nat, x: real, y: real)
    requires a.Ok() && 0.0 <= x <= 100.0 && 0.0 <= y <= 100.0
    ensures var shown := Turned(Turned(a, f), c);
      var (i, j) := PixelAt(shown.h, shown.w, x / 100.0, y / 100.0);
      var (fx, fy) := ViewportToFrame(false, 90 * f, 90 * c, x, y);
      var asked := PixelAt(a.h, a.w, fx / 100.0, fy / 100.0);
      && 0 <= i < shown.h && 0 <= j < shown.w && 0 <= asked.0 < a.h && 0 <= asked.1 < a.w
      && (!RowTie(a.h, f + c, x / 100.0, y / 100.0) && !ColumnTie(a.w, f + c, x / 100.0, y / 100.0) ==>
        Shows(shown, i, j, a, asked))
  {
    var k, u, v := f + c, x / 100.0, y / 100.0;
    TurnsAdd(a, 3 * f, 3 * c);
    assert Turned(Turned(a, f), c) == Turned(a, k);
    TurnedFrameAnswers(a, k, u, v);
    BrowserUnturns(f, c, x, y);
    AskedInBounds(a.h, a.w, k, u, v);
    ClickReadsSensorPixel(a.h, a.w, k, u, v);
    MappedAsked(a.h, a.w, f, c, x, y);
  }

  lemma MappedAsked(h: nat, w: nat, f: int, c: int, x: real, y: real)
    ensures var (fx, fy) := ViewportToFrame(false, 90 * f, 90 * c, x, y);
      PixelAt(h, w, fx / 100.0, fy / 100.0) == Asked(h, w, f + c, x / 100.0, y / 100.0)
  {
    BrowserUnturns(f, c, x, y);
    var (u, v) := Unturn(f + c, x / 100.0, y / 100.0);
    assert (100.0 * u) / 100.0 == u && (100.0 * v) / 100.0 == v;
  }

  lemma {:induction false} TurnsAdd<T>(a: Img<T>, m: nat, n: nat)
    requires a.Ok()
    ensures Rot90(Rot90(a, m), n) == Rot90(a, m + n)
    decreases n
  {
    if n > 0 { TurnsAdd(a, m, n - 1); }
  }

  /** Turns clockwise that the service's settings amount to; `flip` mirrors instead of turning. */
  function ServiceTurns(mode: Mode, flip180: bool): nat {
    (match mode case Cw => 1 case Ccw => 3 case Flip => 0 case Unrotated => 0) + if flip180 then 2 else 0
  }

  /** What the service stores is the scaled sensor frame, upside down in the `flip` mode, turned by its
      settings. */
  lemma StoredIsTurned(z: Img<nat>, scale: real, mode: Mode, flip180: bool)
    requires z.Ok()
    ensures var s := Scaled(z, scale);
      Stored(z, scale, mode, flip180) == Turned(if mode == Flip then FlipUd(s) else s, ServiceTurns(mode, flip180))
  {
    var s := if mode == Flip then FlipUd(Scaled(z, scale)) else Scaled(z, scale);
    var m := match mode case Cw => 3 case Ccw => 1 case Flip => 0 case Unrotated => 0;
    var n := if flip180 then 2 else 0;
    assert RotateImg(Scaled(z, scale), mode) == Rot90(s, m);
    TurnsAdd(s, m, n);
    SameTurns(s, m + n, 3 * ServiceTurns(mode, flip180));
  }

  /** Row and column of the sensor pixel behind row `i` and column `j` of a rotated frame of `h` by `w`:
      clockwise the first row is the first column from below, counterclockwise it is the last column. */
  function Behind(mode: Mode, h: nat, w: nat, i: int, j: int): (int, int) {
    match mode
    case Cw => (w - 1 - j, i)
    case Ccw => (j, h - 1 - i)
    case Flip => (h - 1 - i, j)
    case Unrotated => (i, j)
  }

  /** What is stored, pixel by pixel; the half turn counts from the other corner. */
  lemma StoredPixel(z: Img<nat>, scale: real, mode: Mode, flip180: bool, i: nat, j: nat)
    requires z.Ok() && i < Stored(z, scale, mode, flip180).h && j < Stored(z, scale, mode, flip180).w
    ensures var r := Stored(z, scale, mode, flip180);
      var (p, q) := Behind(mode, r.h, r.w, if flip180 then r.h - 1 - i else i, if flip180 then r.w - 1 - j else j);
      && (r.h, r.w) == (if mode == Cw || mode == Ccw then (z.w, z.h) else (z.h, z.w))
      && 0 <= p < z.h && 0 <= q < z.w && r.px[i][j] == z.px[p][q] as real * scale
  {
    StoredBehind(z, scale, mode, flip180, i, j);
  }

  lemma StoredBehind(z: Img<nat>, scale: real, mode: Mode, flip180: bool, i: nat, j: nat)
    requires z.Ok() && i < Stored(z, scale, mode, flip180).h && j < Stored(z, scale, mode, flip180).w
    ensures var r, s := Stored(z, scale, mode, flip180), Scaled(z, scale);
      var (p, q) := Behind(mode, r.h, r.w, if flip180 then r.h - 1 - i else i, if flip180 then r.w - 1 - j else j);
      && (r.h, r.w) == (if mode == Cw || mode == Ccw then (z.w, z.h) else (z.h, z.w))
      && 0 <= p < s.h && 0 <= q < s.w && r.px[i][j] == s.px[p][q]
  {
    var r, s := Stored(z, scale, mode, flip180), Scaled(z, scale);
    StoredScaled(z, scale, mode, flip180, i, j);
    RotatedPixel(s, mode, if flip180 then r.h - 1 - i else i, if flip180 then r.w - 1 - j else j);
  }

  lemma StoredScaled(z: Img<nat>, scale: real, mode: Mode, flip180: bool, i: nat, j: nat)
    requires z.Ok() && i < Stored(z, scale, mode, flip180).h && j < Stored(z, scale, mode, flip180).w
    ensures var r, m := Stored(z, scale, mode, flip180), RotateImg(Scaled(z, scale), mode);
      && (r.h, r.w) == (m.h, m.w)
      && (r.h, r.w) == (if mode == Cw || mode == Ccw then (z.w, z.h) else (z.h, z.w))
      && r.px[i][j] == m.px[if flip180 then m.h - 1 - i else i][if flip180 then m.w - 1 - j else j]
  {
    var m := RotateImg(Scaled(z, scale), mode);
    HalfTurn(m, i, j);
    RotatedPixel(Scaled(z, scale), mode, 0, 0);
  }

  lemma RotatedPixel<T>(a: Img<T>, mode: Mode, u: nat, v: nat)
    requires a.Ok()
    ensures var r := RotateImg(a, mode);
      && (r.h, r.w) == (if mode == Cw || mode == Ccw then (a.w, a.h) else (a.h, a.w))
      && (u < r.h && v < r.w ==>
            var (p, q) := Behind(mode, r.h, r.w, u, v); 0 <= p < a.h && 0 <= q < a.w && r.px[u][v] == a.px[p][q])
  {
    match mode
    case Cw => ThreeTurns(a, u, v);
    case Ccw => assert Rot90(a, 1) == RotCcw(Rot90(a, 0));
    case Flip =>
    case Unrotated =>
  }

  lemma HalfTurn<T>(a: Img<T>, i: nat, j: nat)
    requires a.Ok()
    ensures Rot90(a, 2).h == a.h && Rot90(a, 2).w == a.w
    ensures i < a.h && j < a.w ==> Rot90(a, 2).px[i][j] == a.px[a.h - 1 - i][a.w - 1 - j]
  {
    assert Rot90(a, 1) == RotCcw(Rot90(a, 0)) && Rot90(a, 2) == RotCcw(Rot90(a, 1));
  }

  lemma ThreeTurns<T>(a: Img<T>, i: nat, j: nat)
    requires a.Ok()
    ensures Rot90(a, 3).h == a.w && Rot90(a, 3).w == a.h
    ensures i < a.w && j < a.h ==> Rot90(a, 3).px[i][j] == a.px[a.h - 1 - j][i]
  {
    HalfTurn(a, 0, 0);
    assert Rot90(a, 3) == RotCcw(Rot90(a, 2));
    if i < a.w && j < a.h { HalfTurn(a, j, a.w - 1 - i); }
  }

  /** Only the number of turns modulo four matters. */
  lemma {:induction false} SameTurns<T>(a: Img<T>, m: nat, n: nat)
    requires a.Ok() && m <= n && (n - m) % 4 == 0
    ensures Rot90(a, m) == Rot90(a, n)
    decreases n
  {
    if m < n {
      SameTurns(a, m, n - 4);
      FourTurns(a, n - 4);
    }
  }

  // ---------- the flip mode ----------

  /** Pixel (i, j) equals its mirror image: up-down, about the one diagonal, left-right, or about the
      other diagonal. */
  predicate Mirrored<T(==)>(a: Img<T>, k: int, i: int, j: int)
    requires a.Ok() && (k % 2 == 1 ==> a.h == a.w) && 0 <= i < a.h && 0 <= j < a.w
  {
    if k % 2 == 0 then a.px[i][j] == if k % 4 == 0 then a.px[a.h - 1 - i][j] else a.px[i][a.w - 1 - j]
    else a.px[i][j] == if k % 4 == 1 then a.px[a.h - 1 - j][a.h - 1 - i] else a.px[j][i]
  }

  /** The symmetry under which a frame upside down looks like the frame turned `k` times. */
  predicate FlipSymmetric<T(==)>(a: Img<T>, k: int)
    requires a.Ok()
  {
    (k % 2 == 1 ==> a.h == a.w) && forall i, j :: 0 <= i < a.h && 0 <= j < a.w ==> Mirrored(a, k, i, j)
  }

  predicate SamePixels<T(==)>(a: Img<T>, b: Img<T>)
    requires a.Ok() && b.Ok()
  {
    a.h == b.h && a.w == b.w && forall i, j :: 0 <= i < a.h && 0 <= j < a.w ==> a.px[i][j] == b.px[i][j]
  }

  lemma SameImage<T>(a: Img<T>, b: Img<T>)
    requires a.Ok() && b.Ok()
    ensures a == b <==> SamePixels(a, b)
  {
    if SamePixels(a, b) {
      forall i | 0 <= i < a.h ensures a.px[i] == b.px[i] {}
      assert a.px == b.px;
    }
  }

  /** Pixel by pixel, upside down against turned. */
  predicate FlipAt<T(==)>(a: Img<T>, k: int, i: int, j: int)
    requires a.Ok() && TurnedSize(a.h, a.w, k) == (a.h, a.w) && 0 <= i < a.h && 0 <= j < a.w
  {
    var (si, sj) := Source(a.h, a.w, k, i, j);
    0 <= si < a.h && 0 <= sj < a.w && a.px[a.h - 1 - i][j] == a.px[si][sj]
  }

  lemma FlipByPixel<T>(a: Img<T>, k: nat)
    requires a.Ok()
    ensures RotateImg(a, Flip) == Turned(a, k) <==>
      TurnedSize(a.h, a.w, k) == (a.h, a.w) && forall i, j :: 0 <= i < a.h && 0 <= j < a.w ==> FlipAt(a, k, i, j)
  {
    var f, r := FlipUd(a), Turned(a, k);
    TurnedSource(a, k);
    SameImage(f, r);
    if TurnedSize(a.h, a.w, k) == (a.h, a.w) {
      forall i, j | 0 <= i < a.h && 0 <= j < a.w ensures FlipAt(a, k, i, j) <==> f.px[i][j] == r.px[i][j] {
        assert Shows(r, i, j, a, Source(a.h, a.w, k, i, j));
      }
    }
  }

  lemma PixelSymmetry<T>(a: Img<T>, k: int)
    requires a.Ok() && TurnedSize(a.h, a.w, k) == (a.h, a.w)
    ensures FlipSymmetric(a, k) <==> forall i, j :: 0 <= i < a.h && 0 <= j < a.w ==> FlipAt(a, k, i, j)
  {
    TurnCases(k);
    if FlipSymmetric(a, k) {
      forall i, j | 0 <= i < a.h && 0 <= j < a.w ensures FlipAt(a, k, i, j) { SymmetricFlip(a, k, i, j); }
    }
    if forall i, j :: 0 <= i < a.h && 0 <= j < a.w ==> FlipAt(a, k, i, j) { FlipsSymmetric(a, k); }
  }

  lemma SymmetricFlip<T>(a: Img<T>, k: int, i: int, j: int)
    requires a.Ok() && TurnedSize(a.h, a.w, k) == (a.h, a.w) && FlipSymmetric(a, k) && 0 <= i < a.h && 0 <= j < a.w
    ensures FlipAt(a, k, i, j)
  {
    TurnCases(k);
    assert Mirrored(a, k, a.h - 1 - i, j);
  }

  lemma FlipsSymmetric<T>(a: Img<T>, k: int)
    requires a.Ok() && TurnedSize(a.h, a.w, k) == (a.h, a.w)
    requires forall i, j :: 0 <= i < a.h && 0 <= j < a.w ==> FlipAt(a, k, i, j)
    ensures FlipSymmetric(a, k)
  {
    TurnCases(k);
    forall i, j | 0 <= i < a.h && 0 <= j < a.w ensures Mirrored(a, k, i, j) {
      assert FlipAt(a, k, a.h - 1 - i, j);
    }
  }

  /** The `flip` mode shows a frame as `k` quarter turns would if and only if the frame has the matching
      symmetry: up-down for none, left-right for two, and about a diagonal of a square for one or three. */
  lemma FlipIsTurnIff<T>(a: Img<T>, k: nat)
    requires a.Ok()
    ensures RotateImg(a, Flip) == Turned(a, k) <==> FlipSymmetric(a, k)
  {
    FlipByPixel(a, k);
    TurnCases(k);
    if TurnedSize(a.h, a.w, k) == (a.h, a.w) { PixelSymmetry(a, k); }
  }

  /** So on a frame of distinct pixels, which pixels the browser's mapping for `k` turns still gets right
      in the `flip` mode: those of a middle row, of a middle column, or of a diagonal of a square. */
  lemma FlippedSourceIff(h: nat, w: nat, k: int, i: int, j: int)
    ensures Source(h, w, k, i, j) == (h - 1 - i, j) <==>
      if k % 4 == 0 then 2 * i == h - 1
      else if k % 4 == 1 then i == j
      else if k % 4 == 2 then 2 * j == w - 1
      else h == w && i + j == h - 1
  {
  }

  /** What the service stores in the `flip` mode is the sensor frame turned `k` times, on top of a
      configured half turn, if and only if the scaled frame has the symmetry for `k`. */
  lemma StoredFlipIsTurnIff(z: Img<nat>, scale: real, flip180: bool, k: nat)
    requires z.Ok()
    ensures Stored(z, scale, Flip, flip180) == Turned(Scaled(z, scale), k + if flip180 then 2 else 0) <==>
      FlipSymmetric(Scaled(z, scale), k)
  {
    var s := Scaled(z, scale);
    FlipIsTurnIff(s, k);
    if flip180 {
      HalfTurnTells(FlipUd(s), Turned(s, k));
      TurnsAdd(s, 3 * k, 2);
      SameTurns(s, 3 * k + 2, 3 * (k + 2));
    }
  }

  lemma HalfTurnTells<T>(a: Img<T>, b: Img<T>)
    requires a.Ok() && b.Ok()
    ensures Rot90(a, 2) == Rot90(b, 2) <==> a == b
  {
    TurnsAdd(a, 2, 2);
    TurnsAdd(b, 2, 2);
    FourTurns(a, 0);
    FourTurns(b, 0);
  }
}
