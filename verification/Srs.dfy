/** Tile arithmetic: 32-bit packing of ids, the 16-bit hash, and the overlap test (nucleus/srs.cpp). */
module Srs {
  import opened Tiles

  const U32: nat := 0x1_0000_0000
  const U16: nat := 0x1_0000

  /** a times 2^k. */
  function Scale(a: nat, k: nat): (r: nat)
    ensures a >= 1 ==> r >= 1
    decreases k, a
  {
    if k == 0 then a else 2 * Scale(a, k - 1)
  }

  function Pow2(k: nat): (p: nat)
    ensures p >= 1
  {
    Scale(1, k)
  }

  lemma {:induction false} ScaleIsProduct(a: nat, k: nat)
    ensures Scale(a, k) == a * Pow2(k)
  {
    if k > 0 {
      var p := Pow2(k - 1);
      ScaleIsProduct(a, k - 1);
      assert Pow2(k) == 2 * p;
      assert a * (2 * p) == 2 * (a * p);
    }
  }

  lemma {:induction false} ScaleCompose(a: nat, j: nat, k: nat)
    ensures Scale(a, j + k) == Scale(Scale(a, j), k)
  {
    if k > 0 {
      ScaleCompose(a, j, k - 1);
    }
  }

  lemma {:induction false} Pow2Monotone(j: nat, k: nat)
    requires j <= k
    ensures Pow2(j) <= Pow2(k)
  {
    if j < k {
      Pow2Monotone(j, k - 1);
    }
  }

  // ---- unsigned 32-bit operators on naturals ------------------------------------------------

  function BitOr(a: nat, b: nat): nat {
    if a == 0 && b == 0 then 0
    else 2 * BitOr(a / 2, b / 2) + (if a % 2 == 1 || b % 2 == 1 then 1 else 0)
  }

  function BitAnd(a: nat, b: nat): nat {
    if a == 0 || b == 0 then 0
    else 2 * BitAnd(a / 2, b / 2) + (if a % 2 == 1 && b % 2 == 1 then 1 else 0)
  }

  function Shl(a: nat, k: nat): nat {
    Scale(a, k) % U32
  }

  function Shr(a: nat, k: nat): nat
    decreases k, a
  {
    if k == 0 then a else Shr(a / 2, k - 1)
  }

  lemma {:induction false} OrZero(a: nat)
    ensures BitOr(a, 0) == a && BitOr(0, a) == a
  {
    if a != 0 {
      OrZero(a / 2);
    }
  }

  lemma OrDigit(h: nat, x: nat, g: nat, y: nat)
    requires x < 2 && y < 2
    ensures BitOr(2 * h + x, 2 * g + y) == 2 * BitOr(h, g) + (if x == 1 || y == 1 then 1 else 0)
  {
    var a, b := 2 * h + x, 2 * g + y;
    assert a / 2 == h && a % 2 == x && b / 2 == g && b % 2 == y;
  }

  /** Or of a shifted value with a value that fits below the shift is addition. */
  lemma {:induction false} OrDisjoint(a: nat, k: nat, b: nat)
    requires b < Pow2(k)
    ensures BitOr(Scale(a, k), b) == Scale(a, k) + b
  {
    if k == 0 {
      OrZero(a);
    } else {
      OrDisjoint(a, k - 1, b / 2);
      OrDigit(Scale(a, k - 1), 0, b / 2, b % 2);
    }
  }

  /** Shifting right drops the field below the shift. */
  lemma {:induction false} ShrField(top: nat, k: nat, bottom: nat)
    requires bottom < Pow2(k)
    ensures Shr(Scale(top, k) + bottom, k) == top
  {
    if k > 0 {
      assert (Scale(top, k) + bottom) / 2 == Scale(top, k - 1) + bottom / 2;
      ShrField(top, k - 1, bottom / 2);
    }
  }

  lemma {:induction false} AndZero(b: nat)
    ensures BitAnd(0, b) == 0 && BitAnd(b, 0) == 0
  {
  }

  lemma AndDigit(h: nat, x: nat, p: nat, y: nat)
    requires x < 2 && y < 2
    ensures BitAnd(2 * h + x, 2 * p + y) == 2 * BitAnd(h, p) + (if x == 1 && y == 1 then 1 else 0)
  {
    var a, b := 2 * h + x, 2 * p + y;
    assert a / 2 == h && a % 2 == x && b / 2 == p && b % 2 == y;
  }

  /** And with a mask of k ones keeps the k lowest bits. */
  lemma {:induction false} AndField(top: nat, k: nat, bottom: nat)
    requires bottom < Pow2(k)
    ensures BitAnd(Scale(top, k) + bottom, Pow2(k) - 1) == bottom
  {
    if k == 0 {
      AndZero(top);
    } else {
      var h, x := bottom / 2, bottom % 2;
      AndField(top, k - 1, h);
      AndDigit(Scale(top, k - 1) + h, x, Pow2(k - 1) - 1, 1);
      assert Scale(top, k) + bottom == 2 * (Scale(top, k - 1) + h) + x;
      assert Pow2(k) - 1 == 2 * (Pow2(k - 1) - 1) + 1;
    }
  }

  /** Quotient and remainder are determined by their equation. */
  lemma ModUnique(a: int, m: nat, q: int, r: nat)
    requires m > 0 && r < m && a == q * m + r
    ensures a % m == r && a / m == q
  {
    var d := a / m - q;
    assert d * m == r - a % m;
    MultipleBound(d, m);
  }

  lemma MultipleBound(d: int, m: nat)
    ensures d >= 1 ==> d * m >= m
    ensures d <= -1 ==> d * m + m <= 0
  {
  }

  lemma ModShift(a: int, k: int, m: nat)
    requires m > 0
    ensures (a + k * m) % m == a % m
  {
    ModUnique(a + k * m, m, a / m + k, a % m);
  }

  // ---- pack and unpack ------------------------------------------------------------------------

  datatype Packed = Packed(a: nat, b: nat)

  /** Marks an empty dictionary slot. */
  const EMPTY := Packed(U32 - 1, U32 - 1)

  /** What the assertions in `pack` demand. */
  predicate Packable(id: TileId) {
    id.zoom <= 29 && id.x < Pow2(id.zoom) && id.y < Pow2(id.zoom)
  }

  function Pack(id: TileId): Packed
    requires Packable(id)
  {
    Packed(BitOr(Shl(id.zoom, 27), Shr(id.x, 3)), BitOr(Shl(id.x, 29), id.y))
  }

  const LOW_27: nat := 0x7FF_FFFF
  const LOW_29: nat := 0x1FFF_FFFF

  function Unpack(p: Packed): TileId {
    TileId(Shr(p.a, 27), BitOr(Shl(BitAnd(p.a, LOW_27), 3), Shr(p.b, 29)), BitAnd(p.b, LOW_29))
  }

  lemma Times3(a: nat)
    ensures Scale(a, 3) == a * 8 && Pow2(3) == 8
  {
    assert Scale(a, 1) == a * 2;
  }

  lemma Times9(a: nat)
    ensures Scale(a, 9) == a * 512
  {
    ScaleCompose(a, 3, 3);
    ScaleCompose(a, 6, 3);
    Times3(a);
    Times3(a * 8);
    Times3(a * 64);
  }

  lemma ScaleBy27(a: nat)
    ensures Scale(a, 27) == a * 0x800_0000
  {
    ScaleCompose(a, 9, 9);
    ScaleCompose(a, 18, 9);
    Times9(a);
    Times9(a * 0x200);
    Times9(a * 0x4_0000);
  }

  lemma Times27(a: nat)
    ensures Scale(a, 27) == a * 0x800_0000 && Pow2(27) == 0x800_0000
  {
    ScaleBy27(a);
    ScaleBy27(1);
  }

  lemma ScaleBy29(a: nat)
    ensures Scale(a, 29) == a * 0x2000_0000
  {
    ScaleBy27(a);
    assert Scale(a, 28) == a * 0x1000_0000;
  }

  lemma Times29(a: nat)
    ensures Scale(a, 29) == a * 0x2000_0000 && Pow2(29) == 0x2000_0000
  {
    ScaleBy29(a);
    ScaleBy29(1);
  }

  lemma PackArithmetic(id: TileId)
    requires Packable(id)
    ensures id.x < 0x2000_0000 && id.y < 0x2000_0000
    ensures Pack(id) == Packed(id.zoom * 0x800_0000 + id.x / 8, id.x % 8 * 0x2000_0000 + id.y)
  {
    Pow2Monotone(id.zoom, 29);
    Times29(0);
    PackFirstWord(id.zoom, id.x / 8, id.x % 8);
    PackSecondWord(id.x / 8, id.x % 8, id.y);
    assert id.x == id.x / 8 * 8 + id.x % 8;
  }

  lemma PackFirstWord(zoom: nat, high: nat, low: nat)
    requires zoom <= 29 && high < 0x800_0000 && low < 8
    ensures BitOr(Shl(zoom, 27), Shr(high * 8 + low, 3)) == zoom * 0x800_0000 + high
  {
    Untruncated(zoom);
    Times3(high);
    ShrField(high, 3, low);
    Times27(zoom);
    OrDisjoint(zoom, 27, high);
  }

  lemma Untruncated(zoom: nat)
    requires zoom <= 29
    ensures Shl(zoom, 27) == Scale(zoom, 27)
  {
    Times27(zoom);
    ModUnique(zoom * 0x800_0000, U32, 0, zoom * 0x800_0000);
  }

  lemma PackSecondWord(high: nat, low: nat, y: nat)
    requires low < 8 && y < 0x2000_0000
    ensures BitOr(Shl(high * 8 + low, 29), y) == low * 0x2000_0000 + y
  {
    TruncatedShift(high, low);
    Times29(0);
    OrDisjoint(low, 29, y);
  }

  lemma TruncatedShift(high: nat, low: nat)
    requires low < 8
    ensures Shl(high * 8 + low, 29) == Scale(low, 29) == low * 0x2000_0000
  {
    Times29(high * 8 + low);
    Times29(low);
    ModUnique((high * 8 + low) * 0x2000_0000, U32, high, low * 0x2000_0000);
  }

  /** Packing loses nothing: unpacking a packed id gives the id back. */
  lemma UnpackPack(id: TileId)
    requires Packable(id)
    ensures Unpack(Pack(id)) == id
  {
    PackArithmetic(id);
    UnpackFields(id.zoom, id.x / 8, id.x % 8, id.y);
    assert id.x == id.x / 8 * 8 + id.x % 8;
  }

  lemma UnpackFields(zoom: nat, high: nat, low: nat, y: nat)
    requires high < 0x800_0000 && low < 8 && y < 0x2000_0000 && high * 8 < U32
    ensures Unpack(Packed(zoom * 0x800_0000 + high, low * 0x2000_0000 + y)) == TileId(zoom, high * 8 + low, y)
  {
    UnpackZoomY(zoom, high, low, y);
    UnpackX(zoom, high, low, y);
  }

  lemma UnpackZoomY(zoom: nat, high: nat, low: nat, y: nat)
    requires high < 0x800_0000 && y < 0x2000_0000
    ensures Unpack(Packed(zoom * 0x800_0000 + high, low * 0x2000_0000 + y)).zoom == zoom
    ensures Unpack(Packed(zoom * 0x800_0000 + high, low * 0x2000_0000 + y)).y == y
  {
    FirstWord(zoom, high);
    SecondWord(low, y);
  }

  lemma UnpackX(zoom: nat, high: nat, low: nat, y: nat)
    requires high < 0x800_0000 && low < 8 && y < 0x2000_0000
    requires high * 8 < U32
    ensures Unpack(Packed(zoom * 0x800_0000 + high, low * 0x2000_0000 + y)).x == high * 8 + low
  {
    FirstWord(zoom, high);
    SecondWord(low, y);
    ShiftUp(high, low);
  }

  lemma FirstWord(zoom: nat, high: nat)
    requires high < 0x800_0000
    ensures Shr(zoom * 0x800_0000 + high, 27) == zoom
    ensures BitAnd(zoom * 0x800_0000 + high, LOW_27) == high
  {
    Times27(zoom);
    ShrField(zoom, 27, high);
    AndField(zoom, 27, high);
  }

  lemma SecondWord(low: nat, y: nat)
    requires y < 0x2000_0000
    ensures Shr(low * 0x2000_0000 + y, 29) == low
    ensures BitAnd(low * 0x2000_0000 + y, LOW_29) == y
  {
    Times29(low);
    ShrField(low, 29, y);
    AndField(low, 29, y);
  }

  lemma ShiftUp(high: nat, low: nat)
    requires low < 8 && high * 8 < U32
    ensures BitOr(Shl(high, 3), low) == high * 8 + low
  {
    Times3(high);
    ModUnique(high * 8, U32, 0, high * 8);
    OrDisjoint(high, 3, low);
  }

  /** Two different ids never share a packed form, and no packed id is the empty marker. */
  lemma PackInjective(a: TileId, b: TileId)
    requires Packable(a) && Packable(b)
    ensures Pack(a) == Pack(b) ==> a == b
    ensures Pack(a) != EMPTY
  {
    UnpackPack(a);
    UnpackPack(b);
    PackArithmetic(a);
  }

  // ---- hash -----------------------------------------------------------------------------------

  /** One coordinate's contribution: every product and sum is truncated to 16 bits. */
  function HashTerm(v: nat, factor: nat, offset: nat): (h: nat)
    ensures h < U16
  {
    (v % U16 * factor + offset) % U16
  }

  function Hash(id: TileId): (h: nat)
    ensures h < U16
  {
    (HashTerm(id.x, 60197, 12253) + HashTerm(id.y, 62117, 59119) + HashTerm(id.zoom, 46965, 10859)) % U16
  }

  /** a and b agree modulo 2^16. */
  ghost predicate Congruent(a: int, b: int) {
    exists k: int :: a == b + k * U16
  }

  lemma CongruentMod(a: int)
    ensures Congruent(a % U16, a)
  {
    assert a % U16 == a + -(a / U16) * U16;
  }

  lemma CongruentSum(a: int, b: int, c: int, d: int)
    requires Congruent(a, b) && Congruent(c, d)
    ensures Congruent(a + c, b + d)
  {
    var k: int :| a == b + k * U16;
    var l: int :| c == d + l * U16;
    assert a + c == b + d + (k + l) * U16;
  }

  lemma CongruentTwice(a: int, b: int, c: int)
    requires Congruent(a, b) && Congruent(b, c)
    ensures Congruent(a, c)
  {
    var k: int :| a == b + k * U16;
    var l: int :| b == c + l * U16;
    assert a == c + (k + l) * U16;
  }

  lemma CongruentUnique(r: nat, a: int)
    requires r < U16 && Congruent(r, a)
    ensures r == a % U16
  {
    var k: int :| r == a + k * U16;
    ModUnique(a, U16, -k, r);
  }

  lemma TermCongruent(v: nat, factor: nat, offset: nat)
    ensures Congruent(HashTerm(v, factor, offset), v * factor + offset)
  {
    var w := v % U16 * factor + offset;
    CongruentMod(w);
    assert w == v * factor + offset + -(v / U16 * factor) * U16 by {
      assert v == v / U16 * U16 + v % U16;
      assert v * factor == v / U16 * U16 * factor + v % U16 * factor;
    }
    assert Congruent(w, v * factor + offset);
    CongruentTwice(HashTerm(v, factor, offset), w, v * factor + offset);
  }

  /** The hash is the 16-bit remainder of one affine form: where the arithmetic truncates on the way does not matter. */
  lemma HashAffine(id: TileId)
    ensures Hash(id) == (id.zoom * (4 * 199 * 59 + 1) + id.x * (4 * 149 * 101 + 1) + id.y * (4 * 293 * 53 + 1)
                         + 10859 + 12253 + 59119) % U16
  {
    var x, y := HashTerm(id.x, 60197, 12253), HashTerm(id.y, 62117, 59119);
    var z := HashTerm(id.zoom, 46965, 10859);
    TermCongruent(id.x, 60197, 12253);
    TermCongruent(id.y, 62117, 59119);
    TermCongruent(id.zoom, 46965, 10859);
    CongruentSum(x, id.x * 60197 + 12253, y, id.y * 62117 + 59119);
    CongruentSum(x + y, id.x * 60197 + 12253 + (id.y * 62117 + 59119), z, id.zoom * 46965 + 10859);
    CongruentMod(x + y + z);
    var sum := id.x * 60197 + 12253 + (id.y * 62117 + 59119) + (id.zoom * 46965 + 10859);
    CongruentTwice(Hash(id), x + y + z, sum);
    CongruentUnique(Hash(id), sum);
  }

  /** The x coordinate (modulo 2^16) that produces a given hash, for fixed zoom and y; 14509 inverts 60197. */
  function HashInverseX(zoom: nat, y: nat, h: nat): (x: nat)
    ensures x < U16
  {
    (h - Hash(TileId(zoom, 0, y))) % U16 * 14509 % U16
  }

  lemma HashLinear(id: TileId)
    ensures Hash(id) == (Hash(TileId(id.zoom, 0, id.y)) + id.x % U16 * 60197) % U16
  {
    assert HashTerm(0, 60197, 12253) == 12253;
    Reassociate(id.x % U16 * 60197, HashTerm(id.y, 62117, 59119) + HashTerm(id.zoom, 46965, 10859));
  }

  lemma Reassociate(w: nat, s: nat)
    ensures ((w + 12253) % U16 + s) % U16 == ((12253 + s) % U16 + w) % U16
  {
    var p, q := (w + 12253) / U16, (12253 + s) / U16;
    ModShift(w + 12253 + s, -p, U16);
    ModShift(w + 12253 + s, -q, U16);
  }

  /** For fixed zoom and y the hash is a bijection in x modulo 2^16. */
  lemma HashBijectiveInX(zoom: nat, y: nat, x: nat, h: nat)
    requires h < U16
    ensures Hash(TileId(zoom, x, y)) == h <==> x % U16 == HashInverseX(zoom, y, h)
  {
    var c := Hash(TileId(zoom, 0, y));
    var m, d := x % U16, (h - c) % U16;
    HashLinear(TileId(zoom, x, y));
    Solve(c, m * 60197, h);
    InverseCancels(m, 60197, 14509);
    InverseCancels(d, 14509, 60197);
  }

  lemma Solve(c: nat, w: nat, h: nat)
    requires h < U16
    ensures (c + w) % U16 == h <==> w % U16 == (h - c) % U16
  {
    if (c + w) % U16 == h {
      ModUnique(h - c, U16, w / U16 - (c + w) / U16, w % U16);
    }
    if w % U16 == (h - c) % U16 {
      ModUnique(c + w, U16, w / U16 - (h - c) / U16, h);
    }
  }

  /** Multiplying by f and then by its inverse g gives the residue back. */
  lemma InverseCancels(m: nat, f: nat, g: nat)
    requires m < U16 && f * g == 13327 * U16 + 1
    ensures m * f % U16 * g % U16 == m
  {
    var q := m * f / U16;
    assert m * f % U16 == m * f - q * U16;
    calc {
      m * f % U16 * g;
      (m * f - q * U16) * g;
      m * (f * g) - q * g * U16;
      m * 13327 * U16 + m - q * g * U16;
      m + (m * 13327 - q * g) * U16;
    }
    ModShift(m, m * 13327 - q * g, U16);
  }

  // ---- overlap --------------------------------------------------------------------------------

  method Overlap(a: TileId, b: TileId) returns (result: bool)
    ensures result <==> Covers(a, b) || Covers(b, a)
  {
    var smallerZoomTile := if a.zoom < b.zoom then a else b;
    var other := if a.zoom >= b.zoom then a else b;
    ghost var finer := other;
    while other.zoom != smallerZoomTile.zoom
      invariant other.zoom >= smallerZoomTile.zoom
      invariant Covers(smallerZoomTile, finer) <==> Covers(smallerZoomTile, other)
      decreases other.zoom - smallerZoomTile.zoom
    {
      other := TileId(other.zoom - 1, other.x / 2, other.y / 2);
    }
    result := smallerZoomTile == other;
    if Covers(finer, smallerZoomTile) {
      CoversZoom(finer, smallerZoomTile);
    }
  }

  /** The half-open spans [Scale(u, j), Scale(u + 1, j)) and [Scale(v, k), Scale(v + 1, k)) share a number. */
  ghost predicate SpansMeet(u: nat, j: nat, v: nat, k: nat) {
    Scale(u, j) < Scale(v + 1, k) && Scale(v, k) < Scale(u + 1, j)
  }

  /** The squares that `a` and `b` occupy in the tile grid of zoom `z` share a tile. */
  ghost predicate FootprintsMeet(a: TileId, b: TileId, z: nat)
    requires a.zoom <= z && b.zoom <= z
  {
    && SpansMeet(a.x, z - a.zoom, b.x, z - b.zoom)
    && SpansMeet(a.y, z - a.zoom, b.y, z - b.zoom)
  }

  lemma {:induction false} ScaleMonotone(a: nat, b: nat, k: nat)
    ensures a < b <==> Scale(a, k) < Scale(b, k)
  {
    if k > 0 {
      ScaleMonotone(a, b, k - 1);
    }
  }

  /** Spans of two zoom levels, measured in the finer one. */
  lemma SpanMeasured(u: nat, d: nat, v: nat, k: nat)
    ensures SpansMeet(u, d + k, v, k) <==> Scale(u, d) < v + 1 && v < Scale(u + 1, d)
  {
    ScaleCompose(u, d, k);
    ScaleCompose(u + 1, d, k);
    ScaleMonotone(Scale(u, d), v + 1, k);
    ScaleMonotone(v, Scale(u + 1, d), k);
  }

  /** Seen from a coarser span, a span meets it exactly when its parent does. */
  lemma ParentSpanMeets(u: nat, j: nat, v: nat, k: nat)
    requires j > k
    ensures SpansMeet(u, j, v, k) <==> SpansMeet(u, j, v / 2, k + 1)
  {
    var d := j - k;
    SpanMeasured(u, d, v, k);
    SpanMeasured(u, d - 1, v / 2, k + 1);
    assert Scale(u, d) == 2 * Scale(u, d - 1) && Scale(u + 1, d) == 2 * Scale(u + 1, d - 1);
  }

  lemma SameSpanMeets(u: nat, v: nat, k: nat)
    ensures SpansMeet(u, k, v, k) <==> u == v
  {
    SpanMeasured(u, 0, v, k);
  }

  lemma ParentFootprintMeets(a: TileId, b: TileId, z: nat)
    requires a.zoom < b.zoom <= z
    ensures FootprintsMeet(a, b, z) <==> FootprintsMeet(a, Parent(b), z)
  {
    ParentSpanMeets(a.x, z - a.zoom, b.x, z - b.zoom);
    ParentSpanMeets(a.y, z - a.zoom, b.y, z - b.zoom);
  }

  lemma {:induction false} CoarserMeets(a: TileId, b: TileId, z: nat)
    requires a.zoom <= b.zoom <= z
    ensures FootprintsMeet(a, b, z) <==> Covers(a, b)
    decreases b.zoom
  {
    if a.zoom == b.zoom {
      SameSpanMeets(a.x, b.x, z - a.zoom);
      SameSpanMeets(a.y, b.y, z - a.zoom);
    } else {
      ParentFootprintMeets(a, b, z);
      CoarserMeets(a, Parent(b), z);
    }
  }

  /** The overlap test decides whether the footprints meet, at every common finer zoom, and is symmetric. */
  lemma OverlapIsFootprint(a: TileId, b: TileId, z: nat)
    requires a.zoom <= z && b.zoom <= z
    ensures FootprintsMeet(a, b, z) <==> Covers(a, b) || Covers(b, a)
    ensures FootprintsMeet(a, b, z) <==> FootprintsMeet(b, a, z)
  {
    if a.zoom <= b.zoom {
      CoarserMeets(a, b, z);
      if Covers(b, a) {
        CoversZoom(b, a);
      }
    } else {
      CoarserMeets(b, a, z);
      if Covers(a, b) {
        CoversZoom(a, b);
      }
    }
  }

  /** Tiles below the root are the ones whose coordinates fit their zoom level, so they can be packed. */
  lemma {:induction false} BelowRoot(id: TileId)
    ensures Covers(ROOT, id) <==> id.x < Pow2(id.zoom) && id.y < Pow2(id.zoom)
    decreases id.zoom
  {
    if id.zoom > 0 {
      BelowRoot(Parent(id));
    }
  }
}
