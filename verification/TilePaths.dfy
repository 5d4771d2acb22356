/**
 Tile keys: parsing them from a request, and the names derived from them.

 The cache file, its temporary file and the in-flight key of a tile are strings; the results here
 say that no two of them ever coincide for distinct tiles.
 */
module TilePaths {
  import opened Options

  datatype Key = Key(z: nat, x: nat, y: nat)

  const MIN_ZOOM := 0
  const MAX_NATIVE_ZOOM := 19

  // ---------------------------------------------------------------- decimal numerals

  predicate IsDigit(c: char) {
    '0' <= c <= '9'
  }

  predicate AllDigits(s: string) {
    forall i :: 0 <= i < |s| ==> IsDigit(s[i])
  }

  function Digit(n: nat): (c: char)
    requires n < 10
    ensures IsDigit(c) && c as nat - '0' as nat == n
  {
    "0123456789"[n]
  }

  /** FormatUint in base 10. */
  function Decimal(n: nat): string {
    if n < 10 then [Digit(n)] else Decimal(n / 10) + [Digit(n % 10)]
  }

  function Value(s: string): nat
    requires AllDigits(s)
  {
    if s == "" then 0 else 10 * Value(s[..|s| - 1]) + (s[|s| - 1] as nat - '0' as nat)
  }

  /** ParseUint in base 10: an error for an empty text, a non-digit, or a value of `limit` or more. */
  function ParseUint(s: string, limit: nat): Option<nat> {
    if s == "" || !AllDigits(s) || Value(s) >= limit then None else Some(Value(s))
  }

  lemma {:induction false} DecimalValue(n: nat)
    ensures Decimal(n) != "" && AllDigits(Decimal(n)) && Value(Decimal(n)) == n
  {
    if n < 10 {
      assert [Digit(n)][..0] == "";
    } else {
      DecimalValue(n / 10);
      assert Decimal(n)[..|Decimal(n)| - 1] == Decimal(n / 10);
    }
  }

  lemma DecimalInjective(m: nat, n: nat)
    requires Decimal(m) == Decimal(n)
    ensures m == n
  {
    DecimalValue(m);
    DecimalValue(n);
  }

  // ---------------------------------------------------------------- requests

  function Edge(z: nat): nat {
    if z == 0 then 1 else 2 * Edge(z - 1)
  }

  function ParseTileRequest(z: string, x: string, y: string): Option<Key> {
    match (ParseUint(z, 0x100), ParseUint(x, 0x1_0000_0000), ParseUint(y, 0x1_0000_0000))
    case (Some(zv), Some(xv), Some(yv)) =>
      if zv < MIN_ZOOM || zv > MAX_NATIVE_ZOOM || xv >= Edge(zv) || yv >= Edge(zv) then None else Some(Key(zv, xv, yv))
    case (_, _, _) => None
  }

  predicate OnMap(k: Key) {
    k.z <= MAX_NATIVE_ZOOM && k.x < Edge(k.z) && k.y < Edge(k.z)
  }

  lemma {:induction false} EdgeMonotone(v: nat, w: nat)
    requires v <= w
    ensures 1 <= Edge(v) <= Edge(w)
    decreases w
  {
    if v < w {
      EdgeMonotone(v, w - 1);
    } else if v > 0 {
      EdgeMonotone(v - 1, v - 1);
    }
  }

  lemma EdgeAtMaxZoom()
    ensures Edge(MAX_NATIVE_ZOOM) == 524288
  {
    assert Edge(4) == 16;
    assert Edge(8) == 256;
    assert Edge(12) == 4096;
    assert Edge(16) == 65536;
  }

  /** Requests name exactly the tiles of the map: every key that parses is on it, and each key on it parses
      from its own decimal spelling. */
  lemma RequestsNameTheMap(k: Key, z: string, x: string, y: string)
    ensures ParseTileRequest(z, x, y) == Some(k) ==> OnMap(k)
    ensures OnMap(k) ==> ParseTileRequest(Decimal(k.z), Decimal(k.x), Decimal(k.y)) == Some(k)
  {
    hide Value, AllDigits, Decimal, Edge;
    if OnMap(k) {
      DecimalValue(k.z);
      DecimalValue(k.x);
      DecimalValue(k.y);
      EdgeMonotone(k.z, MAX_NATIVE_ZOOM);
      EdgeAtMaxZoom();
    }
  }

  // ---------------------------------------------------------------- names

  function TileKeyString(k: Key): string {
    Decimal(k.z) + "/" + Decimal(k.x) + "/" + Decimal(k.y)
  }

  /** The cache file of a tile under a clean directory path. */
  function CachePath(dir: string, k: Key): string {
    dir + "/" + TileKeyString(k) + ".png"
  }

  function TempPath(dir: string, k: Key): string {
    CachePath(dir, k) + ".tmp"
  }

  lemma {:induction false} SplitAtSlash(a: string, s: string, b: string, t: string)
    requires AllDigits(a) && AllDigits(b) && a + "/" + s == b + "/" + t
    ensures a == b && s == t
  {
    var u, v := a + "/" + s, b + "/" + t;
    assert u[0] == (if a == "" then '/' else a[0]);
    assert v[0] == (if b == "" then '/' else b[0]);
    assert (a == "") == (b == "");
    if a == "" {
      assert u[1..] == s && v[1..] == t;
    } else {
      assert u[1..] == a[1..] + "/" + s && v[1..] == b[1..] + "/" + t;
      SplitAtSlash(a[1..], s, b[1..], t);
      assert a == [a[0]] + a[1..] && b == [b[0]] + b[1..];
    }
  }

  lemma TileKeyStringInjective(k: Key, l: Key)
    requires TileKeyString(k) == TileKeyString(l)
    ensures k == l
  {
    hide Decimal, AllDigits, Value;
    DecimalValue(k.z);
    DecimalValue(k.x);
    DecimalValue(l.z);
    DecimalValue(l.x);
    var kRest, lRest := Decimal(k.x) + "/" + Decimal(k.y), Decimal(l.x) + "/" + Decimal(l.y);
    assert Decimal(k.z) + "/" + kRest == TileKeyString(k) == TileKeyString(l) == Decimal(l.z) + "/" + lRest;
    SplitAtSlash(Decimal(k.z), kRest, Decimal(l.z), lRest);
    SplitAtSlash(Decimal(k.x), Decimal(k.y), Decimal(l.x), Decimal(l.y));
    DecimalInjective(k.z, l.z);
    DecimalInjective(k.x, l.x);
    DecimalInjective(k.y, l.y);
  }

  lemma Framed(prefix: string, a: string, b: string, suffix: string)
    requires prefix + a + suffix == prefix + b + suffix
    ensures a == b
  {
    var u := prefix + a + suffix;
    assert |a| == |b|;
    assert u[|prefix|..|prefix| + |a|] == a;
    assert (prefix + b + suffix)[|prefix|..|prefix| + |b|] == b;
  }

  lemma CachePathInjective(dir: string, k: Key, l: Key)
    requires CachePath(dir, k) == CachePath(dir, l)
    ensures k == l
  {
    hide TileKeyString;
    Framed(dir + "/", TileKeyString(k), TileKeyString(l), ".png");
    TileKeyStringInjective(k, l);
  }

  /** Distinct tiles have distinct in-flight keys, cache files and temporary files, and a temporary file is
      never a cache file, under any cache directory. */
  lemma NamesApart(dir: string)
    ensures forall k, l :: TileKeyString(k) == TileKeyString(l) ==> k == l
    ensures forall k, l :: CachePath(dir, k) == CachePath(dir, l) ==> k == l
    ensures forall k, l :: TempPath(dir, k) == TempPath(dir, l) ==> k == l
    ensures forall k, l :: TempPath(dir, k) != CachePath(dir, l)
  {
    hide TileKeyString, CachePath;
    forall k, l | TileKeyString(k) == TileKeyString(l)
      ensures k == l
    {
      TileKeyStringInjective(k, l);
    }
    forall k, l | CachePath(dir, k) == CachePath(dir, l)
      ensures k == l
    {
      CachePathInjective(dir, k, l);
    }
    forall k, l | TempPath(dir, k) == TempPath(dir, l)
      ensures k == l
    {
      var a, b := CachePath(dir, k), CachePath(dir, l);
      assert "" + a + ".tmp" == a + ".tmp" && "" + b + ".tmp" == b + ".tmp";
      Framed("", a, b, ".tmp");
      CachePathInjective(dir, k, l);
    }
    forall k, l
      ensures TempPath(dir, k) != CachePath(dir, l)
    {
      EndsDiffer(dir, k, l);
    }
  }

  lemma EndsDiffer(dir: string, k: Key, l: Key)
    ensures TempPath(dir, k) != CachePath(dir, l)
  {
    hide TileKeyString;
    var u, v := TempPath(dir, k), CachePath(dir, l);
    assert u[|u| - 1] == 'p' && v[|v| - 1] == 'g';
  }
}
