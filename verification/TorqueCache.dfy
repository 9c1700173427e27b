/** The binary cache of the torque learner: what is written is what a later start reads back. How a float
    becomes four bytes is left to a codec; a number is representable when it survives the trip. */
module TorqueCache {
  import opened BitFields
  import opened Rings
  import opened TorqueBuckets

  const MAGIC: seq<Byte> := [75, 50, 51, 48, 84, 81, 67, 49]
  const VERSION := 1
  const HEADER := 41

  datatype Codec = Codec(encode: real -> seq<Byte>, decode: seq<Byte> -> real)

  ghost predicate FourBytes(c: Codec) {
    forall x :: |c.encode(x)| == 4
  }

  function Stored(c: Codec, x: real): real { c.decode(c.encode(x)) }

  ghost predicate Representable(c: Codec, p: Point) { Stored(c, p.x) == p.x && Stored(c, p.y) == p.y }

  datatype Tuning = Tuning(latAccelFactor: real, friction: real)

  datatype Params = Params(valid: bool, latAccelFactor: real, latAccelOffset: real, friction: real, decay: real)

  datatype Restored =
    | Corrupt
    | KeyMismatch
    | Restored(params: Params, points: seq<Point>)

  // ---- The format

  /** A 32-bit word, low byte first. */
  function Word(n: nat): (b: seq<Byte>)
    ensures |b| == 4
  {
    [n % 256, n / 256 % 256, n / 65536 % 256, n / 16777216 % 256]
  }

  function WordOf(b: seq<Byte>): nat
    requires |b| == 4
  {
    b[0] as int + 256 * b[1] as int + 65536 * b[2] as int + 16777216 * b[3] as int
  }

  lemma WordRoundTrip(n: nat)
    requires n < 0x1_0000_0000
    ensures WordOf(Word(n)) == n
  {
    var (a, b, c) := (n / 256, n / 65536, n / 16777216);
    assert n == 256 * a + n % 256;
    assert b == a / 256 && a == 256 * b + a % 256;
    assert c == b / 256 && b == 256 * c + b % 256;
    assert c == c % 256;
  }

  function PointBytes(c: Codec, ps: seq<Point>): (b: seq<Byte>)
    requires FourBytes(c)
    ensures |b| == 8 * |ps|
    decreases |ps|
  {
    if ps == [] then []
    else PointBytes(c, ps[..|ps| - 1]) + c.encode(ps[|ps| - 1].x) + c.encode(ps[|ps| - 1].y)
  }

  function Header(c: Codec, tuning: Tuning, p: Params, n: nat): (b: seq<Byte>)
    requires FourBytes(c)
    ensures |b| == HEADER
  {
    MAGIC + Word(VERSION) + c.encode(tuning.friction) + c.encode(tuning.latAccelFactor)
    + [if p.valid then 1 else 0]
    + c.encode(p.latAccelFactor) + c.encode(p.latAccelOffset) + c.encode(p.friction) + c.encode(p.decay)
    + Word(n)
  }

  function Cache(c: Codec, tuning: Tuning, p: Params, ps: seq<Point>): (b: seq<Byte>)
    requires FourBytes(c)
  {
    Header(c, tuning, p, |ps|) + PointBytes(c, ps)
  }

  /** The points in the last n * 8 bytes of a cache. */
  function PointsAt(c: Codec, b: seq<Byte>, pos: nat, n: nat): (ps: seq<Point>)
    requires pos + 8 * n <= |b|
    ensures |ps| == n
  {
    if n == 0 then []
    else
      var at := pos + 8 * (n - 1);
      PointsAt(c, b, pos, n - 1) + [Point(c.decode(b[at..at + 4]), c.decode(b[at + 4..at + 8]))]
  }

  /** A cache is well formed when it starts with the magic and is exactly as long as its count says. */
  predicate WellFormed(b: seq<Byte>) {
    |b| >= HEADER && b[..8] == MAGIC && |b| == HEADER + 8 * WordOf(b[37..41])
  }

  predicate KeyMatches(c: Codec, tuning: Tuning, b: seq<Byte>)
    requires |b| >= HEADER
  {
    && WordOf(b[8..12]) == VERSION
    && c.decode(b[12..16]) == Stored(c, tuning.friction)
    && c.decode(b[16..20]) == Stored(c, tuning.latAccelFactor)
  }

  function Parse(c: Codec, tuning: Tuning, b: seq<Byte>): Restored {
    if !WellFormed(b) then Corrupt
    else if !KeyMatches(c, tuning, b) then KeyMismatch
    else Restored(
      Params(b[20] != 0, c.decode(b[21..25]), c.decode(b[25..29]), c.decode(b[29..33]), c.decode(b[33..37])),
      PointsAt(c, b, HEADER, WordOf(b[37..41])))
  }

  // ---- The round trip

  function StoredPoints(c: Codec, ps: seq<Point>): (r: seq<Point>)
    ensures |r| == |ps|
  {
    seq(|ps|, i requires 0 <= i < |ps| => Point(Stored(c, ps[i].x), Stored(c, ps[i].y)))
  }

  lemma Part(b: seq<Byte>, pos: nat, bytes: seq<Byte>, i: nat, j: nat)
    requires i <= j <= |bytes| && pos + |bytes| <= |b| && b[pos..pos + |bytes|] == bytes
    ensures b[pos + i..pos + j] == bytes[i..j]
  {
    forall k | 0 <= k < |bytes| ensures b[pos + k] == bytes[k] {
      assert b[pos..pos + |bytes|][k] == bytes[k];
    }
  }

  lemma {:induction false} PointsReadBack(c: Codec, b: seq<Byte>, pos: nat, ps: seq<Point>)
    requires FourBytes(c) && pos + 8 * |ps| <= |b| && b[pos..pos + 8 * |ps|] == PointBytes(c, ps)
    ensures PointsAt(c, b, pos, |ps|) == StoredPoints(c, ps)
    decreases |ps|
  {
    if ps != [] {
      var (rest, p, n) := (ps[..|ps| - 1], ps[|ps| - 1], |ps| - 1);
      var bytes := PointBytes(c, ps);
      LastPoint(c, ps);
      Part(b, pos, bytes, 0, 8 * n);
      Part(b, pos, bytes, 8 * n, 8 * n + 4);
      Part(b, pos, bytes, 8 * n + 4, 8 * n + 8);
      hide PointBytes;
      PointsReadBack(c, b, pos, rest);
      assert PointsAt(c, b, pos, n + 1) == PointsAt(c, b, pos, n) + [Point(Stored(c, p.x), Stored(c, p.y))];
    }
  }

  lemma LastPoint(c: Codec, ps: seq<Point>)
    requires FourBytes(c) && ps != []
    ensures var (bytes, n, p) := (PointBytes(c, ps), |ps| - 1, ps[|ps| - 1]);
            && bytes[0..8 * n] == PointBytes(c, ps[..n])
            && bytes[8 * n..8 * n + 4] == c.encode(p.x) && bytes[8 * n + 4..8 * n + 8] == c.encode(p.y)
  {
    hide PointBytes;
    var (rest, p) := (PointBytes(c, ps[..|ps| - 1]), ps[|ps| - 1]);
    PointBytesEnd(c, ps);
    ThreeParts(rest, c.encode(p.x), c.encode(p.y));
  }

  lemma PointBytesEnd(c: Codec, ps: seq<Point>)
    requires FourBytes(c) && ps != []
    ensures PointBytes(c, ps)
         == PointBytes(c, ps[..|ps| - 1]) + c.encode(ps[|ps| - 1].x) + c.encode(ps[|ps| - 1].y)
  {}

  lemma ThreeParts(a: seq<Byte>, b: seq<Byte>, c: seq<Byte>)
    requires |b| == |c| == 4
    ensures var all := a + b + c;
            all[0..|a|] == a && all[|a|..|a| + 4] == b && all[|a| + 4..|a| + 8] == c
  {}

  lemma HeaderReadsBack(c: Codec, tuning: Tuning, p: Params, n: nat, h: seq<Byte>)
    requires FourBytes(c) && h == Header(c, tuning, p, n)
    ensures h[..8] == MAGIC && h[8..12] == Word(VERSION)
    ensures h[12..16] == c.encode(tuning.friction) && h[16..20] == c.encode(tuning.latAccelFactor)
    ensures h[20] == if p.valid then 1 else 0
    ensures h[21..25] == c.encode(p.latAccelFactor) && h[25..29] == c.encode(p.latAccelOffset)
    ensures h[29..33] == c.encode(p.friction) && h[33..37] == c.encode(p.decay)
    ensures h[37..41] == Word(n)
  {}

  function StoredParams(c: Codec, p: Params): Params {
    Params(p.valid, Stored(c, p.latAccelFactor), Stored(c, p.latAccelOffset), Stored(c, p.friction), Stored(c, p.decay))
  }

  /** Reading back what was written under the same tuning gives every value and point as stored. */
  lemma ParseUndoesCache(c: Codec, tuning: Tuning, p: Params, ps: seq<Point>)
    requires FourBytes(c) && |ps| < 0x1_0000_0000
    ensures Parse(c, tuning, Cache(c, tuning, p, ps)) == Restored(StoredParams(c, p), StoredPoints(c, ps))
  {
    var (h, b) := (Header(c, tuning, p, |ps|), Cache(c, tuning, p, ps));
    HeaderReadsBack(c, tuning, p, |ps|, h);
    WordRoundTrip(|ps|);
    WordRoundTrip(VERSION);
    hide Header, PointBytes, Word, WordOf;
    forall i, j | 0 <= i <= j <= HEADER ensures b[i..j] == h[i..j] {}
    assert b[HEADER..HEADER + 8 * |ps|] == PointBytes(c, ps);
    PointsReadBack(c, b, HEADER, ps);
  }

  /** A cache written under one tuning is taken under another exactly when both store the same key. */
  lemma TakenUnderSameKey(c: Codec, tuning: Tuning, other: Tuning, p: Params, ps: seq<Point>)
    requires FourBytes(c) && |ps| < 0x1_0000_0000
    ensures Parse(c, other, Cache(c, tuning, p, ps)) ==
            if Stored(c, other.friction) == Stored(c, tuning.friction)
               && Stored(c, other.latAccelFactor) == Stored(c, tuning.latAccelFactor)
            then Restored(StoredParams(c, p), StoredPoints(c, ps))
            else KeyMismatch
  {
    hide Cache, PointsAt, WordOf, PointBytes;
    ParseUndoesCache(c, tuning, p, ps);
    KeyIsStored(c, tuning, p, ps);
  }

  lemma KeyIsStored(c: Codec, tuning: Tuning, p: Params, ps: seq<Point>)
    requires FourBytes(c)
    ensures var b := Cache(c, tuning, p, ps);
            && |b| >= HEADER && b[..8] == MAGIC && b[8..12] == Word(VERSION) && b[37..41] == Word(|ps|)
            && b[12..16] == c.encode(tuning.friction) && b[16..20] == c.encode(tuning.latAccelFactor)
  {
    var (h, b) := (Header(c, tuning, p, |ps|), Cache(c, tuning, p, ps));
    HeaderReadsBack(c, tuning, p, |ps|, h);
    hide Header, PointBytes, Word;
    forall i, j | 0 <= i <= j <= HEADER ensures b[i..j] == h[i..j] {}
  }

  lemma WordsDiffer(a: seq<Byte>, b: seq<Byte>)
    requires |a| == |b| == 4 && a != b
    ensures WordOf(a) != WordOf(b)
  {
    if WordOf(a) == WordOf(b) {
      DigitsEqual(a[0], a[1], a[2], a[3], b[0], b[1], b[2], b[3]);
    }
  }

  lemma DigitsEqual(a: Byte, b: Byte, c: Byte, d: Byte, e: Byte, f: Byte, g: Byte, h: Byte)
    requires a as int + 256 * (b as int + 256 * (c as int + 256 * d as int))
          == e as int + 256 * (f as int + 256 * (g as int + 256 * h as int))
    ensures a == e && b == f && c == g && d == h
  {}

  lemma ChangedPart(b: seq<Byte>, at: nat, x: Byte, i: nat, j: nat)
    requires i <= j <= |b| && at < |b| && x != b[at]
    ensures b[at := x][i..j] == b[i..j] <==> !(i <= at < j)
  {
    var d := b[at := x];
    if i <= at < j { assert d[i..j][at - i] == x && b[i..j][at - i] == b[at]; }
  }

  /** One changed byte is noticed in the magic, the version and the count. */
  lemma DamagedHeadIsRefused(c: Codec, tuning: Tuning, p: Params, ps: seq<Point>, at: nat, x: Byte)
    requires FourBytes(c) && |ps| < 0x1_0000_0000 && at < HEADER && x != Cache(c, tuning, p, ps)[at]
    ensures var damaged := Parse(c, tuning, Cache(c, tuning, p, ps)[at := x]);
            && (at < 8 || at >= 37 ==> damaged == Corrupt)
            && (8 <= at < 12 ==> damaged == KeyMismatch)
  {
    var b := Cache(c, tuning, p, ps);
    KeyIsStored(c, tuning, p, ps);
    ParseUndoesCache(c, tuning, p, ps);
    hide Cache, PointsAt, WordOf, PointBytes, Word;
    ChangedPart(b, at, x, 0, 8);
    ChangedPart(b, at, x, 8, 12);
    ChangedPart(b, at, x, 37, 41);
    var d := b[at := x];
    if d[8..12] != b[8..12] { WordsDiffer(d[8..12], b[8..12]); }
    if d[37..41] != b[37..41] { WordsDiffer(d[37..41], b[37..41]); }
  }

  /** The buckets' contents after these additions, one list per bucket. */
  function KeptLists(added: seq<Point>): (lists: seq<seq<Point>>)
    ensures |lists| == BUCKETS
  {
    seq(BUCKETS, i requires 0 <= i < BUCKETS => Keep(CAPACITY, OfBucket(added, i)))
  }

  lemma {:induction false} FlattenSorts(lists: seq<seq<Point>>, n: nat, i: nat)
    requires n <= |lists| == BUCKETS && i < BUCKETS
    requires forall j | 0 <= j < BUCKETS :: forall p | p in lists[j] :: Within(j, p)
    ensures OfBucket(Flatten(lists[..n]), i) == if i < n then lists[i] else []
  {
    if n > 0 {
      FlattenSorts(lists, n - 1, i);
      FlattenPush(lists, n - 1);
      OfBucketAppend(Flatten(lists[..n - 1]), lists[n - 1], i);
      OfBucketOwn(lists[n - 1], i, n - 1);
    }
  }

  lemma {:induction false} FlattenSize(lists: seq<seq<Point>>, n: nat)
    requires n <= |lists| && forall j | 0 <= j < |lists| :: |lists[j]| <= CAPACITY
    ensures |Flatten(lists[..n])| <= n * CAPACITY
  {
    if n > 0 {
      FlattenPush(lists, n - 1);
      FlattenSize(lists, n - 1);
    }
  }

  lemma KeptWithin(added: seq<Point>, j: nat)
    requires j < BUCKETS
    ensures forall p | p in KeptLists(added)[j] :: Within(j, p)
  {
    var (all, kept) := (OfBucket(added, j), KeptLists(added)[j]);
    forall p | p in kept ensures p in all {
      var i :| 0 <= i < |kept| && kept[i] == p;
      assert kept[i] == all[|all| - |kept| + i];
    }
  }

  /** A restart loses nothing: the buckets written to the cache, read back under the same tuning into
      empty buckets, are the same sequences again when the points are representable. */
  lemma RestartRestores(c: Codec, tuning: Tuning, p: Params, added: seq<Point>)
    requires FourBytes(c)
    requires forall x | x in Flatten(KeptLists(added)) :: Representable(c, x)
    ensures var ps := Flatten(KeptLists(added));
            && Parse(c, tuning, Cache(c, tuning, p, ps)) == Restored(StoredParams(c, p), ps)
            && KeptLists(ps) == KeptLists(added)
  {
    var lists := KeptLists(added);
    var ps := Flatten(lists);
    assert lists[..BUCKETS] == lists;
    FlattenSize(lists, BUCKETS);
    ParseUndoesCache(c, tuning, p, ps);
    forall i | 0 <= i < |ps| ensures StoredPoints(c, ps)[i] == ps[i] { assert ps[i] in ps; }
    forall j | 0 <= j < BUCKETS ensures forall x | x in lists[j] :: Within(j, x) { KeptWithin(added, j); }
    forall i | 0 <= i < BUCKETS ensures KeptLists(ps)[i] == lists[i] {
      FlattenSorts(lists, BUCKETS, i);
    }
  }

  /** A cache cut short or run on is always noticed. */
  lemma TornCacheIsCorrupt(c: Codec, tuning: Tuning, whole: seq<Byte>, torn: seq<Byte>)
    requires WellFormed(whole) && torn != whole && (torn <= whole || whole <= torn)
    ensures Parse(c, tuning, torn) == Corrupt
  {
    if |torn| >= HEADER {
      assert torn[37..41] == whole[37..41];
    }
  }

  // ---- Writing and reading, byte by byte

  method Serialize(c: Codec, tuning: Tuning, p: Params, b: Buckets) returns (out: seq<Byte>)
    requires FourBytes(c) && b.Valid()
    ensures out == Cache(c, tuning, p, Flatten(KeptLists(b.added)))
  {
    var total := b.TotalPoints();
    var points := b.Points();
    CountsAddUp(b, BUCKETS);
    assert b.Lists() == KeptLists(b.added);
    hide Flatten, KeptLists;
    hide Header, PointBytes;
    var head := WriteHeader(c, tuning, p, total);
    out := WritePoints(c, head, points);
  }

  method WritePoints(c: Codec, head: seq<Byte>, points: seq<Point>) returns (out: seq<Byte>)
    requires FourBytes(c)
    ensures out == head + PointBytes(c, points)
  {
    out := head;
    for i := 0 to |points|
      invariant out == head + PointBytes(c, points[..i])
    {
      assert points[..i + 1][..i] == points[..i];
      out := out + c.encode(points[i].x);
      out := out + c.encode(points[i].y);
    }
    assert points[..|points|] == points;
  }

  method WriteHeader(c: Codec, tuning: Tuning, p: Params, total: nat) returns (out: seq<Byte>)
    requires FourBytes(c)
    ensures out == Header(c, tuning, p, total)
  {
    out := MAGIC + Word(VERSION);
    out := out + c.encode(tuning.friction);
    out := out + c.encode(tuning.latAccelFactor);
    out := out + [if p.valid then 1 else 0];
    out := out + c.encode(p.latAccelFactor);
    out := out + c.encode(p.latAccelOffset);
    out := out + c.encode(p.friction);
    out := out + c.encode(p.decay);
    out := out + Word(total);
  }

  lemma {:induction false} CountsAddUp(b: Buckets, n: nat)
    requires b.Shape() && n <= BUCKETS
    ensures Total(b.Counts()[..n]) == |Flatten(b.Lists()[..n])|
    ensures b.Counts()[..BUCKETS] == b.Counts() && b.Lists()[..BUCKETS] == b.Lists()
  {
    if n > 0 {
      CountsAddUp(b, n - 1);
      FlattenPush(b.Lists(), n - 1);
      assert b.Counts()[..n][..n - 1] == b.Counts()[..n - 1];
    }
  }

  /** Reads four bytes, if they are there. */
  method Take(b: seq<Byte>, pos: nat) returns (ok: bool, four: seq<Byte>, next: nat)
    ensures ok <==> pos + 4 <= |b|
    ensures if ok then four == b[pos..pos + 4] && next == pos + 4 else four == [0, 0, 0, 0] && next == pos
    ensures |four| == 4
  {
    if pos + 4 > |b| { return false, [0, 0, 0, 0], pos; }
    return true, b[pos..pos + 4], pos + 4;
  }

  datatype Status = WasCorrupt | HadOtherKey | WasRestored

  function StatusOf(r: Restored): Status {
    match r
    case Corrupt => WasCorrupt
    case KeyMismatch => HadOtherKey
    case Restored(_, _) => WasRestored
  }

  datatype Head = Head(
    version: seq<Byte>, keyFriction: seq<Byte>, keyFactor: seq<Byte>, valid: bool,
    factor: seq<Byte>, offset: seq<Byte>, friction: seq<Byte>, decay: seq<Byte>, count: seq<Byte>)

  function HeadOf(b: seq<Byte>): Head
    requires |b| >= HEADER
  {
    Head(b[8..12], b[12..16], b[16..20], b[20] != 0, b[21..25], b[25..29], b[29..33], b[33..37], b[37..41])
  }

  const NO_HEAD := Head([], [], [], false, [], [], [], [], [])

  method ReadHead(cache: seq<Byte>) returns (ok: bool, h: Head)
    ensures ok <==> |cache| >= HEADER && cache[..8] == MAGIC
    ensures ok ==> h == HeadOf(cache)
  {
    h := NO_HEAD;
    var pos: nat := 8;
    if |cache| < pos || cache[..8] != MAGIC { return false, h; }
    var version, keyFriction, keyFactor, factor, offset, friction, decay, count;
    ok, version, pos := Take(cache, pos);
    if !ok { return; }
    ok, keyFriction, pos := Take(cache, pos);
    if !ok { return; }
    ok, keyFactor, pos := Take(cache, pos);
    if !ok || pos + 1 > |cache| { return false, h; }
    var valid := cache[pos] != 0;
    pos := pos + 1;
    ok, factor, pos := Take(cache, pos);
    if !ok { return; }
    ok, offset, pos := Take(cache, pos);
    if !ok { return; }
    ok, friction, pos := Take(cache, pos);
    if !ok { return; }
    ok, decay, pos := Take(cache, pos);
    if !ok { return; }
    ok, count, pos := Take(cache, pos);
    if !ok { return; }
    h := Head(version, keyFriction, keyFactor, valid, factor, offset, friction, decay, count);
  }

  /** The points of an accepted cache enter the buckets one by one; a refused one changes nothing. */
  method Restore(c: Codec, tuning: Tuning, cache: seq<Byte>, b: Buckets) returns (status: Status, params: Params)
    requires FourBytes(c) && b.Valid()
    modifies b, b.rings, b.Slots()
    ensures b.Valid() && status == StatusOf(Parse(c, tuning, cache))
    ensures match Parse(c, tuning, cache)
            case Restored(p, ps) => params == p && b.added == old(b.added) + ps
            case _ => unchanged(b) && unchanged(b.rings) && unchanged(b.Slots())
  {
    hide WordOf, PointsAt;
    params := Params(false, 0.0, 0.0, 0.0, 0.0);
    var ok, h := ReadHead(cache);
    if !ok || |cache| != HEADER + 8 * WordOf(h.count) { return WasCorrupt, params; }
    if WordOf(h.version) != VERSION || c.decode(h.keyFriction) != Stored(c, tuning.friction)
       || c.decode(h.keyFactor) != Stored(c, tuning.latAccelFactor) {
      return HadOtherKey, params;
    }
    params := Params(h.valid, c.decode(h.factor), c.decode(h.offset), c.decode(h.friction), c.decode(h.decay));
    ReadPoints(c, cache, WordOf(h.count), b);
    status := WasRestored;
  }

  method ReadPoints(c: Codec, cache: seq<Byte>, n: nat, b: Buckets)
    requires b.Valid() && |cache| == HEADER + 8 * n
    modifies b, b.rings, b.Slots()
    ensures b.Valid() && b.added == old(b.added) + PointsAt(c, cache, HEADER, n)
  {
    var pos: nat := HEADER;
    for i := 0 to n
      invariant b.Valid() && pos == HEADER + 8 * i
      invariant b.added == old(b.added) + PointsAt(c, cache, HEADER, i)
    {
      var okX, x, atY := Take(cache, pos);
      var okY, y, after := Take(cache, atY);
      b.AddPoint(Point(c.decode(x), c.decode(y)));
      pos := after;
    }
  }
}
