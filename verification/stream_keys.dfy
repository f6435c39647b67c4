/**
 * Keys of the stream columns as bytes: fixed-length ids followed by a big-endian position
 * (db_column.rs). Their bytewise order is the order of streams and positions, so a prefix
 * scan yields one stream in ascending positions.
 */
module StreamKeys {
  import opened FullNodeStore

  type Byte = b: nat | b < 256

  const SUBNET_ID_LENGTH: nat := 32
  const POSITION_LENGTH: nat := 8

  type SubnetKey = s: seq<Byte> | |s| == SUBNET_ID_LENGTH witness seq(SUBNET_ID_LENGTH, i => 0)

  /** Fixed-width big-endian integer. */
  function BigEndian(n: nat, width: nat): (bytes: seq<Byte>)
    ensures |bytes| == width
    decreases width
  {
    if width == 0 then [] else BigEndian(n / 256, width - 1) + [n % 256]
  }

  function SourceKey(subnet: SubnetKey, position: nat): seq<Byte> {
    subnet + BigEndian(position, POSITION_LENGTH)
  }

  function TargetKey(target: SubnetKey, source: SubnetKey, position: nat): seq<Byte> {
    target + source + BigEndian(position, POSITION_LENGTH)
  }

  /** The number that the bytes stand for, most significant byte first. */
  function Value(bytes: seq<Byte>): nat {
    if bytes == [] then 0 else 256 * Value(bytes[..|bytes| - 1]) + bytes[|bytes| - 1]
  }

  /** Decoding a position gives it back. */
  lemma {:induction false} RoundTrip(n: nat, width: nat)
    requires n < Power(width)
    ensures Value(BigEndian(n, width)) == n
    decreases width
  {
    if width > 0 {
      RoundTrip(n / 256, width - 1);
      var bytes := BigEndian(n, width);
      assert bytes[..width - 1] == BigEndian(n / 256, width - 1);
    }
  }

  /** A source key is the subnet id followed by the position, and tells both. */
  lemma {:induction false} SourceKeyTells(subnet: SubnetKey, position: nat)
    requires position < Power(8)
    ensures var key := SourceKey(subnet, position);
            |key| == 40 && key[..32] == subnet && Value(key[32..]) == position
  {
    RoundTrip(position, POSITION_LENGTH);
    assert SourceKey(subnet, position)[32..] == BigEndian(position, POSITION_LENGTH);
    hide BigEndian, Power;
  }

  /** A target key is the target's id, the source's id and the position, and tells all three. */
  lemma {:induction false} TargetKeyTells(target: SubnetKey, source: SubnetKey, position: nat)
    requires position < Power(8)
    ensures var key := TargetKey(target, source, position);
            |key| == 72 && key[..32] == target && key[32..64] == source && Value(key[64..]) == position
  {
    RoundTrip(position, POSITION_LENGTH);
    assert TargetKey(target, source, position)[64..] == BigEndian(position, POSITION_LENGTH);
    hide BigEndian, Power;
  }

  /** The bytewise comparator of the column. */
  predicate Less(a: seq<Byte>, b: seq<Byte>) {
    b != [] && (a == [] || a[0] < b[0] || (a[0] == b[0] && Less(a[1..], b[1..])))
  }

  function Power(width: nat): nat {
    if width == 0 then 1 else 256 * Power(width - 1)
  }

  lemma {:induction false} LessIrreflexive(a: seq<Byte>)
    ensures !Less(a, a)
  {
    if a != [] { LessIrreflexive(a[1..]); }
  }

  /** Keys with parts of fixed length compare part by part. */
  lemma {:induction false} LessByParts(a: seq<Byte>, b: seq<Byte>, x: seq<Byte>, y: seq<Byte>)
    requires |a| == |b|
    ensures Less(a + x, b + y) <==> Less(a, b) || (a == b && Less(x, y))
  {
    if a == [] {
      assert a + x == x && b + y == y;
    } else {
      assert (a + x)[1..] == a[1..] + x && (b + y)[1..] == b[1..] + y;
      LessByParts(a[1..], b[1..], x, y);
      assert a == [a[0]] + a[1..] && b == [b[0]] + b[1..];
    }
  }

  lemma {:induction false} BigEndianEqual(m: nat, n: nat, width: nat)
    requires m < Power(width) && n < Power(width)
    ensures BigEndian(m, width) == BigEndian(n, width) <==> m == n
    decreases width
  {
    if width > 0 {
      var a, b := BigEndian(m / 256, width - 1), BigEndian(n / 256, width - 1);
      BigEndianEqual(m / 256, n / 256, width - 1);
      assert (a + [m % 256])[..width - 1] == a && (b + [n % 256])[..width - 1] == b;
      assert (a + [m % 256])[width - 1] == m % 256 && (b + [n % 256])[width - 1] == n % 256;
    }
  }

  /** Bytewise order on big-endian integers is numeric order. */
  lemma {:induction false} BigEndianLess(m: nat, n: nat, width: nat)
    requires m < Power(width) && n < Power(width)
    ensures Less(BigEndian(m, width), BigEndian(n, width)) <==> m < n
    decreases width
  {
    if width > 0 {
      BigEndianLess(m / 256, n / 256, width - 1);
      BigEndianEqual(m / 256, n / 256, width - 1);
      LessByParts(BigEndian(m / 256, width - 1), BigEndian(n / 256, width - 1), [m % 256], [n % 256]);
      assert Less([m % 256], [n % 256]) <==> m % 256 < n % 256;
    }
  }

  /** Source keys are ordered by subnet, then by position. */
  lemma {:induction false} SourceKeyOrder(s: SubnetKey, p: nat, t: SubnetKey, q: nat)
    requires p < Power(POSITION_LENGTH) && q < Power(POSITION_LENGTH)
    ensures Less(SourceKey(s, p), SourceKey(t, q)) <==> Less(s, t) || (s == t && p < q)
  {
    LessByParts(s, t, BigEndian(p, POSITION_LENGTH), BigEndian(q, POSITION_LENGTH));
    BigEndianLess(p, q, POSITION_LENGTH);
  }

  /** Target keys are ordered by target, then source, then position. */
  lemma {:induction false} TargetKeyOrder(t: SubnetKey, s: SubnetKey, p: nat, t': SubnetKey, s': SubnetKey, q: nat)
    requires p < Power(POSITION_LENGTH) && q < Power(POSITION_LENGTH)
    ensures Less(TargetKey(t, s, p), TargetKey(t', s', q)) <==>
            Less(t, t') || (t == t' && (Less(s, s') || (s == s' && p < q)))
  {
    var x, y := BigEndian(p, POSITION_LENGTH), BigEndian(q, POSITION_LENGTH);
    assert TargetKey(t, s, p) == t + (s + x) && TargetKey(t', s', q) == t' + (s' + y);
    LessByParts(t, t', s + x, s' + y);
    LessByParts(s, s', x, y);
    BigEndianLess(p, q, POSITION_LENGTH);
  }

  /** The 32- and 64-byte prefixes the columns are opened with tell streams apart. */
  lemma PrefixIsStream(t: SubnetKey, s: SubnetKey, p: nat, t': SubnetKey, s': SubnetKey, q: nat)
    ensures SourceKey(s, p)[..SUBNET_ID_LENGTH] == SourceKey(s', q)[..SUBNET_ID_LENGTH] <==> s == s'
    ensures TargetKey(t, s, p)[..2 * SUBNET_ID_LENGTH] == TargetKey(t', s', q)[..2 * SUBNET_ID_LENGTH]
            <==> t == t' && s == s'
  {
    assert SourceKey(s, p)[..SUBNET_ID_LENGTH] == s && SourceKey(s', q)[..SUBNET_ID_LENGTH] == s';
    assert TargetKey(t, s, p)[..2 * SUBNET_ID_LENGTH] == t + s;
    assert TargetKey(t', s', q)[..2 * SUBNET_ID_LENGTH] == t' + s';
    assert (t + s)[..SUBNET_ID_LENGTH] == t && (t' + s')[..SUBNET_ID_LENGTH] == t';
    assert (t + s)[SUBNET_ID_LENGTH..] == s && (t' + s')[SUBNET_ID_LENGTH..] == s';
  }

  /** Positions are listed in the bytewise order of their keys. */
  ghost predicate InKeyOrder(key: nat -> seq<Byte>, positions: seq<nat>) {
    forall i, j :: 0 <= i < j < |positions| ==> Less(key(positions[i]), key(positions[j]))
  }

  ghost predicate Increasing(positions: seq<nat>) {
    forall i, j :: 0 <= i < j < |positions| ==> positions[i] < positions[j]
  }

  lemma IncreasingSplit(positions: seq<nat>, s: set<nat>)
    requires Increasing(positions) && positions != [] && forall x :: x in s <==> x in positions
    ensures var before, last := positions[..|positions| - 1], positions[|positions| - 1];
            && last in s && Max(s) == last && Increasing(before)
            && forall x :: x in s - {last} <==> x in before
  {
    var before, last := positions[..|positions| - 1], positions[|positions| - 1];
    assert positions == before + [last];
    assert last in s;
    assert forall i :: 0 <= i < |before| ==> before[i] == positions[i] && before[i] < last;
    assert forall x :: x in before ==> x < last;
    assert forall x :: x in s ==> x <= last;
  }

  /** The one increasing listing of a set. */
  lemma {:induction false} IncreasingIsAscending(positions: seq<nat>, s: set<nat>)
    requires Increasing(positions) && forall x :: x in s <==> x in positions
    ensures positions == Ascending(s)
    decreases |s|
  {
    if positions == [] {
      assert s == {};
    } else {
      var before, last := positions[..|positions| - 1], positions[|positions| - 1];
      IncreasingSplit(positions, s);
      IncreasingIsAscending(before, s - {last});
      assert positions == before + [last];
    }
  }

  /**
   * What the prefix scan of a source stream yields, in the order of its byte keys, is the
   * ascending listing of the stream's positions; its last element is the largest one.
   */
  lemma {:induction false} SourceScanAscends(subnet: SubnetKey, positions: seq<nat>, s: set<nat>)
    requires forall x :: x in s <==> x in positions
    requires forall i :: 0 <= i < |positions| ==> positions[i] < Power(POSITION_LENGTH)
    requires InKeyOrder(p => SourceKey(subnet, p), positions)
    ensures positions == Ascending(s)
    ensures positions != [] ==> positions[|positions| - 1] == Max(s)
  {
    forall i, j | 0 <= i < j < |positions|
      ensures positions[i] < positions[j]
    {
      SourceKeyOrder(subnet, positions[i], subnet, positions[j]);
      LessIrreflexive(subnet);
    }
    IncreasingIsAscending(positions, s);
  }

  /** The same for the stream from one source subnet to one target subnet. */
  lemma {:induction false} TargetScanAscends(target: SubnetKey, source: SubnetKey, positions: seq<nat>, s: set<nat>)
    requires forall x :: x in s <==> x in positions
    requires forall i :: 0 <= i < |positions| ==> positions[i] < Power(POSITION_LENGTH)
    requires InKeyOrder(p => TargetKey(target, source, p), positions)
    ensures positions == Ascending(s)
    ensures positions != [] ==> positions[|positions| - 1] == Max(s)
  {
    forall i, j | 0 <= i < j < |positions|
      ensures positions[i] < positions[j]
    {
      TargetKeyOrder(target, source, positions[i], target, source, positions[j]);
      LessIrreflexive(target);
      LessIrreflexive(source);
    }
    IncreasingIsAscending(positions, s);
  }
}
