/** Row keys of the observation table: a station id and a timestamp that counts down, so that the unsigned byte order
    of keys is station first, latest observation first. */
module RowKey {

  newtype byte = x: int | 0 <= x < 256

  const LONG_MAX: int := 0x7FFF_FFFF_FFFF_FFFF
  const LONG_MIN: int := -0x8000_0000_0000_0000
  const TWO_TO_THE_64: int := 0x1_0000_0000_0000_0000
  const STATION_ID_LENGTH: nat := 12
  const SIZEOF_LONG: nat := 8

  type long = x: int | LONG_MIN <= x <= LONG_MAX

  /** What 64-bit arithmetic makes of an integer. */
  function Wrap(x: int): long {
    (x - LONG_MIN) % TWO_TO_THE_64 + LONG_MIN
  }

  /** The bits of a long, read as an unsigned number. */
  function Bits(v: long): (n: nat)
    ensures n < TWO_TO_THE_64
  {
    if v < 0 then v + TWO_TO_THE_64 else v
  }

  function FromBits(n: nat): long
    requires n < TWO_TO_THE_64
  {
    if n > LONG_MAX then n - TWO_TO_THE_64 else n
  }

  /** Long.MAX_VALUE - t, which overflows for every negative t; but read as unsigned it has not. */
  lemma ReversedBits(t: long)
    ensures Bits(Wrap(LONG_MAX - t)) == LONG_MAX - t
    ensures Wrap(LONG_MAX - FromBits(LONG_MAX - t)) == t
  {
  }

  // ----- bytes

  function Power(k: nat): (p: nat)
    ensures p > 0
  {
    if k == 0 then 1 else 256 * Power(k - 1)
  }

  /** The last k bytes of a number, most significant first. */
  function BigEndian(n: nat, k: nat): (bytes: seq<byte>)
    ensures |bytes| == k
  {
    if k == 0 then [] else BigEndian(n / 256, k - 1) + [(n % 256) as byte]
  }

  function Value(bytes: seq<byte>): nat {
    if bytes == [] then 0 else Value(bytes[..|bytes| - 1]) * 256 + bytes[|bytes| - 1] as int
  }

  lemma {:induction false} ValueOfBigEndian(n: nat, k: nat)
    requires n < Power(k)
    ensures Value(BigEndian(n, k)) == n
    decreases k
  {
    if k > 0 {
      ValueOfBigEndian(n / 256, k - 1);
      assert BigEndian(n, k)[..k - 1] == BigEndian(n / 256, k - 1);
    }
  }

  lemma {:induction false} ValueIsSmall(bytes: seq<byte>)
    ensures Value(bytes) < Power(|bytes|)
    decreases |bytes|
  {
    if bytes != [] {
      ValueIsSmall(bytes[..|bytes| - 1]);
    }
  }

  lemma {:induction false} ValueOfRest(bytes: seq<byte>)
    requires bytes != []
    ensures Value(bytes) == bytes[0] as int * Power(|bytes| - 1) + Value(bytes[1..])
    decreases |bytes|
  {
    var n := |bytes| - 1;
    if n > 0 {
      ValueOfRest(bytes[..n]);
      assert bytes[..n][1..] == bytes[1..][..n - 1];
      Distribute(bytes[0] as int, Power(n - 1), Value(bytes[1..][..n - 1]));
    } else {
      assert bytes[..n] == [] && bytes[1..] == [];
    }
  }

  lemma Distribute(a: nat, p: nat, v: nat)
    ensures (a * p + v) * 256 == a * (256 * p) + v * 256
  {
  }

  /** Bytes.compareTo: lexicographic, bytes unsigned. */
  predicate Less(a: seq<byte>, b: seq<byte>) {
    b != [] && (a == [] || a[0] < b[0] || (a[0] == b[0] && Less(a[1..], b[1..])))
  }

  /** Byte strings of one length are ordered like the numbers they spell. */
  lemma {:induction false} LessIsByValue(a: seq<byte>, b: seq<byte>)
    requires |a| == |b|
    ensures Less(a, b) <==> Value(a) < Value(b)
    ensures a == b <==> Value(a) == Value(b)
    decreases |a|
  {
    if a != [] {
      LessIsByValue(a[1..], b[1..]);
      ValueOfRest(a);
      ValueOfRest(b);
      ValueIsSmall(a[1..]);
      ValueIsSmall(b[1..]);
      LeadingByte(a[0] as int, b[0] as int, Power(|a| - 1), Value(a[1..]), Value(b[1..]));
      assert a == [a[0]] + a[1..] && b == [b[0]] + b[1..];
    }
  }

  lemma LeadingByte(a: nat, b: nat, p: nat, v: nat, w: nat)
    requires v < p && w < p
    ensures a * p + v < b * p + w <==> a < b || (a == b && v < w)
    ensures a * p + v == b * p + w <==> a == b && v == w
  {
    if a < b {
      MultiplesAreApart(a, b, p);
    } else if b < a {
      MultiplesAreApart(b, a, p);
    }
  }

  lemma {:induction false} MultiplesAreApart(a: nat, b: nat, p: nat)
    requires a < b
    ensures a * p + p <= b * p
    decreases b
  {
    if a + 1 < b {
      MultiplesAreApart(a, b - 1, p);
    }
    assert b * p == (b - 1) * p + p;
  }

  lemma {:induction false} LessOfPrefixed(p: seq<byte>, q: seq<byte>, a: seq<byte>, b: seq<byte>)
    requires |p| == |q|
    ensures Less(p + a, q + b) <==> Less(p, q) || (p == q && Less(a, b))
    decreases |p|
  {
    if p == [] {
      assert p + a == a && q + b == b;
    } else {
      LessOfPrefixed(p[1..], q[1..], a, b);
      assert (p + a)[1..] == p[1..] + a && (q + b)[1..] == q[1..] + b;
      assert p == [p[0]] + p[1..] && q == [q[0]] + q[1..];
    }
  }

  // ----- the key

  datatype Result<T> = Ok(value: T) | IndexOutOfBounds

  /** The key of an observation; of a longer station id only the first bytes count. */
  function Key(stationId: seq<byte>, t: long): (row: seq<byte>)
    requires |stationId| >= STATION_ID_LENGTH
    ensures |row| == STATION_ID_LENGTH + SIZEOF_LONG == 20 && row[..12] == stationId[..12]
  {
    stationId[..STATION_ID_LENGTH] + BigEndian(Bits(Wrap(LONG_MAX - t)), SIZEOF_LONG)
  }

  /** Bytes.putLong: the bytes of val from the last to the first, shifting by eight bits in between. */
  method PutLong(bytes: array<byte>, offset: nat, val: long)
    requires offset + SIZEOF_LONG <= bytes.Length
    modifies bytes
    ensures bytes[..] == old(bytes[..offset]) + BigEndian(Bits(val), SIZEOF_LONG) + old(bytes[offset + SIZEOF_LONG..])
  {
    var rest := Bits(val);
    var i := SIZEOF_LONG;
    ghost var all := BigEndian(rest, SIZEOF_LONG);
    while i > 0
      invariant 0 <= i <= SIZEOF_LONG && BigEndian(rest, i) == all[..i]
      invariant forall k :: 0 <= k < bytes.Length && !(offset + i <= k < offset + SIZEOF_LONG) ==>
        bytes[k] == old(bytes[k])
      invariant forall k :: i <= k < SIZEOF_LONG ==> bytes[offset + k] == all[k]
    {
      i := i - 1;
      assert BigEndian(rest, i + 1)[..i] == BigEndian(rest / 256, i);
      assert all[..i + 1][..i] == all[..i];
      bytes[offset + i] := (rest % 256) as byte;
      rest := rest / 256;
    }
    assert forall k :: offset <= k < offset + SIZEOF_LONG ==> bytes[k] == all[k - offset];
    assert bytes[..] == old(bytes[..offset]) + all + old(bytes[offset + SIZEOF_LONG..]);
  }

  /** Bytes.putBytes, which fails if the source is too short. */
  method PutBytes(bytes: array<byte>, source: seq<byte>, length: nat) returns (ok: bool)
    requires length <= bytes.Length
    modifies bytes
    ensures ok <==> length <= |source|
    ensures bytes[..] == if ok then source[..length] + old(bytes[length..]) else old(bytes[..])
  {
    ok := length <= |source|;
    if ok {
      var i := 0;
      while i < length
        invariant 0 <= i <= length && bytes[..i] == source[..i] && bytes[i..] == old(bytes[i..])
      {
        bytes[i] := source[i];
        i := i + 1;
      }
      assert bytes[..] == bytes[..length] + bytes[length..];
    }
  }

  method MakeObservationRowKey(stationId: seq<byte>, observationTime: long) returns (r: Result<array<byte>>)
    ensures r.Ok? <==> |stationId| >= STATION_ID_LENGTH
    ensures r.Ok? ==> fresh(r.value) && r.value[..] == Key(stationId, observationTime)
  {
    var row := new byte[STATION_ID_LENGTH + SIZEOF_LONG](_ => 0);
    var ok := PutBytes(row, stationId, STATION_ID_LENGTH);
    if !ok {
      return IndexOutOfBounds;
    }
    var reverseOrderTimestamp := Wrap(LONG_MAX - observationTime);
    PutLong(row, STATION_ID_LENGTH, reverseOrderTimestamp);
    r := Ok(row);
  }

  /** The number in k bytes from an offset on: shift by eight bits and take the next byte. */
  function NumberAt(row: seq<byte>, offset: nat, k: nat): (n: nat)
    requires offset + k <= |row|
    ensures n < Power(k)
  {
    if k == 0 then 0 else NumberAt(row, offset, k - 1) * 256 + row[offset + k - 1] as int
  }

  lemma {:induction false} NumberIsValue(row: seq<byte>, offset: nat, k: nat)
    requires offset + k <= |row|
    ensures NumberAt(row, offset, k) == Value(row[offset..offset + k])
    decreases k
  {
    if k > 0 {
      NumberIsValue(row, offset, k - 1);
      assert row[offset..offset + k][..k - 1] == row[offset..offset + k - 1];
    }
  }

  /** Bytes.toLong of the last eight bytes. */
  function ToLong(row: seq<byte>): long
    requires |row| >= SIZEOF_LONG
  {
    PowerOfLong();
    FromBits(NumberAt(row, |row| - SIZEOF_LONG, SIZEOF_LONG))
  }

  lemma PowerOfLong()
    ensures Power(SIZEOF_LONG) == TWO_TO_THE_64
  {
    assert Power(4) == 0x1_0000_0000;
    assert Power(8) == 256 * (256 * (256 * (256 * Power(4))));
  }

  /** The time that the query reads from a key. */
  function Stamp(row: seq<byte>): long
    requires |row| >= SIZEOF_LONG
  {
    Wrap(LONG_MAX - ToLong(row))
  }

  lemma KeyBytes(t: long)
    ensures Value(BigEndian(Bits(Wrap(LONG_MAX - t)), SIZEOF_LONG)) == LONG_MAX - t
  {
    ReversedBits(t);
    PowerOfLong();
    ValueOfBigEndian(LONG_MAX - t, SIZEOF_LONG);
  }

  /** Decoding recovers the time, for every 64-bit time. */
  lemma StampOfKey(stationId: seq<byte>, t: long)
    requires |stationId| >= STATION_ID_LENGTH
    ensures Stamp(Key(stationId, t)) == t
  {
    var bytes := BigEndian(Bits(Wrap(LONG_MAX - t)), SIZEOF_LONG);
    var key := Key(stationId, t);
    NumberIsValue(key, STATION_ID_LENGTH, SIZEOF_LONG);
    assert key[STATION_ID_LENGTH..STATION_ID_LENGTH + SIZEOF_LONG] == bytes;
    KeyBytes(t);
    ReversedBits(t);
  }

  /** Keys are ordered by station id first, and keys of one station by descending time. */
  lemma KeyOrder(s: seq<byte>, t: long, s': seq<byte>, t': long)
    requires |s| >= STATION_ID_LENGTH && |s'| >= STATION_ID_LENGTH
    ensures var id, id' := s[..STATION_ID_LENGTH], s'[..STATION_ID_LENGTH];
      Less(Key(s, t), Key(s', t')) <==> Less(id, id') || (id == id' && t > t')
    ensures Key(s, t) == Key(s', t') <==> s[..STATION_ID_LENGTH] == s'[..STATION_ID_LENGTH] && t == t'
  {
    var id, id' := s[..STATION_ID_LENGTH], s'[..STATION_ID_LENGTH];
    var b, b' := BigEndian(Bits(Wrap(LONG_MAX - t)), SIZEOF_LONG), BigEndian(Bits(Wrap(LONG_MAX - t')), SIZEOF_LONG);
    LessOfPrefixed(id, id', b, b');
    LessIsByValue(b, b');
    KeyBytes(t);
    KeyBytes(t');
    assert Key(s, t)[..STATION_ID_LENGTH] == id && Key(s', t')[..STATION_ID_LENGTH] == id';
    assert Key(s, t)[STATION_ID_LENGTH..] == b && Key(s', t')[STATION_ID_LENGTH..] == b';
  }
}
