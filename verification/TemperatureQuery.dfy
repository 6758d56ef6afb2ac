/** getStationObservations: a scan that starts at a row key and stops after a number of rows. */
module TemperatureQuery {
  import opened RowKey

  const SIZEOF_INT: nat := 4
  const INT_MAX: int := 0x7FFF_FFFF
  const INT_MIN: int := -0x8000_0000
  const TWO_TO_THE_32: int := 0x1_0000_0000

  /** A row that has the column data:airtemp, with the bytes in that column. */
  datatype Row = Row(key: seq<byte>, value: seq<byte>)

  /** Malformed stands for the exceptions of Bytes.toLong and Bytes.toInt. */
  datatype Outcome = Found(observations: map<long, int>) | BadStation | Malformed

  /** Bytes.toInt */
  function ToInt(value: seq<byte>): int
    requires |value| >= SIZEOF_INT
  {
    var n := NumberAt(value, 0, SIZEOF_INT);
    if n > INT_MAX then n - TWO_TO_THE_32 else n
  }

  predicate IsInt(v: int) {
    INT_MIN <= v <= INT_MAX
  }

  /** Bytes.toBytes of an int: 32-bit two's complement, most significant byte first. */
  function IntBytes(v: int): (bytes: seq<byte>)
    requires IsInt(v)
    ensures |bytes| == SIZEOF_INT
  {
    BigEndian(if v < 0 then v + TWO_TO_THE_32 else v, SIZEOF_INT)
  }

  /** Every int is read back, negative ones too. */
  lemma ToIntOfBytes(v: int)
    requires IsInt(v)
    ensures ToInt(BigEndian(if v < 0 then v + 0x1_0000_0000 else v, 4)) == v
  {
    var n: nat := if v < 0 then v + TWO_TO_THE_32 else v;
    var bytes := BigEndian(n, SIZEOF_INT);
    FourBytes();
    NumberIsValue(bytes, 0, SIZEOF_INT);
    assert bytes[0..SIZEOF_INT] == bytes;
    ValueOfBigEndian(n, SIZEOF_INT);
  }

  lemma FourBytes()
    ensures Power(4) == TWO_TO_THE_32
  {
    assert Power(1) == 256 && Power(2) == 256 * Power(1) && Power(3) == 256 * Power(2) && Power(4) == 256 * Power(3);
  }

  /** The first four bytes, the first one with the sign, make the number. */
  lemma ToIntIsSigned(value: seq<byte>)
    requires |value| >= SIZEOF_INT
    ensures ToInt(value) == (if value[0] >= 0x80 then value[0] as int - 0x100 else value[0] as int) * 0x100_0000
      + value[1] as int * 0x1_0000 + value[2] as int * 0x100 + value[3] as int
  {
    assert NumberAt(value, 0, 1) == value[0] as int;
    assert NumberAt(value, 0, 2) == NumberAt(value, 0, 1) * 256 + value[1] as int;
    assert NumberAt(value, 0, 3) == NumberAt(value, 0, 2) * 256 + value[2] as int;
    assert NumberAt(value, 0, 4) == NumberAt(value, 0, 3) * 256 + value[3] as int;
  }

  /** The table is kept in the order of its keys, which are distinct. */
  ghost predicate Sorted(table: seq<Row>) {
    forall i, j {:trigger Less(table[i].key, table[j].key)} ::
      0 <= i < j < |table| ==> Less(table[i].key, table[j].key)
  }

  /** The first row from index i on whose key is not less. */
  function Start(table: seq<Row>, key: seq<byte>, i: nat): (p: nat)
    requires i <= |table|
    ensures i <= p <= |table|
    decreases |table| - i
  {
    if i < |table| && Less(table[i].key, key) then Start(table, key, i + 1) else i
  }

  lemma {:induction false} StartIsFirst(table: seq<Row>, key: seq<byte>, i: nat)
    requires i <= |table|
    ensures var p := Start(table, key, i);
      (forall k :: i <= k < p ==> Less(table[k].key, key)) && (p < |table| ==> !Less(table[p].key, key))
    decreases |table| - i
  {
    if i < |table| && Less(table[i].key, key) {
      StartIsFirst(table, key, i + 1);
    }
  }

  predicate WellFormed(row: Row) {
    |row.key| >= SIZEOF_LONG && |row.value| >= SIZEOF_INT
  }

  /** What putting n rows from index p on into a map, one by one, comes to. */
  function Collected(table: seq<Row>, p: nat, n: nat): Outcome
    requires p + n <= |table|
  {
    if n == 0 then Found(map[])
    else
      var before, row := Collected(table, p, n - 1), table[p + n - 1];
      if !before.Found? || !WellFormed(row) then Malformed
      else Found(before.observations[Stamp(row.key) := ToInt(row.value)])
  }

  function Least(a: int, b: nat): nat {
    if a < 0 then 0 else if a < b then a else b
  }

  /** Where the scan starts. */
  function First(table: seq<Row>, stationId: seq<byte>, maxStamp: long): (p: nat)
    requires |stationId| >= STATION_ID_LENGTH
    ensures p <= |table|
  {
    Start(table, Key(stationId, maxStamp), 0)
  }

  /** How many rows are read. */
  function Reads(table: seq<Row>, stationId: seq<byte>, maxStamp: long, maxCount: int): (n: nat)
    requires |stationId| >= STATION_ID_LENGTH
    ensures First(table, stationId, maxStamp) + n <= |table|
  {
    Least(maxCount, |table| - First(table, stationId, maxStamp))
  }

  function Answer(table: seq<Row>, stationId: seq<byte>, maxStamp: long, maxCount: int): Outcome
    requires |stationId| >= STATION_ID_LENGTH
  {
    Collected(table, First(table, stationId, maxStamp), Reads(table, stationId, maxStamp, maxCount))
  }

  method GetStationObservations(table: seq<Row>, stationId: seq<byte>, maxStamp: long, maxCount: int)
    returns (o: Outcome)
    ensures o == if |stationId| < STATION_ID_LENGTH then BadStation else Answer(table, stationId, maxStamp, maxCount)
  {
    var startRow := MakeObservationRowKey(stationId, maxStamp);
    if startRow.IndexOutOfBounds? {
      return BadStation;
    }
    o := ReadRows(table, Start(table, startRow.value[..], 0), maxCount);
  }

  /** The loop over the scanner, which stands before row p. */
  method ReadRows(table: seq<Row>, p: nat, maxCount: int) returns (o: Outcome)
    requires p <= |table|
    ensures o == Collected(table, p, Least(maxCount, |table| - p))
  {
    var resultMap: map<long, int> := map[];
    var next := p;
    var count: int := 0;
    while next < |table|
      invariant p <= next <= |table| && count == next - p
      invariant count <= Least(maxCount, |table| - p)
      invariant Collected(table, p, count) == Found(resultMap)
    {
      var res := table[next];
      next := next + 1;
      if count >= maxCount {
        return Found(resultMap);
      }
      count := count + 1;
      if !WellFormed(res) {
        StaysMalformed(table, p, count, Least(maxCount, |table| - p));
        return Malformed;
      }
      resultMap := resultMap[Stamp(res.key) := ToInt(res.value)];
    }
    o := Found(resultMap);
  }

  lemma {:induction false} StaysMalformed(table: seq<Row>, p: nat, n: nat, m: nat)
    requires n <= m && p + m <= |table| && Collected(table, p, n).Malformed?
    ensures Collected(table, p, m).Malformed?
    decreases m
  {
    if n < m {
      StaysMalformed(table, p, n, m - 1);
    }
  }

  // ----- tables of observations

  datatype Observation = Observation(station: seq<byte>, time: long, temperature: int)

  /** Row i holds observation i. */
  ghost predicate HoldsObservations(table: seq<Row>, obs: seq<Observation>) {
    && |table| == |obs|
    && forall i {:trigger HoldsOne(table[i], obs[i])} :: 0 <= i < |table| ==> HoldsOne(table[i], obs[i])
  }

  predicate HoldsOne(row: Row, o: Observation) {
    && |o.station| == STATION_ID_LENGTH && row.key == Key(o.station, o.time)
    && |row.value| >= SIZEOF_INT && ToInt(row.value) == o.temperature
  }

  /** An observation that the query is about. */
  predicate Wanted(o: Observation, station: seq<byte>, maxStamp: long) {
    o.station == station && o.time <= maxStamp
  }

  /** Where the run of wanted observations from index i on ends. */
  function RunEnd(obs: seq<Observation>, station: seq<byte>, maxStamp: long, i: nat): (q: nat)
    requires i <= |obs|
    ensures i <= q <= |obs|
    ensures forall k :: i <= k < q ==> Wanted(obs[k], station, maxStamp)
    ensures q < |obs| ==> !Wanted(obs[q], station, maxStamp)
    decreases |obs| - i
  {
    if i < |obs| && Wanted(obs[i], station, maxStamp) then RunEnd(obs, station, maxStamp, i + 1) else i
  }

  lemma LessIsTransitive(a: seq<byte>, b: seq<byte>, c: seq<byte>)
    requires |a| == |b| == |c|
    ensures Less(a, b) && Less(b, c) ==> Less(a, c)
    ensures Less(a, b) || a == b || Less(b, a)
    ensures !(Less(a, b) && Less(b, a)) && !Less(a, a)
  {
    LessIsByValue(a, b);
    LessIsByValue(b, c);
    LessIsByValue(a, c);
    LessIsByValue(b, a);
    LessIsByValue(a, a);
  }

  /** The wanted observations are those from p to q, the latest first. */
  ghost predicate IsRun(obs: seq<Observation>, p: nat, q: nat, station: seq<byte>, maxStamp: long) {
    && p <= q <= |obs|
    && (forall i :: 0 <= i < |obs| ==> (Wanted(obs[i], station, maxStamp) <==> p <= i < q))
    && (forall i, j :: p <= i < j < q ==> obs[i].time > obs[j].time)
  }

  /** The scan starts with the wanted observations, all of them, the latest first; only others follow. */
  lemma WantedAreTogether(table: seq<Row>, obs: seq<Observation>, station: seq<byte>, maxStamp: long)
    requires Sorted(table) && HoldsObservations(table, obs) && |station| == STATION_ID_LENGTH
    ensures var p := First(table, station, maxStamp);
      IsRun(obs, p, RunEnd(obs, station, maxStamp, p), station, maxStamp)
  {
    var p := First(table, station, maxStamp);
    var q := RunEnd(obs, station, maxStamp, p);
    StartIsFirst(table, Key(station, maxStamp), 0);
    forall i | 0 <= i < p ensures !Wanted(obs[i], station, maxStamp) {
      assert HoldsOne(table[i], obs[i]);
      KeyOrder(obs[i].station, obs[i].time, station, maxStamp);
      WholeId(obs[i].station, station);
      LessIsTransitive(station, station, station);
    }
    forall i | q <= i < |obs| ensures !Wanted(obs[i], station, maxStamp) {
      PastTheRun(table, obs, station, maxStamp, p, q, i);
    }
    forall i, j | p <= i < j < q ensures obs[i].time > obs[j].time {
      assert HoldsOne(table[i], obs[i]) && HoldsOne(table[j], obs[j]);
      assert Less(table[i].key, table[j].key);
      assert Wanted(obs[i], station, maxStamp) && Wanted(obs[j], station, maxStamp);
      KeyOrder(station, obs[i].time, station, obs[j].time);
      LessIsTransitive(station, station, station);
      WholeId(station, station);
    }
  }

  lemma WholeId(a: seq<byte>, b: seq<byte>)
    requires |a| == |b| == STATION_ID_LENGTH
    ensures a[..STATION_ID_LENGTH] == a && b[..STATION_ID_LENGTH] == b
  {
  }

  lemma PastTheRun(table: seq<Row>, obs: seq<Observation>, station: seq<byte>, maxStamp: long, p: nat, q: nat, i: nat)
    requires Sorted(table) && HoldsObservations(table, obs) && |station| == STATION_ID_LENGTH
    requires p == First(table, station, maxStamp) && q == RunEnd(obs, station, maxStamp, p) && q <= i < |obs|
    ensures !Wanted(obs[i], station, maxStamp)
  {
    assert HoldsOne(table[q], obs[q]) && HoldsOne(table[i], obs[i]);
    WholeId(obs[q].station, station);
    WholeId(obs[i].station, station);
    StartIsFirst(table, Key(station, maxStamp), 0);
    // row q is not before the start, so its station is a later one
    KeyOrder(obs[q].station, obs[q].time, station, maxStamp);
    LessIsTransitive(obs[q].station, station, station);
    assert HoldsOne(table[p], obs[p]);
    LessIsTransitive(Key(station, maxStamp), table[p].key, table[q].key);
    assert p < q ==> Less(table[p].key, table[q].key);
    LessIsTransitive(table[q].key, Key(station, maxStamp), table[p].key);
    assert Less(station, obs[q].station);
    if q < i {
      assert Less(table[q].key, table[i].key);
      KeyOrder(obs[q].station, obs[q].time, obs[i].station, obs[i].time);
      LessIsTransitive(station, obs[q].station, obs[i].station);
    }
    LessIsTransitive(station, station, station);
  }

  // ----- the latest observations

  /** m holds count of the wanted observations, with their temperatures, and all that are left out are older. */
  ghost predicate IsLatest(m: map<long, int>, count: nat, obs: seq<Observation>, station: seq<byte>, maxStamp: long) {
    && |m| == count
    && (forall t :: t in m ==> Observation(station, t, m[t]) in obs && t <= maxStamp)
    && (forall i :: 0 <= i < |obs| && Wanted(obs[i], station, maxStamp) && obs[i].time !in m ==>
      forall t :: t in m ==> obs[i].time < t)
    && (forall i :: 0 <= i < |obs| && Wanted(obs[i], station, maxStamp) && obs[i].time in m ==>
      m[obs[i].time] == obs[i].temperature)
  }

  ghost predicate HasTime(obs: seq<Observation>, p: nat, n: nat, t: long)
    requires p + n <= |obs|
  {
    exists i :: p <= i < p + n && obs[i].time == t
  }

  /** m maps the times of the n observations from p on to their temperatures. */
  ghost predicate Maps(m: map<long, int>, obs: seq<Observation>, p: nat, n: nat)
    requires p + n <= |obs|
  {
    && |m| == n
    && (forall t {:trigger HasTime(obs, p, n, t)} :: t in m ==> HasTime(obs, p, n, t))
    && (forall i :: p <= i < p + n ==> obs[i].time in m && m[obs[i].time] == obs[i].temperature)
  }

  lemma MapsOneMore(m: map<long, int>, obs: seq<Observation>, p: nat, n: nat)
    requires p + n < |obs| && Maps(m, obs, p, n) && forall i :: p <= i < p + n ==> obs[i].time > obs[p + n].time
    ensures Maps(m[obs[p + n].time := obs[p + n].temperature], obs, p, n + 1)
  {
    var o := obs[p + n];
    TimeIsNew(obs, p, n, o.time);
    assert HasTime(obs, p, n, o.time) || o.time !in m;
    OneKeyMore(m, o.time, o.temperature);
    forall t | t in m || t == o.time ensures HasTime(obs, p, n + 1, t) {
      assert HasTime(obs, p, n, t) || t == o.time;
    }
  }

  lemma TimeIsNew(obs: seq<Observation>, p: nat, n: nat, t: long)
    requires p + n <= |obs| && forall i :: p <= i < p + n ==> obs[i].time > t
    ensures !HasTime(obs, p, n, t)
  {
  }

  lemma OneKeyMore(m: map<long, int>, k: long, v: int)
    requires k !in m
    ensures |m[k := v]| == |m| + 1
  {
    assert m[k := v].Keys == m.Keys + {k};
  }

  lemma {:induction false} CollectedTimes(table: seq<Row>, obs: seq<Observation>, p: nat, n: nat)
    requires HoldsObservations(table, obs) && p + n <= |obs|
    requires forall i, j :: p <= i < j < p + n ==> obs[i].time > obs[j].time
    ensures Collected(table, p, n).Found? && Maps(Collected(table, p, n).observations, obs, p, n)
    decreases n
  {
    if n > 0 {
      CollectedTimes(table, obs, p, n - 1);
      assert HoldsOne(table[p + n - 1], obs[p + n - 1]);
      StampOfKey(obs[p + n - 1].station, obs[p + n - 1].time);
      MapsOneMore(Collected(table, p, n - 1).observations, obs, p, n - 1);
    }
  }

  /** How many observations the query could find. */
  function Available(table: seq<Row>, obs: seq<Observation>, station: seq<byte>, maxStamp: long): nat
    requires |table| == |obs| && |station| == STATION_ID_LENGTH
  {
    var p := First(table, station, maxStamp);
    RunEnd(obs, station, maxStamp, p) - p
  }

  /** No row follows the wanted ones. */
  predicate NothingFollows(table: seq<Row>, obs: seq<Observation>, station: seq<byte>, maxStamp: long)
    requires |table| == |obs| && |station| == STATION_ID_LENGTH
  {
    RunEnd(obs, station, maxStamp, First(table, station, maxStamp)) == |table|
  }

  ghost predicate FindsLatest(o: Outcome, count: nat, obs: seq<Observation>, station: seq<byte>, maxStamp: long) {
    o.Found? && IsLatest(o.observations, count, obs, station, maxStamp)
  }

  /** With enough observations of the station, or nothing behind them, the query returns exactly the latest. */
  lemma QueryFindsLatest(table: seq<Row>, obs: seq<Observation>, station: seq<byte>, maxStamp: long, maxCount: int)
    requires Sorted(table) && HoldsObservations(table, obs) && |station| == STATION_ID_LENGTH
    requires Available(table, obs, station, maxStamp) >= maxCount || NothingFollows(table, obs, station, maxStamp)
    ensures var n := Least(maxCount, Available(table, obs, station, maxStamp));
      FindsLatest(Answer(table, station, maxStamp, maxCount), n, obs, station, maxStamp)
  {
    var p := First(table, station, maxStamp);
    WantedAreTogether(table, obs, station, maxStamp);
    var q := RunEnd(obs, station, maxStamp, p);
    assert Answer(table, station, maxStamp, maxCount) == Collected(table, p, Least(maxCount, |table| - p));
    assert Available(table, obs, station, maxStamp) == q - p;
    LatestFrom(table, obs, p, q, station, maxStamp, maxCount);
  }

  /** The same for a scan from index p on, the wanted observations being those from p to q. */
  lemma LatestFrom(table: seq<Row>, obs: seq<Observation>, p: nat, q: nat, station: seq<byte>, maxStamp: long,
      maxCount: int)
    requires HoldsObservations(table, obs) && IsRun(obs, p, q, station, maxStamp) && (q - p >= maxCount || q == |table|)
    ensures var o := Collected(table, p, Least(maxCount, |table| - p));
      FindsLatest(o, Least(maxCount, q - p), obs, station, maxStamp)
  {
    var c := Least(maxCount, q - p);
    CollectedTimes(table, obs, p, c);
    FirstAreLatest(Collected(table, p, c).observations, obs, p, q, c, station, maxStamp);
  }

  lemma FirstAreLatest(m: map<long, int>, obs: seq<Observation>, p: nat, q: nat, c: nat, station: seq<byte>,
      maxStamp: long)
    requires p + c <= q <= |obs| && Maps(m, obs, p, c) && IsRun(obs, p, q, station, maxStamp)
    ensures IsLatest(m, c, obs, station, maxStamp)
  {
    forall t | t in m ensures Observation(station, t, m[t]) in obs && t <= maxStamp {
      assert HasTime(obs, p, c, t);
      var i :| p <= i < p + c && obs[i].time == t;
      assert Wanted(obs[i], station, maxStamp);
      assert obs[i] == Observation(station, t, m[t]);
    }
    forall i | 0 <= i < |obs| && Wanted(obs[i], station, maxStamp) && obs[i].time !in m
      ensures forall t :: t in m ==> obs[i].time < t
    {
      assert i >= p + c;
      forall t | t in m ensures obs[i].time < t {
        assert HasTime(obs, p, c, t);
      }
    }
  }

  /** The condition is exact for the rows that are read: all of them are the station's if and only if it has as many
      observations as are asked for, or none of another station follows. */
  lemma ReadsOnlyTheStation(table: seq<Row>, obs: seq<Observation>, station: seq<byte>, maxStamp: long, maxCount: int)
    requires Sorted(table) && HoldsObservations(table, obs) && |station| == STATION_ID_LENGTH
    ensures var p, n := First(table, station, maxStamp), Reads(table, station, maxStamp, maxCount);
      (forall i :: p <= i < p + n ==> Wanted(obs[i], station, maxStamp))
        <==> Available(table, obs, station, maxStamp) >= maxCount || NothingFollows(table, obs, station, maxStamp)
  {
    var p := First(table, station, maxStamp);
    var q := RunEnd(obs, station, maxStamp, p);
    if q - p < maxCount && q < |table| {
      assert p <= q < p + Reads(table, station, maxStamp, maxCount);
    }
  }

  // ----- exactly when the answer is right

  /** No row up to e has the time of row i, later than it. */
  predicate LastOfItsTime(obs: seq<Observation>, i: nat, e: nat)
    requires i < e <= |obs|
  {
    forall j :: i < j < e ==> obs[j].time != obs[i].time
  }

  lemma {:induction false} LastExists(obs: seq<Observation>, i: nat, e: nat) returns (last: nat)
    requires i < e <= |obs|
    ensures i <= last < e && obs[last].time == obs[i].time && LastOfItsTime(obs, last, e)
    decreases e - i
  {
    if j :| i < j < e && obs[j].time == obs[i].time {
      last := LastExists(obs, j, e);
    } else {
      last := i;
    }
  }

  /** Each time read, from row p up to e, is in the map with the temperature of the last row that has it. */
  ghost predicate MapsLast(m: map<long, int>, obs: seq<Observation>, p: nat, e: nat)
    requires p <= e <= |obs|
  {
    TimesRead(m, obs, p, e) && LastsIn(m, obs, p, e)
  }

  ghost predicate TimesRead(m: map<long, int>, obs: seq<Observation>, p: nat, e: nat)
    requires p <= e <= |obs|
  {
    forall t {:trigger TimeRead(obs, p, e, t)} :: t in m ==> TimeRead(obs, p, e, t)
  }

  ghost predicate LastsIn(m: map<long, int>, obs: seq<Observation>, p: nat, e: nat)
    requires p <= e <= |obs|
  {
    forall i {:trigger LastOfItsTime(obs, i, e)} :: p <= i < e && LastOfItsTime(obs, i, e) ==> InMap(m, obs[i])
  }

  predicate InMap(m: map<long, int>, o: Observation) {
    o.time in m && m[o.time] == o.temperature
  }

  ghost predicate TimeRead(obs: seq<Observation>, p: nat, e: nat, t: long)
    requires p <= e <= |obs|
  {
    exists i :: p <= i < e && obs[i].time == t
  }

  lemma {:induction false} CollectedLast(table: seq<Row>, obs: seq<Observation>, p: nat, n: nat)
    requires HoldsObservations(table, obs) && p + n <= |obs|
    ensures Collected(table, p, n).Found? && MapsLast(Collected(table, p, n).observations, obs, p, p + n)
    decreases n
  {
    if n > 0 {
      CollectedLast(table, obs, p, n - 1);
      assert HoldsOne(table[p + n - 1], obs[p + n - 1]);
      StampOfKey(obs[p + n - 1].station, obs[p + n - 1].time);
      LastOneMore(Collected(table, p, n - 1).observations, obs, p, p + n - 1);
    }
  }

  lemma LastOneMore(m: map<long, int>, obs: seq<Observation>, p: nat, e: nat)
    requires p <= e < |obs| && MapsLast(m, obs, p, e)
    ensures MapsLast(m[obs[e].time := obs[e].temperature], obs, p, e + 1)
  {
    TimesOneMore(m, obs, p, e);
    var m' := m[obs[e].time := obs[e].temperature];
    forall i | p <= i < e + 1 && LastOfItsTime(obs, i, e + 1) ensures InMap(m', obs[i]) {
      StaysInMap(m, obs, p, e, i);
    }
  }

  lemma TimesOneMore(m: map<long, int>, obs: seq<Observation>, p: nat, e: nat)
    requires p <= e < |obs| && TimesRead(m, obs, p, e)
    ensures TimesRead(m[obs[e].time := obs[e].temperature], obs, p, e + 1)
  {
    forall t | t in m || t == obs[e].time ensures TimeRead(obs, p, e + 1, t) {
      assert TimeRead(obs, p, e, t) || t == obs[e].time;
    }
  }

  lemma StaysInMap(m: map<long, int>, obs: seq<Observation>, p: nat, e: nat, i: nat)
    requires p <= i <= e < |obs| && LastsIn(m, obs, p, e) && LastOfItsTime(obs, i, e + 1)
    ensures InMap(m[obs[e].time := obs[e].temperature], obs[i])
  {
    if i < e {
      assert LastOfItsTime(obs, i, e);
    }
  }

  /** Row i, which is read though it lies behind the wanted rows from p to q, ends up in the answer, and no wanted row
      has its time and temperature. */
  predicate Misleads(obs: seq<Observation>, p: nat, q: nat, e: nat, i: nat)
    requires p <= q <= i < e <= |obs|
  {
    LastOfItsTime(obs, i, e)
    && forall w :: p <= w < q ==> obs[w].time != obs[i].time || obs[w].temperature != obs[i].temperature
  }

  predicate NoneMisleads(obs: seq<Observation>, p: nat, q: nat, e: nat)
    requires p <= q <= |obs| && e <= |obs|
  {
    forall i :: q <= i < e ==> !Misleads(obs, p, q, e, i)
  }

  /** When the answer is right: exactly if every row read behind the wanted ones that another does not overwrite
      repeats the time and the temperature of a wanted one. */
  lemma RightIfNoneMisleads(table: seq<Row>, obs: seq<Observation>, station: seq<byte>, maxStamp: long, maxCount: int,
      p: nat, q: nat)
    requires Sorted(table) && HoldsObservations(table, obs) && |station| == STATION_ID_LENGTH
    requires p == First(table, station, maxStamp) && q == RunEnd(obs, station, maxStamp, p)
    ensures FindsLatest(Answer(table, station, maxStamp, maxCount), Least(maxCount, q - p), obs, station, maxStamp) <==>
      NoneMisleads(obs, p, q, p + Reads(table, station, maxStamp, maxCount))
  {
    var o, c := Answer(table, station, maxStamp, maxCount), Reads(table, station, maxStamp, maxCount);
    var n := Least(maxCount, q - p);
    assert FindsLatest(o, n, obs, station, maxStamp) <==> NoneMisleads(obs, p, q, p + c) by {
      WantedAreTogether(table, obs, station, maxStamp);
      RightFrom(o, table, obs, p, q, c, station, maxStamp, maxCount);
    }
  }

  lemma RightFrom(o: Outcome, table: seq<Row>, obs: seq<Observation>, p: nat, q: nat, c: nat, station: seq<byte>,
      maxStamp: long, maxCount: int)
    requires HoldsObservations(table, obs) && IsRun(obs, p, q, station, maxStamp)
    requires c == Least(maxCount, |table| - p) && o == Collected(table, p, c)
    ensures FindsLatest(o, Least(maxCount, q - p), obs, station, maxStamp) <==> NoneMisleads(obs, p, q, p + c)
  {
    if p + c <= q {
      RightWithin(table, obs, p, q, c, station, maxStamp, maxCount);
    } else {
      RightBeyond(table, obs, p, q, c, station, maxStamp);
    }
  }

  /** No more rows than the wanted ones are read. */
  lemma RightWithin(table: seq<Row>, obs: seq<Observation>, p: nat, q: nat, c: nat, station: seq<byte>,
      maxStamp: long, maxCount: int)
    requires HoldsObservations(table, obs) && IsRun(obs, p, q, station, maxStamp) && p + c <= q
    requires c == Least(maxCount, |table| - p)
    ensures FindsLatest(Collected(table, p, c), Least(maxCount, q - p), obs, station, maxStamp)
    ensures NoneMisleads(obs, p, q, p + c)
  {
    LatestFrom(table, obs, p, q, station, maxStamp, maxCount);
  }

  /** Rows behind the wanted ones are read. */
  lemma RightBeyond(table: seq<Row>, obs: seq<Observation>, p: nat, q: nat, c: nat, station: seq<byte>, maxStamp: long)
    requires HoldsObservations(table, obs) && IsRun(obs, p, q, station, maxStamp) && q <= p + c <= |obs|
    ensures FindsLatest(Collected(table, p, c), q - p, obs, station, maxStamp) <==> NoneMisleads(obs, p, q, p + c)
  {
    CollectedLast(table, obs, p, c);
    RunCollected(table, obs, p, q, station, maxStamp);
    var wanted, m := Collected(table, p, q - p).observations, Collected(table, p, c).observations;
    MapIsRight(wanted, m, obs, p, q, c, station, maxStamp);
  }

  lemma RunCollected(table: seq<Row>, obs: seq<Observation>, p: nat, q: nat, station: seq<byte>, maxStamp: long)
    requires HoldsObservations(table, obs) && IsRun(obs, p, q, station, maxStamp)
    ensures Collected(table, p, q - p).Found? && Maps(Collected(table, p, q - p).observations, obs, p, q - p)
  {
    CollectedTimes(table, obs, p, q - p);
  }

  lemma MapIsRight(wanted: map<long, int>, m: map<long, int>, obs: seq<Observation>, p: nat, q: nat, c: nat,
      station: seq<byte>, maxStamp: long)
    requires IsRun(obs, p, q, station, maxStamp) && q <= p + c <= |obs|
    requires Maps(wanted, obs, p, q - p) && MapsLast(m, obs, p, p + c)
    ensures IsLatest(m, q - p, obs, station, maxStamp) <==> NoneMisleads(obs, p, q, p + c)
  {
    if NoneMisleads(obs, p, q, p + c) {
      SameAnswer(wanted, m, obs, p, q, c, station, maxStamp);
      FirstAreLatest(wanted, obs, p, q, q - p, station, maxStamp);
    } else {
      var i :| q <= i < p + c && Misleads(obs, p, q, p + c, i);
      MisleadingIsWrong(m, obs, p, q, c, i, station, maxStamp);
    }
  }

  /** Then the further rows have changed nothing. */
  lemma SameAnswer(wanted: map<long, int>, m: map<long, int>, obs: seq<Observation>, p: nat, q: nat, c: nat,
      station: seq<byte>, maxStamp: long)
    requires IsRun(obs, p, q, station, maxStamp) && q <= p + c <= |obs| && NoneMisleads(obs, p, q, p + c)
    requires Maps(wanted, obs, p, q - p) && MapsLast(m, obs, p, p + c)
    ensures m == wanted
  {
    forall t | t in wanted ensures t in m {
      assert HasTime(obs, p, q - p, t);
      var i :| p <= i < q && obs[i].time == t;
      var last := LastExists(obs, i, p + c);
      assert InMap(m, obs[last]);
    }
    forall t | t in m ensures t in wanted && m[t] == wanted[t] {
      assert TimeRead(obs, p, p + c, t);
      var i :| p <= i < p + c && obs[i].time == t;
      var last := LastExists(obs, i, p + c);
      assert InMap(m, obs[last]);
      if last >= q {
        assert !Misleads(obs, p, q, p + c, last);
      }
    }
  }

  lemma MisleadingIsWrong(m: map<long, int>, obs: seq<Observation>, p: nat, q: nat, c: nat, i: nat,
      station: seq<byte>, maxStamp: long)
    requires IsRun(obs, p, q, station, maxStamp) && q <= i < p + c <= |obs| && Misleads(obs, p, q, p + c, i)
    requires MapsLast(m, obs, p, p + c)
    ensures forall n :: !IsLatest(m, n, obs, station, maxStamp)
  {
    var t := obs[i].time;
    assert InMap(m, obs[i]);
    if n :| IsLatest(m, n, obs, station, maxStamp) {
      var w :| 0 <= w < |obs| && obs[w] == Observation(station, t, m[t]);
      assert Wanted(obs[w], station, maxStamp);
    }
  }

  /** Only the first bytes of a station id matter. */
  lemma IdIsTruncated(table: seq<Row>, stationId: seq<byte>, maxStamp: long, maxCount: int)
    requires |stationId| >= STATION_ID_LENGTH
    ensures Answer(table, stationId, maxStamp, maxCount)
      == Answer(table, stationId[..STATION_ID_LENGTH], maxStamp, maxCount)
  {
    assert stationId[..STATION_ID_LENGTH][..STATION_ID_LENGTH] == stationId[..STATION_ID_LENGTH];
  }

  /** A row as the importer writes it. */
  function RowOf(o: Observation): (row: Row)
    requires |o.station| == STATION_ID_LENGTH && IsInt(o.temperature)
  {
    Row(Key(o.station, o.time), IntBytes(o.temperature))
  }

  /** If a station has one observation and a later station follows, a query for two returns the other station's too. */
  lemma NextStationLeaksIn(a: Observation, b: Observation, maxStamp: long)
    requires |a.station| == |b.station| == STATION_ID_LENGTH && Less(a.station, b.station) && a.time <= maxStamp
    requires IsInt(a.temperature) && IsInt(b.temperature)
    ensures var table := [RowOf(a), RowOf(b)];
      && Sorted(table) && HoldsObservations(table, [a, b])
      && Answer(table, a.station, maxStamp, 2) == Found(map[a.time := a.temperature][b.time := b.temperature])
  {
    var table := [RowOf(a), RowOf(b)];
    WholeId(a.station, b.station);
    KeyOrder(a.station, a.time, b.station, b.time);
    KeyOrder(a.station, a.time, a.station, maxStamp);
    LessIsTransitive(a.station, a.station, a.station);
    StampOfKey(a.station, a.time);
    StampOfKey(b.station, b.time);
    ToIntOfBytes(a.temperature);
    ToIntOfBytes(b.temperature);
    TwoRows(table, 0);
  }

  lemma TwoRows(table: seq<Row>, p: nat)
    requires p + 2 == |table| && WellFormed(table[p]) && WellFormed(table[p + 1])
    ensures Collected(table, p, 2) ==
      Found(map[Stamp(table[p].key) := ToInt(table[p].value)][Stamp(table[p + 1].key) := ToInt(table[p + 1].value)])
  {
    assert Collected(table, p, 1) == Found(map[][Stamp(table[p].key) := ToInt(table[p].value)]);
  }
}
