/** Choosing the tracker of a stream partition: a 32-bit hash of its key, modulo the number of trackers. */
module TrackerRegistries {

  /** One UTF-16 code unit, as the hash reads strings. */
  type CodeUnit = n: nat | n < 0x1_0000

  type Text = seq<CodeUnit>

  const COLON: CodeUnit := 58
  const ZERO: CodeUnit := 48

  // ---------- 32-bit integers ----------

  /** ToInt32, section 7.1.6 of ECMA-262, 2021 edition. */
  function ToInt32(x: int): (r: int)
    ensures -0x8000_0000 <= r < 0x8000_0000
    ensures (x - r) % 0x1_0000_0000 == 0
  {
    var m := x % 0x1_0000_0000;
    if m >= 0x8000_0000 then m - 0x1_0000_0000 else m
  }

  /** Numbers that differ by a multiple of 2^32 wrap alike. */
  lemma WrapsAlike(x: int, y: int, k: int)
    requires x - y == k * 0x1_0000_0000
    ensures ToInt32(x) == ToInt32(y)
  {
  }

  lemma WrapDifference(x: int) returns (k: int)
    ensures x == ToInt32(x) + k * 0x1_0000_0000
  {
    k := (x - ToInt32(x)) / 0x1_0000_0000;
  }

  /** The left shift by five of a 32-bit integer. */
  function ShiftedLeft5(h: int): int {
    ToInt32(h * 32)
  }

  /** What one step computes before it wraps; a double holds it exactly. */
  function Mixed(h: int, code: CodeUnit): (x: int)
    requires -0x8000_0000 <= h < 0x8000_0000
    ensures -0x20_0000_0000_0000 < ShiftedLeft5(h) - h < 0x20_0000_0000_0000
    ensures -0x20_0000_0000_0000 < x < 0x20_0000_0000_0000
  {
    ShiftedLeft5(h) - h + code
  }

  // ---------- the hash ----------

  function Power31(n: nat): nat {
    if n == 0 then 1 else 31 * Power31(n - 1)
  }

  /** The sum of code_i * 31^(n-1-i). */
  function Polynomial(str: Text): nat {
    if str == [] then 0 else str[0] * Power31(|str| - 1) + Polynomial(str[1..])
  }

  lemma {:induction false} PolynomialOfLonger(str: Text, code: CodeUnit)
    ensures Polynomial(str + [code]) == 31 * Polynomial(str) + code
    decreases |str|
  {
    if str == [] {
      assert (str + [code])[1..] == [];
    } else {
      assert (str + [code])[1..] == str[1..] + [code];
      PolynomialOfLonger(str[1..], code);
      assert str[0] * Power31(|str|) == 31 * (str[0] * Power31(|str| - 1)) by {
        assert Power31(|str|) == 31 * Power31(|str| - 1);
      }
    }
  }

  lemma StepWraps(total: int, code: CodeUnit)
    ensures ToInt32(Mixed(ToInt32(total), code)) == ToInt32(31 * total + code)
  {
    var h := ToInt32(total);
    var j := WrapDifference(total);
    var k := WrapDifference(h * 32);
    WrapsAlike(31 * total + code, Mixed(h, code), 31 * j + k);
  }

  /** The fold over the string; wrapping at every step is wrapping the polynomial once. */
  function Folded(str: Text): (h: int)
    ensures h == ToInt32(Polynomial(str))
    decreases |str|
  {
    if str == [] then 0
    else
      var last := |str| - 1;
      StepWraps(Polynomial(str[..last]), str[last]);
      PolynomialOfLonger(str[..last], str[last]);
      assert str[..last] + [str[last]] == str;
      ToInt32(Mixed(Folded(str[..last]), str[last]))
  }

  function HashCode(str: Text): (r: nat)
    ensures r <= 0x8000_0000
    ensures r == ToInt32(Polynomial(str)) || r == -ToInt32(Polynomial(str))
  {
    var a := Folded(str);
    if a < 0 then -a else a
  }

  // ---------- choosing a tracker ----------

  function Decimal(n: nat): (s: Text)
    ensures s != [] && forall i :: 0 <= i < |s| ==> s[i] != COLON
  {
    if n < 10 then [ZERO + n] else Decimal(n / 10) + [ZERO + n % 10]
  }

  lemma {:induction false} DecimalIsInjective(m: nat, n: nat)
    requires Decimal(m) == Decimal(n)
    ensures m == n
    decreases m
  {
    var s := Decimal(m);
    if m >= 10 && n >= 10 {
      assert Decimal(m / 10) == s[..|s| - 1] == Decimal(n / 10);
      assert s[|s| - 1] == ZERO + m % 10 == ZERO + n % 10;
      DecimalIsInjective(m / 10, n / 10);
    } else if m < 10 && n < 10 {
      assert s[0] == ZERO + m == ZERO + n;
    }
  }

  function StreamKey(streamId: Text, partition: nat): Text {
    streamId + [COLON, COLON] + Decimal(partition)
  }

  /** Different stream partitions have different keys. */
  lemma StreamKeyIsInjective(id1: Text, p1: nat, id2: Text, p2: nat)
    requires StreamKey(id1, p1) == StreamKey(id2, p2)
    ensures id1 == id2 && p1 == p2
  {
    var key := StreamKey(id1, p1);
    ColonEndsId(id1, p1, id2, p2);
    ColonEndsId(id2, p2, id1, p1);
    assert id1 == key[..|id1|] && id2 == key[..|id2|];
    assert Decimal(p1) == key[|id1| + 2..] && Decimal(p2) == key[|id2| + 2..];
    DecimalIsInjective(p1, p2);
  }

  lemma NoColonAfterKey(id: Text, p: nat, i: nat)
    requires |id| + 2 <= i < |StreamKey(id, p)|
    ensures StreamKey(id, p)[i] != COLON
  {
    assert StreamKey(id, p)[i] == Decimal(p)[i - |id| - 2];
  }

  lemma ColonEndsId(id1: Text, p1: nat, id2: Text, p2: nat)
    requires StreamKey(id1, p1) == StreamKey(id2, p2)
    ensures |id1| <= |id2|
  {
    if |id1| > |id2| { NoColonAfterKey(id2, p2, |id1| + 1); }
  }

  datatype Choice<T> = Chosen(tracker: T) | InvalidId | InvalidPartition | Undefined

  ghost predicate HasDoubleColon(id: Text) {
    exists i :: 0 <= i < |id| - 1 && id[i] == COLON && id[i + 1] == COLON
  }

  class TrackerRegistry<T> {
    const records: seq<T>

    constructor (records: seq<T>)
      ensures this.records == records
    {
      this.records := records;
    }

    /** The tracker of a partition; an empty registry has none to offer. */
    method GetTracker(streamId: Text, partition: int) returns (choice: Choice<T>)
      ensures choice == InvalidId <==> HasDoubleColon(streamId)
      ensures choice == InvalidPartition <==> !HasDoubleColon(streamId) && partition < 0
      ensures choice == Undefined <==> !HasDoubleColon(streamId) && 0 <= partition && records == []
      ensures choice.Chosen? ==> exists i :: 0 <= i < |records| && choice.tracker == records[i]
                                             && i == HashCode(StreamKey(streamId, partition)) % |records|
    {
      if exists i :: 0 <= i < |streamId| - 1 && streamId[i] == COLON && streamId[i + 1] == COLON { return InvalidId; }
      if partition < 0 { return InvalidPartition; }
      if records == [] { return Undefined; }
      return Chosen(records[HashCode(StreamKey(streamId, partition)) % |records|]);
    }
  }
}
