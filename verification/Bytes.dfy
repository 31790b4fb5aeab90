/** Fixed-width integers and their little-endian two's-complement bytes.

    `Put32` and `Put64` write in front of the bytes that follow, so a record is
    described by nesting them; `Get…` reads one field and returns what is left. */
module Bytes {
  import opened Prelude

  const TWO31 := 0x8000_0000
  const TWO32 := 0x1_0000_0000
  const TWO63 := 0x8000_0000_0000_0000
  const TWO64 := 0x1_0000_0000_0000_0000

  type byte = x: int | 0 <= x < 256
  type int32 = x: int | -TWO31 <= x < TWO31
  type uint32 = x: int | 0 <= x < TWO32
  type int64 = x: int | -TWO63 <= x < TWO63
  type uint64 = x: int | 0 <= x < TWO64

  const WORD: nat := 4
  const LONG: nat := 8

  /** The low `width` base-256 digits of n, least significant first. */
  function LittleEndian(n: nat, width: nat): (b: seq<byte>)
    ensures |b| == width
  {
    if width == 0 then [] else [n % 256] + LittleEndian(n / 256, width - 1)
  }

  /** Reads `width` base-256 digits, least significant first. */
  function GetDigits(width: nat, b: seq<byte>): (r: Option<(nat, seq<byte>)>)
    ensures r.Some? ==> r.value.0 < Capacity(width)
    decreases |b|
  {
    if width == 0 then Some((0, b))
    else if b == [] then None
    else
      var (n, rest) :- GetDigits(width - 1, b[1..]);
      Some((b[0] + 256 * n, rest))
  }

  function Capacity(width: nat): nat {
    if width == 0 then 1 else 256 * Capacity(width - 1)
  }

  lemma {:induction false} DigitsRoundTrip(n: nat, width: nat, tail: seq<byte>)
    requires n < Capacity(width)
    ensures GetDigits(width, LittleEndian(n, width) + tail) == Some((n, tail))
    decreases width
  {
    var b := LittleEndian(n, width) + tail;
    if width == 0 {
      assert b == tail;
    } else {
      DigitsRoundTrip(n / 256, width - 1, tail);
      assert b[1..] == LittleEndian(n / 256, width - 1) + tail;
    }
  }

  lemma Capacities()
    ensures Capacity(WORD) == TWO32 && Capacity(LONG) == TWO64
  {
    assert Capacity(2) == 0x1_0000;
    assert Capacity(4) == 256 * (256 * Capacity(2));
    assert Capacity(6) == 256 * (256 * Capacity(4));
  }

  /** The digits that stand for a negative number are those of its two's complement. */
  function Unsigned(v: int, capacity: nat): int {
    if v < 0 then v + capacity else v
  }

  /** The four bytes of v, which may be read back as signed or unsigned. */
  function Put32(v: int, tail: seq<byte>): (b: seq<byte>)
    requires -TWO31 <= v < TWO32
    ensures v < TWO31 ==> GetI32(b) == Some((v, tail))
    ensures 0 <= v ==> GetU32(b) == Some((v, tail))
    ensures forall more {:trigger b + more} :: b + more == LittleEndian(Unsigned(v, TWO32), WORD) + (tail + more)
  {
    Capacities();
    DigitsRoundTrip(Unsigned(v, TWO32), WORD, tail);
    LittleEndian(Unsigned(v, TWO32), WORD) + tail
  }

  /** The eight bytes of v, which may be read back as signed or unsigned. */
  function Put64(v: int, tail: seq<byte>): (b: seq<byte>)
    requires -TWO63 <= v < TWO64
    ensures v < TWO63 ==> GetI64(b) == Some((v, tail))
    ensures 0 <= v ==> GetU64(b) == Some((v, tail))
    ensures forall more {:trigger b + more} :: b + more == LittleEndian(Unsigned(v, TWO64), LONG) + (tail + more)
  {
    Capacities();
    DigitsRoundTrip(Unsigned(v, TWO64), LONG, tail);
    LittleEndian(Unsigned(v, TWO64), LONG) + tail
  }

  function PutBlob(data: seq<byte>, tail: seq<byte>): (b: seq<byte>)
    ensures GetBlob(|data|, b) == Some((data, tail))
    ensures forall more {:trigger b + more} :: b + more == data + (tail + more)
  {
    assert (data + tail)[..|data|] == data;
    data + tail
  }

  function GetU32(b: seq<byte>): Option<(uint32, seq<byte>)> {
    Capacities();
    GetDigits(WORD, b)
  }

  function GetI32(b: seq<byte>): Option<(int32, seq<byte>)> {
    var (u, rest) :- GetU32(b);
    Some((if u < TWO31 then u else u - TWO32, rest))
  }

  function GetU64(b: seq<byte>): Option<(uint64, seq<byte>)> {
    Capacities();
    GetDigits(LONG, b)
  }

  function GetI64(b: seq<byte>): Option<(int64, seq<byte>)> {
    var (u, rest) :- GetU64(b);
    Some((if u < TWO63 then u else u - TWO64, rest))
  }

  /** A block of n bytes; a negative count or a short stream is an archive error. */
  function GetBlob(n: int, b: seq<byte>): Option<(seq<byte>, seq<byte>)> {
    if n < 0 || |b| < n then None else Some((b[..n], b[n..]))
  }

  // ---- Runs of fixed-width fields

  datatype Kind = I32 | U32 | I64 | U64
  {
    predicate Fits(v: int) {
      match this
      case I32 => -TWO31 <= v < TWO31
      case U32 => 0 <= v < TWO32
      case I64 => -TWO63 <= v < TWO63
      case U64 => 0 <= v < TWO64
    }
  }

  /** A value that fits the width it is written in. */
  type Field = f: (Kind, int) | f.0.Fits(f.1) witness (I32, 0)

  function PutField(f: Field, tail: seq<byte>): (b: seq<byte>)
    ensures GetField(f.0, b) == Some((f.1, tail))
  {
    match f.0
    case I32 | U32 => Put32(f.1, tail)
    case I64 | U64 => Put64(f.1, tail)
  }

  function GetField(kind: Kind, b: seq<byte>): (r: Option<(int, seq<byte>)>)
    ensures r.Some? ==> kind.Fits(r.value.0)
  {
    match kind
    case I32 => (var (v, b) :- GetI32(b); Some((v, b)))
    case U32 => (var (v, b) :- GetU32(b); Some((v, b)))
    case I64 => (var (v, b) :- GetI64(b); Some((v, b)))
    case U64 => (var (v, b) :- GetU64(b); Some((v, b)))
  }

  predicate FitsAt(kinds: seq<Kind>, values: seq<int>, i: nat)
    requires i < |kinds| == |values|
  {
    kinds[i].Fits(values[i])
  }

  predicate AllFit(kinds: seq<Kind>, values: seq<int>) {
    |kinds| == |values| && forall i :: 0 <= i < |kinds| ==> FitsAt(kinds, values, i)
  }

  lemma AllFitCons(kinds: seq<Kind>, v: int, vs: seq<int>)
    requires kinds != [] && kinds[0].Fits(v) && AllFit(kinds[1..], vs)
    ensures AllFit(kinds, [v] + vs)
  {
    forall i | 0 < i < |kinds| ensures FitsAt(kinds, [v] + vs, i) {
      assert FitsAt(kinds[1..], vs, i - 1);
    }
  }

  function PutFields(fields: seq<Field>, tail: seq<byte>): seq<byte> {
    if fields == [] then tail else PutField(fields[0], PutFields(fields[1..], tail))
  }

  function GetFields(kinds: seq<Kind>, b: seq<byte>): (r: Option<(seq<int>, seq<byte>)>)
    ensures r.Some? ==> AllFit(kinds, r.value.0)
  {
    if kinds == [] then Some(([], b))
    else
      var (v, b) :- GetField(kinds[0], b);
      var (vs, b) :- GetFields(kinds[1..], b);
      AllFitCons(kinds, v, vs);
      Some(([v] + vs, b))
  }

  /** Fields that are read in the order and widths they were written in come back. */
  lemma {:induction false} FieldsRoundTrip(kinds: seq<Kind>, fields: seq<Field>, values: seq<int>, tail: seq<byte>)
    requires |kinds| == |fields| == |values|
    requires forall i :: 0 <= i < |fields| ==> fields[i] == (kinds[i], values[i])
    ensures GetFields(kinds, PutFields(fields, tail)) == Some((values, tail))
  {
    if fields != [] {
      FieldsRoundTrip(kinds[1..], fields[1..], values[1..], tail);
      assert values == [values[0]] + values[1..];
    }
  }

  lemma {:induction false} FieldsAppend(fields: seq<Field>, tail: seq<byte>, more: seq<byte>)
    ensures PutFields(fields, tail) + more == PutFields(fields, tail + more)
  {
    if fields != [] {
      FieldsAppend(fields[1..], tail, more);
    }
  }

  /** Writing one more field at the end of a run. */
  lemma {:induction false} FieldsSnoc(fields: seq<Field>, field: Field, tail: seq<byte>)
    ensures PutFields(fields + [field], tail) == PutFields(fields, PutField(field, tail))
  {
    if fields == [] {
      assert PutFields([field], tail) == PutField(field, PutFields([], tail));
    } else {
      FieldsSnoc(fields[1..], field, tail);
      assert (fields + [field])[1..] == fields[1..] + [field];
    }
  }

  /** Reading a run of fields is reading its front and then the rest. */
  lemma {:induction false} FieldsSplit(front: seq<Kind>, back: seq<Kind>, b: seq<byte>)
    ensures GetFields(front + back, b) ==
            match GetFields(front, b)
            case None => None
            case Some((v, rest)) =>
              match GetFields(back, rest)
              case None => None
              case Some((w, rest)) => Some((v + w, rest))
  {
    if front == [] {
      assert front + back == back;
      if GetFields(back, b).Some? {
        assert [] + GetFields(back, b).value.0 == GetFields(back, b).value.0;
      }
    } else {
      assert (front + back)[1..] == front[1..] + back;
      var first := GetField(front[0], b);
      if first.Some? {
        FieldsSplit(front[1..], back, first.value.1);
        if GetFields(front + back, b).Some? {
          var v := GetFields(front[1..], first.value.1).value;
          var w := GetFields(back, v.1).value;
          assert [first.value.0] + (v.0 + w.0) == [first.value.0] + v.0 + w.0;
        }
      }
    }
  }
}
