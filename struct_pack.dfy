/** Python's `struct.pack` / `struct.unpack` for the network-order ('!')
    formats the exporter uses: standard sizes, big-endian, no alignment
    padding, and `struct.error` for an argument outside the code's range. */
module Struct {
  import opened Wrappers
  import opened Arith

  type byte = x: int | 0 <= x < 0x100

  const TWO_16: int := 0x1_0000
  const TWO_32: int := 0x1_0000_0000

  /** The three format characters used: unsigned char, short and int. */
  datatype Code = B | H | I

  function Size(c: Code): nat {
    match c
    case B => 1
    case H => 2
    case I => 4
  }

  /** One past the largest value the code can carry. */
  function Bound(c: Code): int {
    match c
    case B => 0x100
    case H => TWO_16
    case I => TWO_32
  }

  predicate Fits(c: Code, x: int) {
    0 <= x < Bound(c)
  }

  /** Bytes produced by a whole format string (`struct.calcsize`). */
  function FormatSize(fmt: seq<Code>): nat {
    if fmt == [] then 0 else Size(fmt[0]) + FormatSize(fmt[1..])
  }

  /** Big-endian encoding of one in-range value. */
  function Encode(c: Code, x: int): seq<byte>
    requires Fits(c, x)
    decreases Size(c)
  {
    match c
    case B => [x]
    case H => [x / 0x100, x % 0x100]
    case I => Encode(H, x / TWO_16) + Encode(H, x % TWO_16)
  }

  /** Big-endian decoding of one value. */
  function Decode(c: Code, b: seq<byte>): int
    requires |b| == Size(c)
    decreases Size(c)
  {
    match c
    case B => b[0]
    case H => b[0] * 0x100 + b[1]
    case I => Decode(H, b[..2]) * TWO_16 + Decode(H, b[2..])
  }

  lemma EncodeDecode(c: Code, x: int)
    requires Fits(c, x)
    ensures |Encode(c, x)| == Size(c)
    ensures Decode(c, Encode(c, x)) == x
  {
    if c == I {
      var hi, lo := Encode(H, x / TWO_16), Encode(H, x % TWO_16);
      assert Encode(I, x)[..2] == hi && Encode(I, x)[2..] == lo;
    }
  }

  lemma DecodeEncode(c: Code, b: seq<byte>)
    requires |b| == Size(c)
    ensures Fits(c, Decode(c, b))
    ensures Encode(c, Decode(c, b)) == b
    decreases Size(c)
  {
    if c == I {
      var hi, lo := Decode(H, b[..2]), Decode(H, b[2..]);
      DecodeEncode(H, b[..2]);
      DecodeEncode(H, b[2..]);
      assert (hi * TWO_16 + lo) / TWO_16 == hi && (hi * TWO_16 + lo) % TWO_16 == lo;
      assert b == b[..2] + b[2..];
    }
  }

  /** Slicing a buffer built from three parts at the part boundaries. */
  lemma SplitThree(a: seq<byte>, b: seq<byte>, c: seq<byte>)
    ensures var s := a + b + c;
      s[..|a|] == a && s[|a|..|a| + |b|] == b && s[|a| + |b|..] == c
  {
  }

  /** Slicing a buffer built from four parts at the part boundaries. */
  lemma SplitFour(a: seq<byte>, b: seq<byte>, c: seq<byte>, d: seq<byte>)
    ensures var s := a + b + c + d;
      s[..|a|] == a && s[|a|..|a| + |b|] == b &&
      s[|a| + |b|..|a| + |b| + |c|] == c && s[|a| + |b| + |c|..] == d
  {
  }

  /** `struct.error` names the first argument that does not fit. */
  datatype PackError = OutOfRange(index: nat)

  /** `struct.pack(fmt, *vals)`: the concatenated encodings, or an error for
      the first argument outside its code's range. */
  function Pack(fmt: seq<Code>, vals: seq<int>): Result<seq<byte>, PackError>
    requires |fmt| == |vals|
  {
    if fmt == [] then Success([])
    else if !Fits(fmt[0], vals[0]) then Failure(OutOfRange(0))
    else match Pack(fmt[1..], vals[1..])
      case Success(rest) => Success(Encode(fmt[0], vals[0]) + rest)
      case Failure(e) => Failure(OutOfRange(e.index + 1))
  }

  /** `struct.unpack(fmt, b)` for a buffer of exactly the format's size. */
  function Unpack(fmt: seq<Code>, b: seq<byte>): (vals: seq<int>)
    requires |b| == FormatSize(fmt)
    ensures |vals| == |fmt|
  {
    if fmt == [] then []
    else [Decode(fmt[0], b[..Size(fmt[0])])] + Unpack(fmt[1..], b[Size(fmt[0])..])
  }

  predicate AllFit(fmt: seq<Code>, vals: seq<int>)
    requires |fmt| == |vals|
  {
    forall i :: 0 <= i < |fmt| ==> Fits(fmt[i], vals[i])
  }

  /** Packing succeeds exactly when every argument is in range, and a failure
      points at the first argument that is not. */
  lemma {:induction false} PackSucceedsIff(fmt: seq<Code>, vals: seq<int>)
    requires |fmt| == |vals|
    ensures Pack(fmt, vals).Success? <==> AllFit(fmt, vals)
    ensures Pack(fmt, vals).Failure? ==>
      var i := Pack(fmt, vals).error.index;
      i < |fmt| && !Fits(fmt[i], vals[i]) && forall j :: 0 <= j < i ==> Fits(fmt[j], vals[j])
  {
    if fmt != [] {
      PackSucceedsIff(fmt[1..], vals[1..]);
      if Fits(fmt[0], vals[0]) {
        assert forall i :: 1 <= i < |fmt| ==> fmt[i] == fmt[1..][i - 1] && vals[i] == vals[1..][i - 1];
      }
    }
  }

  /** Unpacking what was packed gives back the arguments, and the packed
      size is the format's size. */
  lemma {:induction false} PackRoundTrip(fmt: seq<Code>, vals: seq<int>)
    requires |fmt| == |vals|
    requires Pack(fmt, vals).Success?
    ensures |Pack(fmt, vals).value| == FormatSize(fmt)
    ensures Unpack(fmt, Pack(fmt, vals).value) == vals
  {
    if fmt != [] {
      PackRoundTrip(fmt[1..], vals[1..]);
      EncodeDecode(fmt[0], vals[0]);
      var b := Pack(fmt, vals).value;
      var head := Encode(fmt[0], vals[0]);
      assert b[..Size(fmt[0])] == head;
      assert b[Size(fmt[0])..] == Pack(fmt[1..], vals[1..]).value;
    }
  }

  /** Every buffer of the format's size is the packing of its unpacking. */
  lemma {:induction false} UnpackRoundTrip(fmt: seq<Code>, b: seq<byte>)
    requires |b| == FormatSize(fmt)
    ensures |Unpack(fmt, b)| == |fmt|
    ensures Pack(fmt, Unpack(fmt, b)) == Success(b)
  {
    if fmt != [] {
      var n := Size(fmt[0]);
      var d, rest := Decode(fmt[0], b[..n]), Unpack(fmt[1..], b[n..]);
      UnpackRoundTrip(fmt[1..], b[n..]);
      DecodeEncode(fmt[0], b[..n]);
      var vals := Unpack(fmt, b);
      assert vals == [d] + rest;
      assert vals[0] == d && vals[1..] == rest;
      assert Pack(fmt, vals) == Success(Encode(fmt[0], d) + b[n..]);
      assert b == b[..n] + b[n..];
    }
  }

  lemma {:induction false} FormatSizeConcat(f1: seq<Code>, f2: seq<Code>)
    ensures FormatSize(f1 + f2) == FormatSize(f1) + FormatSize(f2)
  {
    if f1 != [] {
      assert (f1 + f2)[1..] == f1[1..] + f2;
      FormatSizeConcat(f1[1..], f2);
    } else {
      assert f1 + f2 == f2;
    }
  }

  /** Packing two formats one after the other is packing their concatenation. */
  lemma {:induction false} PackConcat(f1: seq<Code>, v1: seq<int>, f2: seq<Code>, v2: seq<int>)
    requires |f1| == |v1| && |f2| == |v2|
    ensures Pack(f1 + f2, v1 + v2).Success? <==> Pack(f1, v1).Success? && Pack(f2, v2).Success?
    ensures Pack(f1, v1).Success? && Pack(f2, v2).Success? ==>
      Pack(f1 + f2, v1 + v2).value == Pack(f1, v1).value + Pack(f2, v2).value
  {
    if f1 == [] {
      assert f1 + f2 == f2 && v1 + v2 == v2;
    } else {
      assert (f1 + f2)[1..] == f1[1..] + f2 && (v1 + v2)[1..] == v1[1..] + v2;
      PackConcat(f1[1..], v1[1..], f2, v2);
    }
  }

  /** Every row has one value per format code. */
  predicate Rows(fmt: seq<Code>, rows: seq<seq<int>>) {
    forall i :: 0 <= i < |rows| ==> |rows[i]| == |fmt|
  }

  /** Packing each row with the same format and concatenating the results,
      as a loop `data += struct.pack(fmt, *row)` does; the first row that
      does not fit raises. */
  function PackAll(fmt: seq<Code>, rows: seq<seq<int>>): Result<seq<byte>, PackError>
    requires Rows(fmt, rows)
    decreases |rows|
  {
    if rows == [] then Success([])
    else
      var init :- PackAll(fmt, rows[..|rows| - 1]);
      var last :- Pack(fmt, rows[|rows| - 1]);
      Success(init + last)
  }

  /** Splits a buffer into `count` rows of the format's size and unpacks each. */
  function UnpackAll(fmt: seq<Code>, count: nat, b: seq<byte>): (rows: seq<seq<int>>)
    requires |b| == count * FormatSize(fmt)
    ensures |rows| == count
  {
    if count == 0 then []
    else
      var n := FormatSize(fmt);
      assert |b| - n == (count - 1) * n;
      UnpackAll(fmt, count - 1, b[..|b| - n]) + [Unpack(fmt, b[|b| - n..])]
  }

  /** Splits a buffer into as many rows of the format's size as it holds, or
      nothing when it is not a whole number of rows. */
  function UnpackRows(fmt: seq<Code>, b: seq<byte>): (r: Option<seq<seq<int>>>)
    requires FormatSize(fmt) > 0
    ensures r.Some? <==> |b| % FormatSize(fmt) == 0
    ensures r.Some? ==> |r.value| * FormatSize(fmt) == |b|
  {
    if |b| % FormatSize(fmt) != 0 then None
    else
      DivMulExact(|b|, FormatSize(fmt));
      Some(UnpackAll(fmt, |b| / FormatSize(fmt), b))
  }

  /** A buffer of `n` rows unpacks to `n` rows. */
  lemma UnpackRowsOf(fmt: seq<Code>, n: nat, b: seq<byte>)
    requires FormatSize(fmt) > 0 && |b| == n * FormatSize(fmt)
    ensures UnpackRows(fmt, b) == Some(UnpackAll(fmt, n, b))
  {
    MulDivExact(n, FormatSize(fmt));
  }

  /** Packing rows succeeds exactly when every row fits. */
  lemma {:induction false} PackAllSucceedsIff(fmt: seq<Code>, rows: seq<seq<int>>)
    requires Rows(fmt, rows)
    ensures PackAll(fmt, rows).Success? <==> forall i :: 0 <= i < |rows| ==> AllFit(fmt, rows[i])
    decreases |rows|
  {
    if rows != [] {
      var init := rows[..|rows| - 1];
      PackAllSucceedsIff(fmt, init);
      PackSucceedsIff(fmt, rows[|rows| - 1]);
      assert forall i :: 0 <= i < |init| ==> init[i] == rows[i];
    }
  }

  /** Unpacking one more row peels it off the end of the buffer. */
  lemma UnpackAllSnoc(fmt: seq<Code>, k: nat, a: seq<byte>, z: seq<byte>)
    requires |a| == k * FormatSize(fmt) && |z| == FormatSize(fmt)
    ensures |a + z| == (k + 1) * FormatSize(fmt)
    ensures UnpackAll(fmt, k + 1, a + z) == UnpackAll(fmt, k, a) + [Unpack(fmt, z)]
  {
    var n := FormatSize(fmt);
    MulSucc(k, n);
    var b := a + z;
    assert b[..|b| - n] == a && b[|b| - n..] == z;
  }

  /** A packed table has one block of the format's size per row. */
  lemma {:induction false} PackAllLength(fmt: seq<Code>, rows: seq<seq<int>>)
    requires Rows(fmt, rows) && PackAll(fmt, rows).Success?
    ensures |PackAll(fmt, rows).value| == |rows| * FormatSize(fmt)
    decreases |rows|
  {
    if rows != [] {
      var init := rows[..|rows| - 1];
      PackAllLength(fmt, init);
      PackRoundTrip(fmt, rows[|rows| - 1]);
      MulSucc(|init|, FormatSize(fmt));
    }
  }

  /** A packed table is its packed prefix followed by its packed last row. */
  lemma PackAllSnoc(fmt: seq<Code>, rows: seq<seq<int>>)
    requires Rows(fmt, rows) && rows != [] && PackAll(fmt, rows).Success?
    ensures Rows(fmt, rows[..|rows| - 1]) && PackAll(fmt, rows[..|rows| - 1]).Success?
    ensures Pack(fmt, rows[|rows| - 1]).Success?
    ensures PackAll(fmt, rows).value == PackAll(fmt, rows[..|rows| - 1]).value + Pack(fmt, rows[|rows| - 1]).value
  {
  }

  /** Unpacking a packed table gives the rows back. */
  lemma {:induction false} PackAllRoundTrip(fmt: seq<Code>, rows: seq<seq<int>>)
    requires Rows(fmt, rows) && PackAll(fmt, rows).Success?
    ensures |PackAll(fmt, rows).value| == |rows| * FormatSize(fmt)
    ensures UnpackAll(fmt, |rows|, PackAll(fmt, rows).value) == rows
    decreases |rows|
  {
    PackAllLength(fmt, rows);
    if rows != [] {
      var init, last := rows[..|rows| - 1], rows[|rows| - 1];
      PackAllSnoc(fmt, rows);
      var a, z := PackAll(fmt, init).value, Pack(fmt, last).value;
      assert |a| == |init| * FormatSize(fmt) && UnpackAll(fmt, |init|, a) == init by {
        PackAllRoundTrip(fmt, init);
      }
      assert |z| == FormatSize(fmt) && Unpack(fmt, z) == last by {
        PackRoundTrip(fmt, last);
      }
      UnpackAllSnoc(fmt, |init|, a, z);
      assert |rows| == |init| + 1 && rows == init + [last];
      calc {
        UnpackAll(fmt, |rows|, PackAll(fmt, rows).value);
        UnpackAll(fmt, |init| + 1, a + z);
        UnpackAll(fmt, |init|, a) + [Unpack(fmt, z)];
      }
    }
  }

  /** Once a prefix of the rows fails to pack, the whole table fails with
      the same error. */
  lemma {:induction false} PackAllFailurePropagates(fmt: seq<Code>, rows: seq<seq<int>>, k: nat)
    requires Rows(fmt, rows) && k <= |rows| && PackAll(fmt, rows[..k]).Failure?
    ensures PackAll(fmt, rows) == PackAll(fmt, rows[..k])
    decreases |rows| - k
  {
    if k == |rows| {
      assert rows[..k] == rows;
    } else {
      assert rows[..k + 1][..k] == rows[..k];
      PackAllFailurePropagates(fmt, rows, k + 1);
    }
  }

  /** One step of the packing loop: the next row either extends the packed
      prefix or decides the failure of the whole table. */
  lemma PackAllStep(fmt: seq<Code>, rows: seq<seq<int>>, i: nat, data: seq<byte>)
    requires Rows(fmt, rows) && i < |rows| && PackAll(fmt, rows[..i]) == Success(data)
    ensures Pack(fmt, rows[i]).Success? ==> PackAll(fmt, rows[..i + 1]) == Success(data + Pack(fmt, rows[i]).value)
    ensures Pack(fmt, rows[i]).Failure? ==> PackAll(fmt, rows) == Failure(Pack(fmt, rows[i]).error)
  {
    assert rows[..i + 1][..i] == rows[..i];
    if Pack(fmt, rows[i]).Failure? {
      PackAllFailurePropagates(fmt, rows, i + 1);
    }
  }
}
