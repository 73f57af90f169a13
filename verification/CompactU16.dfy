/** Solana shortvec length prefix (packages/solana-core/src/compact-u16.ts). */
module CompactU16 {
  import opened Wrappers
  import opened Bytes

  const MAX_VALUE := 0xffff
  const MAX_BYTES := 3

  datatype Error = OutOfRange | Truncated | TooLong
  datatype Decoded = Decoded(value: nat, length: nat)

  /** The 7-bit groups of `n`, low group first, continuation bit on all but the last. */
  function Groups(n: nat): (bs: seq<byte>)
    ensures |bs| >= 1
  {
    if n <= 0x7f then [n] else [n % 128 + 128] + Groups(n / 128)
  }

  /** Reads at most `budget` groups of `bytes` starting at `at`. */
  function ReadFrom(bytes: seq<byte>, at: nat, budget: nat): (r: Result<Decoded, Error>)
    requires budget >= 1
    decreases budget
  {
    if at >= |bytes| then Err(Truncated)
    else if bytes[at] < 128 then Ok(Decoded(bytes[at], 1))
    else if budget == 1 then Err(TooLong)
    else
      var d :- ReadFrom(bytes, at + 1, budget - 1);
      Ok(Decoded(bytes[at] - 128 + 128 * d.value, d.length + 1))
  }

  function Read(bytes: seq<byte>, offset: nat): Result<Decoded, Error> {
    ReadFrom(bytes, offset, MAX_BYTES)
  }

  /** Encode: the range check, the single-byte path, then the group loop. */
  method Encode(n: int) returns (r: Result<seq<byte>, Error>)
    ensures r.Ok? <==> 0 <= n <= MAX_VALUE
    ensures r.Ok? ==> r.value == Groups(n)
    ensures r.Err? ==> r.error == OutOfRange
  {
    if n < 0 || n > MAX_VALUE {
      return Err(OutOfRange);
    }
    if n <= 0x7f {
      return Ok([n]);
    }
    var out: seq<byte> := [];
    var rem: nat := n;
    while rem > 0x7f
      invariant Groups(n) == out + Groups(rem)
    {
      out := out + [rem % 128 + 128];
      rem := rem / 128;
    }
    out := out + [rem];
    return Ok(out);
  }

  /** The accumulator's view of what is still to be read. */
  function Resume(value: nat, weight: nat, length: nat, rest: Result<Decoded, Error>): Result<Decoded, Error> {
    match rest
    case Ok(d) => Ok(Decoded(value + weight * d.value, length + d.length))
    case Err(e) => Err(e)
  }

  lemma ResumeStep(value: nat, length: nat, b: byte, rest: Result<Decoded, Error>)
    requires b >= 128
    requires length < 2
    ensures var weight := if length == 0 then 1 else 128;
            Resume(value, weight, length,
                   match rest case Ok(d) => Ok(Decoded(b - 128 + 128 * d.value, d.length + 1)) case Err(e) => Err(e))
            == Resume(value + weight * (b % 128), weight * 128, length + 1, rest)
  {
  }

  /** Decode: accumulate groups until one has no continuation bit. `weight` is 2^shift. */
  method Decode(bytes: seq<byte>, offset: nat) returns (r: Result<Decoded, Error>)
    ensures r == Read(bytes, offset)
  {
    var value: nat, weight: nat, length: nat := 0, 1, 0;
    while true
      invariant length < MAX_BYTES
      invariant weight == if length == 0 then 1 else if length == 1 then 128 else 128 * 128
      invariant Read(bytes, offset)
                == Resume(value, weight, length, ReadFrom(bytes, offset + length, MAX_BYTES - length))
      decreases MAX_BYTES - length
    {
      if offset + length >= |bytes| {
        return Err(Truncated);
      }
      var b := bytes[offset + length];
      if b >= 128 && length < 2 {
        ResumeStep(value, length, b, ReadFrom(bytes, offset + length + 1, MAX_BYTES - length - 1));
      }
      value := value + weight * (b % 128);
      length := length + 1;
      if b < 128 {
        return Ok(Decoded(value, length));
      }
      if length >= MAX_BYTES {
        return Err(TooLong);
      }
      weight := weight * 128;
    }
  }

  /** The groups of a number are read back wherever they stand in a buffer. */
  lemma {:induction false} ReadGroups(n: nat, pre: seq<byte>, suffix: seq<byte>, budget: nat)
    requires budget >= |Groups(n)|
    ensures ReadFrom(pre + Groups(n) + suffix, |pre|, budget) == Ok(Decoded(n, |Groups(n)|))
    decreases n
  {
    var all := pre + Groups(n) + suffix;
    assert all[|pre|] == Groups(n)[0];
    if n > 0x7f {
      var head := [n % 128 + 128];
      ReadGroups(n / 128, pre + head, suffix, budget - 1);
      assert all == (pre + head) + Groups(n / 128) + suffix;
    }
  }

  lemma GroupsLength(n: nat)
    requires n <= MAX_VALUE
    ensures |Groups(n)| == if n <= 0x7f then 1 else if n <= 0x3fff then 2 else 3
  {
    if n > 0x7f {
      assert Groups(n) == [n % 128 + 128] + Groups(n / 128);
      if n > 0x3fff {
        assert Groups(n / 128) == [n / 128 % 128 + 128] + Groups(n / 128 / 128);
      }
    }
  }

  /** Round trip: every encodable length is read back, exactly its own bytes consumed. */
  lemma RoundTrip(n: nat, pre: seq<byte>, suffix: seq<byte>)
    requires n <= MAX_VALUE
    ensures Read(pre + Groups(n) + suffix, |pre|) == Ok(Decoded(n, |Groups(n)|))
  {
    GroupsLength(n);
    ReadGroups(n, pre, suffix, MAX_BYTES);
  }

  /** What is read is below 2^7, 2^14 or 2^21 as one, two or three bytes were read. */
  lemma {:induction false} ReadRange(bytes: seq<byte>, at: nat, budget: nat)
    requires 1 <= budget <= MAX_BYTES
    requires ReadFrom(bytes, at, budget).Ok?
    ensures var d := ReadFrom(bytes, at, budget).value;
            && 1 <= d.length <= budget
            && at + d.length <= |bytes|
            && d.value < (if d.length == 1 then 128 else if d.length == 2 then 0x4000 else 0x20_0000)
    decreases budget
  {
    if bytes[at] >= 128 {
      ReadRange(bytes, at + 1, budget - 1);
    }
  }

  /**
   * The "[0, 65535]" of the interface comment is broken by exactly the three-byte prefixes whose last group exceeds
   * two bits.
   */
  lemma ReadExceedsU16(bytes: seq<byte>, at: nat)
    requires Read(bytes, at).Ok?
    ensures var d := Read(bytes, at).value;
            && at + d.length <= |bytes|
            && (d.value > MAX_VALUE <==> d.length == 3 && bytes[at + 2] > 3)
  {
    ReadRange(bytes, at, MAX_BYTES);
    if bytes[at] >= 128 {
      ReadRange(bytes, at + 1, 2);
      if bytes[at + 1] >= 128 {
        assert ReadFrom(bytes, at + 2, 1) == Ok(Decoded(bytes[at + 2] as nat, 1));
      }
    }
  }

  /** Re-encoding what was read gives the same bytes exactly when the last group is needed. */
  lemma {:induction false} CanonicalIff(bytes: seq<byte>, at: nat, budget: nat)
    requires 1 <= budget <= MAX_BYTES
    requires ReadFrom(bytes, at, budget).Ok?
    ensures var d := ReadFrom(bytes, at, budget).value;
            && at + d.length <= |bytes|
            && d.length >= 1
            && (Groups(d.value) == bytes[at..at + d.length]
                <==> (d.length == 1 || bytes[at + d.length - 1] != 0))
    decreases budget
  {
    ReadRange(bytes, at, budget);
    var d := ReadFrom(bytes, at, budget).value;
    if bytes[at] >= 128 {
      CanonicalIff(bytes, at + 1, budget - 1);
      var e := ReadFrom(bytes, at + 1, budget - 1).value;
      assert bytes[at..at + d.length] == [bytes[at]] + bytes[at + 1..at + 1 + e.length];
      if e.value == 0 {
        ReadZero(bytes, at + 1, budget - 1);
        assert |Groups(d.value)| == 1;
      } else {
        assert d.value / 128 == e.value && d.value % 128 + 128 == bytes[at];
        assert Groups(d.value) == [bytes[at]] + Groups(e.value);
        assert bytes[at..at + d.length][1..] == bytes[at + 1..at + 1 + e.length];
        if e.length == 1 {
          assert bytes[at + 1] == e.value;
        }
      }
    }
  }

  /** A value of zero can only end in a zero group. */
  lemma {:induction false} ReadZero(bytes: seq<byte>, at: nat, budget: nat)
    requires 1 <= budget <= MAX_BYTES
    requires ReadFrom(bytes, at, budget).Ok? && ReadFrom(bytes, at, budget).value.value == 0
    ensures var d := ReadFrom(bytes, at, budget).value;
            1 <= d.length && at + d.length <= |bytes| && bytes[at + d.length - 1] == 0
    decreases budget
  {
    if bytes[at] >= 128 {
      ReadZero(bytes, at + 1, budget - 1);
    }
  }

  /** A prefix ends at the first byte below 128, and has to within three bytes. */
  ghost predicate EndsAfter(bytes: seq<byte>, at: nat, n: nat) {
    && 1 <= n <= 3 && at + n <= |bytes| && bytes[at + n - 1] < 128
    && forall i :: at <= i < at + n - 1 ==> bytes[i] >= 128
  }

  /** The low seven bits of a byte, as a number. */
  ghost function Seven(b: byte): nat { b as int % 128 }

  /** What is read, byte by byte: seven bits each, the first byte lowest; and why nothing is. */
  lemma ReadIs(bytes: seq<byte>, at: nat, n: nat)
    ensures EndsAfter(bytes, at, n) ==>
              Read(bytes, at)
              == Ok(Decoded(Seven(bytes[at]) + (if n >= 2 then Seven(bytes[at + 1]) * 128 else 0)
                            + (if n == 3 then Seven(bytes[at + 2]) * 16384 else 0), n))
    ensures Read(bytes, at).Ok? && Read(bytes, at).value.length == n ==> EndsAfter(bytes, at, n)
    ensures Read(bytes, at) == Err(TooLong)
            <==> at + 3 <= |bytes| && bytes[at] >= 128 && bytes[at + 1] >= 128 && bytes[at + 2] >= 128
  {
    ReadOneByte(bytes, at, 3);
    ReadOneByte(bytes, at + 1, 2);
    ReadOneByte(bytes, at + 2, 1);
    hide ReadFrom;
  }

  lemma ReadOneByte(bytes: seq<byte>, at: nat, budget: nat)
    requires budget >= 1
    ensures ReadFrom(bytes, at, budget)
            == if at >= |bytes| then Err(Truncated)
               else if bytes[at] < 128 then Ok(Decoded(bytes[at], 1))
               else if budget == 1 then Err(TooLong)
               else match ReadFrom(bytes, at + 1, budget - 1)
                    case Ok(d) => Ok(Decoded(bytes[at] - 128 + 128 * d.value, d.length + 1))
                    case Err(e) => Err(e)
  {
  }
}
