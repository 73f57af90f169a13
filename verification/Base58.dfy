/** Base58 with the Bitcoin alphabet (packages/solana-core/src/base58.ts). */
module Base58 {
  import opened Wrappers
  import opened Bytes
  import Division

  /** The 58 characters in one string; written as the six ASCII runs it consists of. */
  const ALPHABET: string :=
    "123456789" + "ABCDEFGH" + "JKLMN" + "PQRSTUVWXYZ" + "abcdefghijk" + "mnopqrstuvwxyz"

  datatype Error = InvalidCharacter(at: nat)

  // ---- Positional numerals, most significant digit first ----

  ghost predicate Digits(b: nat, ds: seq<nat>) {
    forall i :: 0 <= i < |ds| ==> ds[i] < b
  }

  function Value(b: nat, ds: seq<nat>): nat {
    if ds == [] then 0 else Value(b, ds[..|ds| - 1]) * b + ds[|ds| - 1]
  }

  function Numeral(b: nat, n: nat): (ds: seq<nat>)
    requires b >= 2
    ensures Digits(b, ds)
  {
    if n == 0 then [] else Numeral(b, n / b) + [n % b]
  }

  function LeadingZeros(ds: seq<nat>): (k: nat)
    ensures k <= |ds|
  {
    if ds == [] || ds[0] != 0 then 0 else 1 + LeadingZeros(ds[1..])
  }

  function Zeros(k: nat): (z: seq<nat>)
    ensures |z| == k
  {
    seq(k, _ => 0)
  }

  /** Change of base that keeps the number of leading zeros: the whole algorithm, both ways. */
  function Rebase(src: nat, dst: nat, ds: seq<nat>): (r: seq<nat>)
    requires dst >= 2
    ensures Digits(dst, r)
  {
    Zeros(LeadingZeros(ds)) + Numeral(dst, Value(src, ds))
  }

  lemma ValueAppend(b: nat, ds: seq<nat>, d: nat)
    ensures Value(b, ds + [d]) == Value(b, ds) * b + d
  {
    assert (ds + [d])[..|ds|] == ds;
  }

  lemma {:induction false} NumeralValue(b: nat, n: nat)
    requires b >= 2
    ensures Value(b, Numeral(b, n)) == n
    decreases n
  {
    if n != 0 {
      var q, r := n / b, n % b;
      Division.Recompose(n, b);
      Division.Shrinks(n, b);
      NumeralValue(b, q);
      ValueAppend(b, Numeral(b, q), r);
    }
  }

  lemma {:induction false} NumeralHead(b: nat, n: nat)
    requires b >= 2 && n != 0
    ensures Numeral(b, n) != [] && Numeral(b, n)[0] != 0
    decreases n
  {
    Division.Recompose(n, b);
    Division.Shrinks(n, b);
    var q := n / b;
    if q != 0 {
      NumeralHead(b, q);
    }
  }

  lemma {:induction false} ValuePrependZeros(b: nat, k: nat, ds: seq<nat>)
    ensures Value(b, Zeros(k) + ds) == Value(b, ds)
  {
    var z := Zeros(k) + ds;
    if ds != [] {
      ValuePrependZeros(b, k, ds[..|ds| - 1]);
      assert z[..|z| - 1] == Zeros(k) + ds[..|ds| - 1];
    } else if k > 0 {
      ValuePrependZeros(b, k - 1, []);
      assert z == Zeros(k);
      assert z[..|z| - 1] == Zeros(k - 1) + [];
    } else {
      assert z == ds;
    }
  }

  /** A numeral without a leading zero is the numeral of its value. */
  lemma {:induction false} ValueNumeral(b: nat, ds: seq<nat>)
    requires b >= 2 && Digits(b, ds)
    requires ds == [] || ds[0] != 0
    ensures Numeral(b, Value(b, ds)) == ds
    ensures ds != [] ==> Value(b, ds) > 0
  {
    if ds != [] {
      var init, last := ds[..|ds| - 1], ds[|ds| - 1];
      ValueNumeral(b, init);
      var v := Value(b, init);
      Division.DivModUnique(v * b + last, b, v, last);
      if init == [] {
        assert Value(b, ds) == ds[0];
      } else {
        Division.MulAtLeast(v, b);
      }
      assert ds == init + [last];
    }
  }

  lemma {:induction false} LeadingZerosAt(ds: seq<nat>)
    ensures forall i :: 0 <= i < LeadingZeros(ds) ==> ds[i] == 0
    ensures LeadingZeros(ds) < |ds| ==> ds[LeadingZeros(ds)] != 0
  {
    if ds != [] && ds[0] == 0 {
      LeadingZerosAt(ds[1..]);
      forall i | 0 <= i < LeadingZeros(ds)
        ensures ds[i] == 0
      {
        if i > 0 {
          assert ds[i] == ds[1..][i - 1];
        }
      }
    }
  }

  lemma {:induction false} LeadingZerosOf(k: nat, ds: seq<nat>)
    requires ds == [] || ds[0] != 0
    ensures LeadingZeros(Zeros(k) + ds) == k
  {
    if k > 0 {
      LeadingZerosOf(k - 1, ds);
      assert (Zeros(k) + ds)[1..] == Zeros(k - 1) + ds;
    } else {
      assert Zeros(k) + ds == ds;
    }
  }

  /** Changing base and back is the identity on every digit string, leading zeros included. */
  lemma RebaseInverse(src: nat, dst: nat, ds: seq<nat>)
    requires src >= 2 && dst >= 2 && Digits(src, ds)
    ensures Rebase(dst, src, Rebase(src, dst, ds)) == ds
  {
    var k := LeadingZeros(ds);
    var body := ds[k..];
    LeadingZerosAt(ds);
    assert ds == Zeros(k) + body;
    ValuePrependZeros(src, k, body);
    var n := Value(src, ds);
    NumeralValue(dst, n);
    if n != 0 {
      NumeralHead(dst, n);
    }
    ValuePrependZeros(dst, k, Numeral(dst, n));
    LeadingZerosOf(k, Numeral(dst, n));
    ValueNumeral(src, body);
  }

  // ---- The alphabet ----

  /** Index of `c` in the alphabet at or after `i`, -1 if there is none. */
  function DigitFrom(c: char, i: nat): (d: int)
    requires i <= |ALPHABET|
    ensures -1 <= d < 58
    ensures d >= 0 ==> ALPHABET[d] == c
    decreases |ALPHABET| - i
  {
    if i == |ALPHABET| then -1 else if ALPHABET[i] == c then i else DigitFrom(c, i + 1)
  }

  function DigitOf(c: char): int {
    DigitFrom(c, 0)
  }

  lemma AlphabetAscending()
    ensures |ALPHABET| == 58
    ensures forall i, j :: 0 <= i < j < |ALPHABET| ==> ALPHABET[i] < ALPHABET[j]
    ensures forall i :: 0 <= i < |ALPHABET| ==> ALPHABET[i] as int < 128
  {
    var digits, upper1, upper2, upper3, lower1, lower2 :=
      "123456789", "ABCDEFGH", "JKLMN", "PQRSTUVWXYZ", "abcdefghijk", "mnopqrstuvwxyz";
    assert ALPHABET == digits + upper1 + upper2 + upper3 + lower1 + lower2;
    assert forall i :: 0 <= i < 9 ==> digits[i] as int == 49 + i;
    assert forall i :: 0 <= i < 8 ==> upper1[i] as int == 65 + i;
    assert forall i :: 0 <= i < 5 ==> upper2[i] as int == 74 + i;
    assert forall i :: 0 <= i < 11 ==> upper3[i] as int == 80 + i;
    assert forall i :: 0 <= i < 11 ==> lower1[i] as int == 97 + i;
    assert forall i :: 0 <= i < 14 ==> lower2[i] as int == 109 + i;
    forall i | 0 <= i < 58
      ensures ALPHABET[i] as int ==
              if i < 9 then 49 + i else if i < 17 then 56 + i else if i < 22 then 57 + i
              else if i < 33 then 58 + i else if i < 44 then 64 + i else 65 + i
    {
    }
  }

  lemma {:induction false} DigitFromFinds(i: nat, k: nat)
    requires i <= k < |ALPHABET|
    ensures DigitFrom(ALPHABET[k], i) == k
    decreases k - i
  {
    AlphabetAscending();
    if i < k {
      DigitFromFinds(i + 1, k);
    }
  }

  function Text(ds: seq<nat>): (s: string)
    requires Digits(58, ds)
    ensures |s| == |ds|
    ensures forall i :: 0 <= i < |ds| ==> s[i] == ALPHABET[ds[i]]
  {
    seq(|ds|, i requires 0 <= i < |ds| => ALPHABET[ds[i]])
  }

  lemma TextAppend(ds: seq<nat>, d: nat)
    requires Digits(58, ds) && d < 58
    ensures Text(ds + [d]) == Text(ds) + [ALPHABET[d]]
  {
  }

  predicate Valid(s: string) {
    forall i :: 0 <= i < |s| ==> DigitOf(s[i]) >= 0
  }

  function DigitsOf(s: string): (ds: seq<nat>)
    requires Valid(s)
    ensures |ds| == |s| && Digits(58, ds)
  {
    seq(|s|, i requires 0 <= i < |s| => DigitOf(s[i]))
  }

  lemma ValueOfPrefix(s: string, i: nat)
    requires i < |s| && Valid(s[..i]) && DigitOf(s[i]) >= 0
    ensures Valid(s[..i + 1])
    ensures Value(58, DigitsOf(s[..i + 1])) == Value(58, DigitsOf(s[..i])) * 58 + DigitOf(s[i])
  {
    assert s[..i + 1] == s[..i] + [s[i]];
    assert DigitsOf(s[..i + 1]) == DigitsOf(s[..i]) + [DigitOf(s[i])];
    ValueAppend(58, DigitsOf(s[..i]), DigitOf(s[i]));
  }

  // ---- Specification of the two public operations ----

  function EncodeSpec(bytes: seq<byte>): string {
    Text(Rebase(256, 58, bytes))
  }

  function DecodeSpec(s: string): (bytes: seq<byte>)
    requires Valid(s)
  {
    Rebase(58, 256, DigitsOf(s))
  }

  /** decode(encode(b)) == b for every byte string. */
  lemma DecodeEncode(bytes: seq<byte>)
    ensures Valid(EncodeSpec(bytes)) && DecodeSpec(EncodeSpec(bytes)) == bytes
  {
    AlphabetAscending();
    RebaseInverse(256, 58, bytes);
    var ds := Rebase(256, 58, bytes);
    forall i | 0 <= i < |ds|
      ensures DigitOf(Text(ds)[i]) == ds[i]
    {
      DigitFromFinds(0, ds[i]);
    }
    assert DigitsOf(Text(ds)) == ds;
  }

  /** encode(decode(s)) == s for every string over the alphabet. */
  lemma EncodeDecode(s: string)
    requires Valid(s)
    ensures EncodeSpec(DecodeSpec(s)) == s
  {
    AlphabetAscending();
    RebaseInverse(58, 256, DigitsOf(s));
    assert Text(DigitsOf(s)) == s;
  }

  // ---- The source's loops ----

  method CountZeroBytes(bytes: seq<byte>) returns (zeros: nat)
    ensures zeros == LeadingZeros(bytes)
  {
    zeros := 0;
    while zeros < |bytes| && bytes[zeros] == 0
      invariant zeros <= |bytes|
      invariant LeadingZeros(bytes) == zeros + LeadingZeros(bytes[zeros..])
    {
      assert bytes[zeros..][1..] == bytes[zeros + 1..];
      zeros := zeros + 1;
    }
  }

  /** The big-endian accumulation `n = (n << 8) | byte`. */
  method FromBigEndian(bytes: seq<byte>) returns (n: nat)
    ensures n == Value(256, bytes)
  {
    n := 0;
    for i := 0 to |bytes|
      invariant n == Value(256, bytes[..i])
    {
      ValueAppend(256, bytes[..i], bytes[i]);
      assert bytes[..i + 1] == bytes[..i] + [bytes[i]];
      n := n * 256 + bytes[i];
    }
    assert bytes[..|bytes|] == bytes;
  }

  /** Divide by 58 until nothing is left, prepending one character per remainder. */
  method ToCharacters(value: nat) returns (encoded: string)
    ensures encoded == Text(Numeral(58, value))
  {
    var n := value;
    encoded := "";
    while n > 0
      invariant Text(Numeral(58, value)) == Text(Numeral(58, n)) + encoded
    {
      TextAppend(Numeral(58, n / 58), n % 58);
      encoded := [ALPHABET[n % 58]] + encoded;
      n := n / 58;
    }
  }

  method Encode(bytes: seq<byte>) returns (s: string)
    ensures s == EncodeSpec(bytes)
  {
    if |bytes| == 0 {
      return "";
    }
    var zeros := CountZeroBytes(bytes);
    var n := FromBigEndian(bytes);
    var encoded := ToCharacters(n);
    if zeros > 0 {
      encoded := seq(zeros, _ => '1') + encoded;
    }
    TextJoin(zeros, Numeral(58, n));
    return encoded;
  }

  lemma TextJoin(k: nat, ds: seq<nat>)
    requires Digits(58, ds)
    ensures Text(Zeros(k) + ds) == seq(k, _ => '1') + Text(ds)
  {
    assert ALPHABET[0] == '1';
  }

  /** The ASCII lookup table built once at module load. */
  method BuildDecodeMap() returns (m: seq<int>)
    ensures IsDecodeMap(m)
  {
    AlphabetAscending();
    m := seq(128, _ => -1);
    for i := 0 to |ALPHABET|
      invariant |m| == 128
      invariant forall k :: 0 <= k < i ==> m[ALPHABET[k] as int] == k
      invariant forall a :: 0 <= a < 128 && m[a] != -1 ==> exists k :: 0 <= k < i && ALPHABET[k] as int == a
    {
      m := m[ALPHABET[i] as int := i];
    }
    forall c: char | c as int < 128
      ensures m[c as int] == DigitOf(c)
    {
      if k :| 0 <= k < |ALPHABET| && ALPHABET[k] == c {
        DigitFromFinds(0, k);
      } else {
        assert DigitOf(c) == -1;
        assert m[c as int] == -1;
      }
    }
  }

  ghost predicate IsDecodeMap(m: seq<int>) {
    |m| == 128 && forall c: char :: c as int < 128 ==> m[c as int] == DigitOf(c)
  }

  function LookUp(decodeMap: seq<int>, c: char): (v: int)
    requires IsDecodeMap(decodeMap)
    ensures v == DigitOf(c)
  {
    var code := c as int;
    if code < 128 then decodeMap[code] else NonAscii(c); -1
  }

  method CountOnes(str: string) returns (zeros: nat)
    ensures zeros <= |str| && forall i :: 0 <= i < zeros ==> str[i] == '1'
    ensures zeros == |str| || str[zeros] != '1'
  {
    zeros := 0;
    while zeros < |str| && str[zeros] == '1'
      invariant zeros <= |str| && forall i :: 0 <= i < zeros ==> str[i] == '1'
    {
      zeros := zeros + 1;
    }
  }

  /** The accumulation `n = n * 58 + digit`, failing on the first character outside the alphabet. */
  method FromCharacters(str: string, decodeMap: seq<int>) returns (r: Result<nat, Error>)
    requires IsDecodeMap(decodeMap)
    ensures r.Ok? <==> Valid(str)
    ensures r.Ok? ==> r.value == Value(58, DigitsOf(str))
    ensures r.Err? ==> r.error.at < |str| && DigitOf(str[r.error.at]) < 0 && Valid(str[..r.error.at])
  {
    var n: nat := 0;
    for i := 0 to |str|
      invariant Valid(str[..i])
      invariant n == Value(58, DigitsOf(str[..i]))
    {
      var v := LookUp(decodeMap, str[i]);
      if v < 0 {
        return Err(InvalidCharacter(i));
      }
      ValueOfPrefix(str, i);
      n := n * 58 + v;
    }
    assert str[..|str|] == str;
    return Ok(n);
  }

  method ToBigEndian(value: nat) returns (bytes: seq<byte>)
    ensures bytes == Numeral(256, value)
  {
    var n := value;
    bytes := [];
    while n > 0
      invariant Numeral(256, value) == Numeral(256, n) + bytes
    {
      assert Numeral(256, n) + bytes == Numeral(256, n / 256) + ([n % 256] + bytes);
      bytes := [n % 256] + bytes;
      n := n / 256;
    }
  }

  method Decode(str: string) returns (r: Result<seq<byte>, Error>)
    ensures r.Ok? <==> Valid(str)
    ensures r.Ok? ==> r.value == DecodeSpec(str)
    ensures r.Err? ==> r.error.at < |str| && DigitOf(str[r.error.at]) < 0 && Valid(str[..r.error.at])
  {
    if |str| == 0 {
      return Ok([]);
    }
    var decodeMap := BuildDecodeMap();
    var zeros := CountOnes(str);
    var n := FromCharacters(str, decodeMap);
    if n.Err? {
      return Err(n.error);
    }
    OnesAreZeros(str, zeros);
    var bytes := ToBigEndian(n.value);
    return Ok(seq(zeros, _ => 0) + bytes);
  }

  lemma NonAscii(c: char)
    requires c as int >= 128
    ensures DigitOf(c) == -1
  {
    AlphabetAscending();
  }

  lemma OnesAreZeros(s: string, k: nat)
    requires Valid(s) && k <= |s|
    requires forall i :: 0 <= i < k ==> s[i] == '1'
    requires k == |s| || s[k] != '1'
    ensures LeadingZeros(DigitsOf(s)) == k
  {
    AlphabetAscending();
    var ds := DigitsOf(s);
    assert DigitOf('1') == 0;
    assert ds == Zeros(k) + ds[k..];
    LeadingZerosOf(k, ds[k..]);
  }

  // ---- What the numerals mean ----

  function Power(b: nat, n: nat): nat {
    if n == 0 then 1 else b * Power(b, n - 1)
  }

  /** The first digit counts for the highest power. */
  lemma {:induction false} ValueFirst(b: nat, d: nat, ds: seq<nat>)
    ensures Value(b, [d] + ds) == d * Power(b, |ds|) + Value(b, ds)
    decreases |ds|
  {
    var all := [d] + ds;
    if ds == [] {
      assert all[..0] == [] && all == [d];
    } else {
      var front := ds[..|ds| - 1];
      assert all[..|all| - 1] == [d] + front && all[|all| - 1] == ds[|ds| - 1];
      ValueFirst(b, d, front);
      MoveFactor(d, b, Power(b, |front|), Value(b, front));
    }
  }

  lemma MoveFactor(d: nat, b: nat, p: nat, v: nat)
    ensures (d * p + v) * b == d * (b * p) + v * b
  {
  }

  /** The text stands for the number the bytes stand for, and has one leading 1 per leading zero byte. */
  lemma EncodedNumber(bytes: seq<byte>)
    ensures Valid(EncodeSpec(bytes))
    ensures Value(58, DigitsOf(EncodeSpec(bytes))) == Value(256, bytes)
    ensures LeadingZeros(DigitsOf(EncodeSpec(bytes))) == LeadingZeros(bytes)
  {
    hide Value, Numeral, LeadingZeros, DigitFrom;
    AlphabetAscending();
    var k, n := LeadingZeros(bytes), Value(256, bytes);
    var ds := Rebase(256, 58, bytes);
    forall i | 0 <= i < |ds|
      ensures DigitOf(EncodeSpec(bytes)[i]) == ds[i]
    {
      DigitFromFinds(0, ds[i]);
    }
    assert DigitsOf(EncodeSpec(bytes)) == ds;
    ValuePrependZeros(58, k, Numeral(58, n));
    NumeralValue(58, n);
    NumeralZeros(58, k, n);
  }

  lemma NumeralZeros(b: nat, k: nat, n: nat)
    requires b >= 2
    ensures LeadingZeros(Zeros(k) + Numeral(b, n)) == k
  {
    hide Numeral;
    if n == 0 {
      NoDigits(b);
    } else {
      NumeralHead(b, n);
    }
    LeadingZerosOf(k, Numeral(b, n));
  }

  lemma NoDigits(b: nat)
    requires b >= 2
    ensures Numeral(b, 0) == []
  {
  }

  /** The alphabet: digits without 0, capitals without I and O, small letters without l. */
  lemma AlphabetIs(c: char)
    ensures c in ALPHABET
            <==> '1' <= c <= '9' || ('A' <= c <= 'Z' && c != 'I' && c != 'O') || ('a' <= c <= 'z' && c != 'l')
  {
    var digits, upper1, upper2, upper3, lower1, lower2 :=
      "123456789", "ABCDEFGH", "JKLMN", "PQRSTUVWXYZ", "abcdefghijk", "mnopqrstuvwxyz";
    assert ALPHABET == digits + upper1 + upper2 + upper3 + lower1 + lower2;
    RunHolds(digits, '1', c);
    RunHolds(upper1, 'A', c);
    RunHolds(upper2, 'J', c);
    RunHolds(upper3, 'P', c);
    RunHolds(lower1, 'a', c);
    RunHolds(lower2, 'm', c);
    hide ALPHABET;
    InSix(digits, upper1, upper2, upper3, lower1, lower2, c);
  }

  lemma InSix(u: string, v: string, w: string, x: string, y: string, z: string, c: char)
    ensures c in u + v + w + x + y + z <==> c in u || c in v || c in w || c in x || c in y || c in z
  {
  }

  /** A run of consecutive characters holds exactly those. */
  lemma RunHolds(run: string, first: char, c: char)
    requires forall i :: 0 <= i < |run| ==> run[i] as int == first as int + i
    ensures c in run <==> first as int <= c as int < first as int + |run|
  {
    if first as int <= c as int < first as int + |run| {
      assert run[c as int - first as int] == c;
    }
  }
}
