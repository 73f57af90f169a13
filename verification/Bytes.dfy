/** Failure-carrying results shared by every model. */
module Wrappers {
  datatype Option<+T> = None | Some(value: T)

  datatype Result<+T, +E> = Ok(value: T) | Err(error: E) {
    predicate IsFailure() {
      Err?
    }

    function PropagateFailure<U>(): (r: Result<U, E>)
      requires Err?
    {
      Err(error)
    }

    function Extract(): T
      requires Ok?
    {
      value
    }
  }
}

/** Byte strings and the sequence vocabulary used to talk about them. */
module Bytes {
  type byte = b: int | 0 <= b < 256

  /** What `new Uint8Array(numbers)` stores for one non-negative number. */
  function ToU8(n: nat): byte {
    n % 256
  }

  /** `new Uint8Array(numbers)`: every element is silently reduced modulo 256. */
  function ToU8Array(ns: seq<nat>): (bs: seq<byte>)
    ensures |bs| == |ns|
  {
    seq(|ns|, i requires 0 <= i < |ns| => ToU8(ns[i]))
  }

  function Flatten<T>(ss: seq<seq<T>>): seq<T> {
    if ss == [] then [] else ss[0] + Flatten(ss[1..])
  }

  lemma {:induction false} FlattenAppend<T>(ss: seq<seq<T>>, tt: seq<seq<T>>)
    ensures Flatten(ss + tt) == Flatten(ss) + Flatten(tt)
  {
    if ss == [] {
      assert ss + tt == tt;
    } else {
      FlattenAppend(ss[1..], tt);
      assert (ss + tt)[1..] == ss[1..] + tt;
      assert ss[0] + (Flatten(ss[1..]) + Flatten(tt)) == ss[0] + Flatten(ss[1..]) + Flatten(tt);
    }
  }

  function Reverse<T>(s: seq<T>): (r: seq<T>)
    ensures |r| == |s|
    ensures forall i :: 0 <= i < |s| ==> r[i] == s[|s| - 1 - i]
  {
    seq(|s|, i requires 0 <= i < |s| => s[|s| - 1 - i])
  }

  lemma ReverseReverse<T>(s: seq<T>)
    ensures Reverse(Reverse(s)) == s
  {
  }

  function Max(a: int, b: int): int {
    if a >= b then a else b
  }

  function Min(a: int, b: int): int {
    if a <= b then a else b
  }
}

/** Parts of a buffer, and number lists that are bytes already. */
module Slices {
  import opened Bytes

  /** `part` stands in `bytes` at offset `off`. */
  ghost predicate At(bytes: seq<byte>, off: nat, part: seq<nat>) {
    off + |part| <= |bytes| && forall i {:trigger part[i]} :: 0 <= i < |part| ==> bytes[off + i] == part[i]
  }

  lemma AtSplit(bytes: seq<byte>, off: nat, a: seq<nat>, b: seq<nat>)
    requires At(bytes, off, a + b)
    ensures At(bytes, off, a) && At(bytes, off + |a|, b)
  {
    var both := a + b;
    forall i | 0 <= i < |a|
      ensures bytes[off + i] == a[i]
    {
      assert both[i] == a[i];
    }
    forall i | 0 <= i < |b|
      ensures bytes[off + |a| + i] == b[i]
    {
      assert both[|a| + i] == b[i];
    }
  }

  lemma AtSplit3(bytes: seq<byte>, off: nat, a: seq<nat>, b: seq<nat>, c: seq<nat>)
    requires At(bytes, off, a + b + c)
    ensures At(bytes, off, a) && At(bytes, off + |a|, b) && At(bytes, off + |a| + |b|, c)
  {
    AtSplit(bytes, off, a + b, c);
    AtSplit(bytes, off, a, b);
  }

  lemma AtWhole(bytes: seq<byte>, part: seq<nat>)
    requires bytes == part
    ensures At(bytes, 0, part)
  {
  }

  lemma AtWithin(bytes: seq<byte>, off: nat, part: seq<nat>)
    requires At(bytes, off, part)
    ensures off + |part| <= |bytes|
  {
  }

  /** Whoever slices the buffer there gets the part itself. */
  lemma AtSlice(bytes: seq<byte>, off: nat, part: seq<nat>)
    requires At(bytes, off, part)
    ensures bytes[off..off + |part|] == part
  {
  }

  /** Every number is a byte already, so writing it to a byte array truncates nothing. */
  ghost predicate AllBytes(ns: seq<nat>) {
    forall i :: 0 <= i < |ns| ==> ns[i] < 256
  }

  lemma AllBytesJoin(a: seq<nat>, b: seq<nat>)
    requires AllBytes(a) && AllBytes(b)
    ensures AllBytes(a + b)
  {
  }

  lemma BytesAreBytes(bs: seq<byte>)
    ensures AllBytes(bs)
  {
  }

  lemma AllBytesUnchanged(ns: seq<nat>)
    requires AllBytes(ns)
    ensures ToU8Array(ns) == ns
  {
  }
}

/** Integer division facts the solver does not find by itself. */
module Division {
  lemma MulAtLeast(v: int, b: nat)
    requires v >= 1
    ensures v * b >= b
  {
  }

  /** Quotient and remainder are determined by `n == q * b + r`. */
  lemma DivModUnique(n: int, b: nat, q: int, r: nat)
    requires r < b && n == q * b + r
    ensures n / b == q && n % b == r
  {
    var d, m := n / b, n % b;
    assert n == d * b + m;
    if d > q {
      MulAtLeast(d - q, b);
    } else if d < q {
      MulAtLeast(q - d, b);
    }
  }

  lemma Recompose(n: int, b: nat)
    requires b >= 1
    ensures n / b * b + n % b == n && 0 <= n % b < b
  {
  }

  lemma Shrinks(n: nat, b: nat)
    requires b >= 2 && n >= 1
    ensures n / b < n
  {
    Recompose(n, b);
  }

  /** Floor division is monotone in the dividend. */
  lemma DivMonotone(a: int, c: int, b: nat)
    requires b >= 1 && a <= c
    ensures a / b <= c / b
  {
    Recompose(a, b);
    Recompose(c, b);
    if a / b > c / b {
      MulAtLeast(a / b - c / b, b);
    }
  }

  /** `q` is the floor of `n / b` exactly when it brackets it. */
  lemma DivBounds(n: int, b: nat, q: int)
    requires b >= 1
    ensures q <= n / b <==> q * b <= n
    ensures n / b <= q <==> n < (q + 1) * b
  {
    Recompose(n, b);
    var d := n / b;
    if q <= d {
      assert (d - q) * b >= 0;
    } else {
      MulAtLeast(q - d, b);
    }
    if d <= q {
      assert (q - d) * b >= 0;
    } else {
      MulAtLeast(d - q, b);
    }
  }

  /** Flooring two parts separately loses at most one against flooring their sum. */
  lemma FloorSum(x: int, y: int, d: nat)
    requires d >= 1
    ensures x / d + y / d <= (x + y) / d <= x / d + y / d + 1
  {
    Recompose(x, d);
    Recompose(y, d);
    var q := x / d + y / d;
    assert q * d == x / d * d + y / d * d;
    DivBounds(x + y, d, q);
    DivBounds(x + y, d, q + 1);
    assert (q + 2) * d == q * d + 2 * d;
  }

  lemma ExactDiv(n: int, d: nat)
    requires d >= 1
    ensures n * d / d == n
  {
    DivModUnique(n * d, d, n, 0);
  }

  lemma FloorBrackets(n: int, d: nat)
    requires d >= 1
    ensures n / d * d <= n < (n / d + 1) * d
  {
    Recompose(n, d);
    assert (n / d + 1) * d == n / d * d + d;
  }
}
