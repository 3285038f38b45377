/** Octets, machine integers, and the C string conventions the worker relies on: a string ends at its first zero octet,
    and a bounded copy into a zeroed field keeps at most one octet less than the field holds. */
module Bytes {

  type Byte = b: int | 0 <= b < 256

  type Str = seq<Byte>

  const TWO32: int := 0x1_0000_0000
  const TWO63: int := 0x8000_0000_0000_0000
  const TWO64: int := 0x1_0000_0000_0000_0000

  type U64 = x: int | 0 <= x < TWO64
  type U32 = x: int | 0 <= x < TWO32
  type I32 = x: int | -0x8000_0000 <= x < 0x8000_0000
  type I64 = x: int | -TWO63 <= x < TWO63

  const NUL: Byte := 0
  const DOT: Byte := 46

  /** Size of every domain field, terminator included. */
  const DOMAIN_MAX_LEN: nat := 260

  /** The C string stored at the start of `s`: everything before the first zero octet. */
  function CStr(s: Str): (r: Str)
    ensures r <= s
    ensures NUL !in r
    ensures |r| < |s| ==> s[|r|] == NUL
  {
    if s == [] || s[0] == NUL then [] else [s[0]] + CStr(s[1..])
  }

  /** What `strncpy` followed by an explicit terminator leaves in a field of `size` octets, read back as a C string. */
  function Clipped(s: Str, size: nat): (r: Str)
    requires size > 0
    ensures |r| < size
    ensures NUL !in r
    ensures r <= s
    ensures |r| + 1 < size && |r| < |s| ==> s[|r|] == NUL
  {
    var c := CStr(s);
    if |c| < size then c else c[..size - 1]
  }

  /** `n` copies of `x`. */
  function Fill<T>(x: T, n: nat): (r: seq<T>)
    ensures |r| == n
    ensures forall i | 0 <= i < n :: r[i] == x
  {
    seq(n, _ => x)
  }

  /** The C string of `t` followed by a terminator is `t` itself, whatever comes after. */
  lemma {:induction false} CStrOfTerminated(t: Str, rest: Str)
    requires NUL !in t
    ensures CStr(t + [NUL] + rest) == t
  {
    if t == [] {
      assert (t + [NUL] + rest)[0] == NUL;
    } else {
      assert (t + [NUL] + rest)[1..] == t[1..] + [NUL] + rest;
      CStrOfTerminated(t[1..], rest);
    }
  }

  /** A string free of zero octets is its own C string. */
  lemma {:induction false} CStrOfPlain(t: Str)
    requires NUL !in t
    ensures CStr(t) == t
  {
    if t == [] {
    } else {
      CStrOfPlain(t[1..]);
    }
  }

  lemma Concat3(a: Str, b: Str, c: Str)
    ensures a + b + c == a + (b + c)
  {
  }

  lemma Concat4(a: Str, b: Str, c: Str, d: Str)
    ensures a + b + c + d == a + (b + c + d)
  {
  }

  /** Nothing after a zero octet matters. */
  lemma {:induction false} CStrStops(t: Str, rest: Str)
    requires NUL in t
    ensures CStr(t + rest) == CStr(t)
  {
    if t[0] == NUL {
    } else {
      assert (t + rest)[1..] == t[1..] + rest;
      CStrStops(t[1..], rest);
    }
  }

  /** Without a zero octet the string goes on. */
  lemma {:induction false} CStrContinues(t: Str, rest: Str)
    requires NUL !in t
    ensures CStr(t + rest) == t + CStr(rest)
  {
    if t == [] {
      assert t + rest == rest;
    } else {
      assert (t + rest)[1..] == t[1..] + rest;
      CStrContinues(t[1..], rest);
    }
  }
}
