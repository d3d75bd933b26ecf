/** Byte strings and results shared by the codecs. */
module Bytes {
  type Byte = b: int | 0 <= b < 256

  datatype Result<+T, +E> = Ok(value: T) | Err(error: E)

  /** The number of zero bytes directly before position i. */
  function ZeroRun(s: seq<Byte>, i: nat): (n: nat)
    requires i <= |s|
    ensures n <= i
  {
    if i == 0 || s[i - 1] != 0 then 0 else 1 + ZeroRun(s, i - 1)
  }

  lemma {:induction false} ZeroRunIsMaximal(s: seq<Byte>, i: nat)
    requires i <= |s|
    ensures var n := ZeroRun(s, i);
            (forall k :: i - n <= k < i ==> s[k] == 0) && (n < i ==> s[i - n - 1] != 0)
  {
    if i > 0 && s[i - 1] == 0 { ZeroRunIsMaximal(s, i - 1); }
  }

  /** The run of zeros is the only number that is maximal in this sense. */
  lemma {:induction false} ZeroRunIs(s: seq<Byte>, i: nat, n: nat)
    requires n <= i <= |s|
    requires forall k :: i - n <= k < i ==> s[k] == 0
    requires n < i ==> s[i - n - 1] != 0
    ensures ZeroRun(s, i) == n
  {
    if n > 0 { ZeroRunIs(s, i - 1, n - 1); }
  }

  /** A run of zeros does not depend on what follows it. */
  lemma {:induction false} ZeroRunPrefix(s: seq<Byte>, t: seq<Byte>, i: nat)
    requires i <= |s|
    ensures ZeroRun(s + t, i) == ZeroRun(s, i)
  {
    if i > 0 { ZeroRunPrefix(s, t, i - 1); }
  }
}
