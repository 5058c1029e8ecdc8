/** Values shared by the recovery modules: an optional value, the plain values that cross
    the JavaScript/native boundary (recovery contexts, serialised script results), and
    powers of two for the backoff delays. */
module Common {

  datatype Option<+T> = None | Some(value: T)

  /** A plain value as the JavaScript side sees it: what a serialised script result or a
      recovery context is made of. */
  datatype Value =
    | VNull
    | VString(s: string)
    | VInt(i: int)
    | VBool(b: bool)
    | VArray(elems: seq<Value>)
    | VDict(fields: map<string, Value>)

  function Pow2(n: nat): (r: nat)
    ensures r >= 1
    ensures n >= 1 ==> r >= 2 && r % 2 == 0
  {
    if n == 0 then 1 else 2 * Pow2(n - 1)
  }

  lemma {:induction false} Pow2Monotonic(m: nat, n: nat)
    requires m <= n
    ensures Pow2(m) <= Pow2(n)
  {
    if m < n {
      Pow2Monotonic(m, n - 1);
    }
  }
}
