/** Small shared vocabulary: Kotlin's nullable values and the 32-bit `Int`
    arithmetic the app performs on retry counters and page numbers. */
module Common {

  /** A Kotlin nullable value `T?`. */
  datatype Option<+T> = None | Some(value: T) {
    function GetOr(default: T): T {
      match this
      case Some(v) => v
      case None => default
    }
  }

  const INT_MIN: int := -0x8000_0000
  const INT_MAX: int := 0x7fff_ffff

  /** Kotlin `Int`: a two's-complement 32-bit integer. */
  type Int32 = x: int | -0x8000_0000 <= x <= 0x7fff_ffff

  /** The value a 32-bit register holds after an exact result `x` is computed
      with wrap-around. Wrapping each intermediate step of `+`, `-` and `*`
      gives the same value as wrapping the exact result once. */
  function Wrap(x: int): (r: Int32)
    ensures INT_MIN <= x <= INT_MAX ==> r == x
    ensures x == INT_MAX + 1 ==> r == INT_MIN
    ensures x == INT_MIN - 1 ==> r == INT_MAX
  {
    ((x + 0x8000_0000) % 0x1_0000_0000) - 0x8000_0000
  }

  /** `n + 1` on a Kotlin `Int`. */
  function Inc(n: Int32): (r: Int32)
    ensures n < INT_MAX ==> r == n + 1
    ensures n == INT_MAX ==> r == INT_MIN
  {
    Wrap(n + 1)
  }

  /** Kotlin `Int.coerceAtMost(bound)`. */
  function CoerceAtMost(n: Int32, bound: Int32): (r: Int32)
    ensures r <= n && r <= bound
    ensures r == n || r == bound
  {
    if n <= bound then n else bound
  }

  /** Stepping back one and forward one on a 32-bit `Int` returns to the start,
      also across the wrap-around point. */
  lemma WrapPredSucc(p: Int32)
    ensures Wrap(Wrap(p - 1) + 1) == p
  {
    if p == INT_MIN {
      assert Wrap(p - 1) == INT_MAX;
    } else {
      assert Wrap(p - 1) == p - 1;
    }
  }

  /** Stepping forward one and back one on a 32-bit `Int` returns to the start. */
  lemma WrapSuccPred(p: Int32)
    ensures Wrap(Wrap(p + 1) - 1) == p
  {
    if p == INT_MAX {
      assert Wrap(p + 1) == INT_MIN;
    } else {
      assert Wrap(p + 1) == p + 1;
    }
  }
}
