/** Types shared by every module: optional values and the errors the controller distinguishes. */
module Base {

  datatype Option<+T> = None | Some(value: T)

  /** The Go code returns `error` values; `None` of an `Option<Error>` is Go's nil. */
  datatype Error =
    | RateLimiter
    | Api(code: int)
    | Cancelled
    | NoDatabases(pool: string)
    | NoAddresses(node: string)

  /** The most recent error in a list of call results, or nil when every call succeeded. */
  function LastError(results: seq<Option<Error>>): Option<Error> {
    if results == [] then None
    else if results[|results| - 1].Some? then results[|results| - 1]
    else LastError(results[..|results| - 1])
  }

  lemma {:induction false} LastErrorNil(results: seq<Option<Error>>)
    ensures LastError(results).None? <==> forall i | 0 <= i < |results| :: results[i].None?
  {
    if results == [] {
    } else {
      LastErrorNil(results[..|results| - 1]);
    }
  }

  /** It is the last entry that is an error. */
  lemma {:induction false} LastErrorIsLast(results: seq<Option<Error>>, e: Error)
    ensures LastError(results) == Some(e) <==>
      exists i :: 0 <= i < |results| && results[i] == Some(e) && forall j | i < j < |results| :: results[j].None?
  {
    if results == [] {
    } else {
      var n := |results| - 1;
      LastErrorIsLast(results[..n], e);
      if results[n].None? {
        forall i | 0 <= i < n && results[i] == Some(e) && forall j | i < j < n :: results[j].None?
          ensures forall j | i < j < |results| :: results[j].None?
        {
        }
      } else {
        assert results[n] == LastError(results);
      }
    }
  }

  function Pow2(n: nat): (p: nat)
    ensures p >= 1
  {
    if n == 0 then 1 else 2 * Pow2(n - 1)
  }

  /** base * 2^k, by repeated doubling. */
  function Scaled(base: int, k: nat): int {
    if k == 0 then base else 2 * Scaled(base, k - 1)
  }

  lemma {:induction false} ScaledIsPower(base: int, k: nat)
    ensures Scaled(base, k) == base * Pow2(k)
  {
    if k == 0 {
    } else {
      ScaledIsPower(base, k - 1);
      assert base * (2 * Pow2(k - 1)) == 2 * (base * Pow2(k - 1));
    }
  }

  lemma {:induction false} ScaledMonotone(base: int, m: nat, n: nat)
    requires base >= 0 && m <= n
    ensures base <= Scaled(base, m) <= Scaled(base, n)
  {
    if n == 0 {
    } else {
      ScaledMonotone(base, if m < n then m else m - 1, n - 1);
    }
  }

  lemma ProductNonnegative(x: real, y: real)
    requires 0.0 <= x && 0.0 <= y
    ensures 0.0 <= x * y
  {
  }
}
