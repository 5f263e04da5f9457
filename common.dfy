/**
 * The kstat value modifiers of lib/common.js.  A kstat value reaches them as a
 * JavaScript number, modelled as a (finite) `real`; the assertion that it is an
 * integer becomes an `AssertionError` result.
 */
module Common {
  import opened Wrappers

  /** The kernel's fixed-point scale for load averages (sys/param.h). */
  const FSCALE: int := 256

  /** The "no memory cap" sentinel as a JavaScript number: UINT64_MAX rounds to 2^64. */
  const MEM_LIMIT_UNCAPPED: real := 18446744073709551616.0

  /** The "no memory cap configured" sentinel of a zero cap. */
  const MEM_LIMIT_UNSET: real := 0.0

  const KSTAT_NOT_INTEGER: string := "kstat must be an integer"

  /** What `assert-plus` throws when `mod_assert.ok` fails. */
  datatype AssertionError = AssertionError(message: string)

  /** `Number.isInteger` on a finite number. */
  predicate IsInteger(x: real) {
    x.Floor as real == x
  }

  /** `calculateLoadAvg`: the fixed-point load average scaled down by FSCALE; the
      result times FSCALE gives back the kstat value. */
  function CalculateLoadAvg(kstat: real): (r: Result<real, AssertionError>)
    ensures r.Ok? <==> IsInteger(kstat)
    ensures r.Err? ==> r.error == AssertionError(KSTAT_NOT_INTEGER)
    ensures r.Ok? ==> r.value * FSCALE as real == kstat
  {
    if !IsInteger(kstat) then Err(AssertionError(KSTAT_NOT_INTEGER))
    else Ok(kstat / FSCALE as real)
  }

  /** `inskMemLimit`: a cap equal to 2^64 or to 0 means "no cap" and becomes absent;
      any other integer passes through unchanged. */
  function InskMemLimit(kstat: real): (r: Result<Option<real>, AssertionError>)
    ensures r.Ok? <==> IsInteger(kstat)
    ensures r.Err? ==> r.error == AssertionError(KSTAT_NOT_INTEGER)
    ensures r.Ok? ==> (r.value.None? <==> kstat == MEM_LIMIT_UNCAPPED || kstat == MEM_LIMIT_UNSET)
    ensures r.Ok? && r.value.Some? ==> r.value.value == kstat
  {
    if !IsInteger(kstat) then Err(AssertionError(KSTAT_NOT_INTEGER))
    else if kstat == MEM_LIMIT_UNCAPPED || kstat == MEM_LIMIT_UNSET then Ok(None)
    else Ok(Some(kstat))
  }

  /** A kstat that is a multiple of FSCALE gives a whole-number load average; exact over
      the reals, double rounding is not modelled. */
  lemma LoadAvgIsExact(k: int)
    ensures k % 256 == 0 ==> CalculateLoadAvg(k as real) == Ok((k / 256) as real)
  {
    if k % 256 == 0 {
      assert k as real == (k / 256) as real * 256.0;
    }
  }

  /** The load average is monotone in the kstat value. */
  lemma LoadAvgMonotone(a: int, b: int)
    requires a <= b
    ensures CalculateLoadAvg(a as real).value <= CalculateLoadAvg(b as real).value
  {
  }

  /** `inskMemLimit` is idempotent: a value it lets through, it lets through again. */
  lemma InskMemLimitIdempotent(k: real)
    requires InskMemLimit(k).Ok? && InskMemLimit(k).value.Some?
    ensures InskMemLimit(InskMemLimit(k).value.value) == InskMemLimit(k)
  {
  }
}
