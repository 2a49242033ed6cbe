/**
 * The pydantic `Field(...)` constraints the request schemas declare:
 * `min_length`/`max_length` on strings (counted in characters) and
 * `ge`/`le` on integers.  An optional field that is absent satisfies every
 * constraint, as pydantic never validates a default.  A request body that
 * breaks a constraint, or whose validator raises `ValueError`, is answered
 * by FastAPI with status 422.
 */
module FieldRules {
  import opened Outcomes

  const Rejected: Failure := Http(422, "")

  predicate LengthBetween(s: string, lo: nat, hi: nat) { lo <= |s| <= hi }

  predicate OptionalMaxLength(s: Option<string>, hi: nat) { s.None? || |s.value| <= hi }

  predicate OptionalBetween(v: Option<int>, lo: int, hi: int) { v.None? || lo <= v.value <= hi }

  /** An optional field with a default: the given value, or the default when absent. */
  function OrDefault<T>(v: Option<T>, fallback: T): T {
    if v.Some? then v.value else fallback
  }
}
