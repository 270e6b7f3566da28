/**
 * The mongoose SchemaType validators the two storage models use, each as
 * mongoose applies it to a path value that is missing, null or given.
 * Only `required` rejects a missing or null value; the other validators
 * let both through.
 */
module StorageRules {
  import opened Payloads

  /** `required: true` on a String path: missing, null and "" all fail. */
  predicate RequiredString(f: Field<string>) {
    f.Given? && f.value != []
  }

  /** `required: true` on a Number path: any number passes. */
  predicate RequiredNumber(f: Field<real>) {
    f.Given?
  }

  /** `enum: [...]` on a String path. */
  predicate InEnum(f: Field<string>, options: set<string>) {
    !f.Given? || f.value in options
  }

  /** `match: /.../` on a String path: missing, null and "" skip the pattern. */
  predicate Matching(f: Field<string>, shape: string -> bool) {
    !f.Given? || f.value == [] || shape(f.value)
  }

  /** `min: lo, max: hi` on a Number path. */
  predicate WithinRange(f: Field<real>, lo: real, hi: real) {
    !f.Given? || lo <= f.value <= hi
  }

  /**
   * A custom validator `arr => arr.length <= cap` on an array path. A
   * missing array takes the default `[]` and passes; on null the validator
   * throws, which mongoose reports as a failure.
   */
  predicate AtMost<T>(f: Field<seq<T>>, cap: nat) {
    f.Absent? || (f.Given? && |f.value| <= cap)
  }
}
