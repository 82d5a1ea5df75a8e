/** The request-body checks the routes declare with the schema library:
    `z.string().min(n)`, `z.string().email()`, `z.string().optional()` and
    `z.boolean().optional()`, applied to one body field (`None` when the field
    is missing). Lengths are JavaScript lengths, in UTF-16 code units. */
module Schema {
  import opened Common
  import opened Text

  /** `z.string().min(n)`. */
  predicate StringMin(f: Option<Field>, n: nat) {
    f.Some? && f.value.Str? && Utf16Length(f.value.s) >= n
  }

  /** `z.string().email()`, with the address check itself a parameter. */
  predicate EmailField(f: Option<Field>, isEmail: string -> bool) {
    f.Some? && f.value.Str? && isEmail(f.value.s)
  }

  /** `z.string().optional()`. */
  predicate OptionalString(f: Option<Field>) {
    f.None? || f.value.Str?
  }

  /** `z.boolean().optional()`. */
  predicate OptionalBool(f: Option<Field>) {
    f.None? || f.value.Bool?
  }

  /** The parsed value of an optional string field. */
  function StringValue(f: Option<Field>): Option<string>
    requires OptionalString(f)
  {
    if f.Some? then Some(f.value.s) else None
  }
}
