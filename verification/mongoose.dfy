/** The parts of Mongoose's document semantics the schemas rely on: ids, the
    `required` check on strings, the `trim` setter, and the keys a `Map` path
    accepts. */
module Mongoose {
  import opened Wrappers
  import opened Text

  /** A document id (`_id`, or a reference to another document). */
  type ObjectId = nat

  /** A string path with `trim: true` stores the trimmed value. */
  function TrimmedPath(v: Option<string>): (r: Option<string>)
    ensures r.None? <==> v.None?
    ensures v.Some? ==> r.value == Trim(v.value)
  {
    match v
    case None => None
    case Some(s) => Some(Trim(s))
  }

  /** `required: true` on a string path: the value must be present and not
      empty (so a blank string trimmed to "" fails). */
  predicate RequiredString(v: Option<string>)
  {
    v.Some? && v.value != ""
  }

  /** Mongoose `Map` paths refuse keys that start with '$' or contain '.':
      `map.set(k, v)` throws for them. */
  predicate ValidMapKey(k: string)
  {
    '.' !in k && !(|k| > 0 && k[0] == '$')
  }

  /** A trimmed required string is accepted exactly when the raw input holds a
      character that is not white space. */
  lemma RequiredTrimmed(v: Option<string>)
    ensures RequiredString(TrimmedPath(v))
            <==> v.Some? && exists i :: 0 <= i < |v.value| && !IsJsSpace(v.value[i])
  {
  }
}
