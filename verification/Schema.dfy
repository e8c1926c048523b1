/**
 * What the Mongoose schemas do to a document before it is stored:
 * the `trim: true` setter on string paths and the validation errors
 * raised by `required`, `enum` and `min`.
 */
module Schema {

  /** One validation failure, named after the Mongoose validator and the path it guards. */
  datatype SchemaError =
    | Required(path: string)
    | NotInEnum(path: string)
    | BelowMin(path: string)

  /**
   * The characters JavaScript's `String.prototype.trim` removes: the
   * ECMAScript WhiteSpace and LineTerminator code points.
   */
  predicate IsSpace(c: char) {
    || c == ' ' || c == '\t' || c == '\n' || c == '\r'
    || c == '\U{000B}' || c == '\U{000C}' || c == '\U{00A0}' || c == '\U{1680}'
    || ('\U{2000}' <= c <= '\U{200A}')
    || c == '\U{2028}' || c == '\U{2029}' || c == '\U{202F}' || c == '\U{205F}'
    || c == '\U{3000}' || c == '\U{FEFF}'
  }

  predicate AllSpace(s: string) {
    forall i :: 0 <= i < |s| ==> IsSpace(s[i])
  }

  /** No white space at either end: what a trimmed path stores. */
  predicate IsTrimmed(s: string) {
    |s| == 0 || (!IsSpace(s[0]) && !IsSpace(s[|s| - 1]))
  }

  /** Drops leading white space; what is dropped is exactly a white-space prefix. */
  function TrimStart(s: string): (r: string)
    ensures |r| <= |s| && r == s[|s| - |r|..]
    ensures AllSpace(s[..|s| - |r|])
    ensures |r| == 0 || !IsSpace(r[0])
  {
    if |s| > 0 && IsSpace(s[0]) then TrimStart(s[1..]) else s
  }

  /** Drops trailing white space; what is dropped is exactly a white-space suffix. */
  function TrimEnd(s: string): (r: string)
    ensures |r| <= |s| && r == s[..|r|]
    ensures AllSpace(s[|r|..])
    ensures |r| == 0 || !IsSpace(r[|r| - 1])
  {
    if |s| > 0 && IsSpace(s[|s| - 1]) then TrimEnd(s[..|s| - 1]) else s
  }

  /** `r` is `s` with the first `i` characters and a white-space tail removed, and those `i` are white space. */
  ghost predicate SpaceAround(s: string, r: string, i: int) {
    && 0 <= i <= |s| - |r|
    && r == s[i..i + |r|]
    && AllSpace(s[..i])
    && AllSpace(s[i + |r|..])
  }

  /**
   * The `trim: true` setter. The result is trimmed, and it is the input
   * with a white-space prefix and a white-space suffix removed.
   */
  function Trim(s: string): (r: string)
    ensures IsTrimmed(r)
    ensures exists i :: SpaceAround(s, r, i)
  {
    var t := TrimStart(s);
    var r := TrimEnd(t);
    var i := |s| - |t|;
    assert s[i + |r|..] == t[|r|..];
    assert SpaceAround(s, r, i);
    r
  }

  /** Trimming a stored value again changes nothing. */
  lemma {:induction false} TrimIdempotent(s: string)
    requires IsTrimmed(s)
    ensures Trim(s) == s
  {
    if |s| > 0 {
      assert TrimStart(s) == s;
      assert TrimEnd(s) == s;
    }
  }

  /** Mongoose's `required` check on a string path: the empty string is missing. */
  function RequiredString(path: string, value: string): (errs: seq<SchemaError>)
    ensures errs == [] <==> |value| > 0
    ensures errs != [] ==> errs == [Required(path)]
  {
    if |value| == 0 then [Required(path)] else []
  }

  /**
   * A string path that is both `required` and restricted to an `enum`.
   * `required` runs first and a path keeps only its first error, so the
   * empty string is missing rather than outside the enum. `known` says
   * whether the enum lists the value.
   */
  function RequiredEnum(path: string, value: string, known: bool): (errs: seq<SchemaError>)
    ensures errs == [] <==> |value| > 0 && known
    ensures |errs| <= 1
    ensures Required(path) in errs <==> |value| == 0
    ensures NotInEnum(path) in errs <==> |value| > 0 && !known
  {
    if |value| == 0 then [Required(path)] else if !known then [NotInEnum(path)] else []
  }

  /** Mongoose's `min` check on a number path: the bound itself is accepted. */
  function AtLeast(path: string, value: real, bound: real): (errs: seq<SchemaError>)
    ensures errs == [] <==> value >= bound
    ensures errs != [] ==> errs == [BelowMin(path)]
  {
    if value < bound then [BelowMin(path)] else []
  }
}
