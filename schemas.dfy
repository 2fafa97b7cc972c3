/** The fullname validators of the request schemas (app/src/db/schemas.py). */
module Schemas {
  import opened Wrappers

  /** The character class `[а-яА-Яa-zA-Z\-]` of `LETTER_MATCH_PATTERN`. */
  predicate IsNameChar(c: char)
    ensures IsNameChar(c) <==> c == '-' || ('A' <= c <= 'Z') || ('a' <= c <= 'z') || ('\U{0410}' <= c <= '\U{044F}')
    ensures IsNameChar(c) ==> c != '\U{0401}' && c != '\U{0451}'   // Ё and ё lie outside а-я and А-Я
  {
    || ('\U{0430}' <= c <= '\U{044F}')   // а-я
    || ('\U{0410}' <= c <= '\U{042F}')   // А-Я
    || ('a' <= c <= 'z')
    || ('A' <= c <= 'Z')
    || c == '-'
  }

  /** A non-empty string of class characters: what the pattern is meant to admit. */
  predicate IsLetterName(w: string)
  {
    |w| >= 1 && forall i :: 0 <= i < |w| ==> IsNameChar(w[i])
  }

  /** Length of the longest prefix of class characters: how far the greedy `[...]+` runs. */
  function NameRun(s: string): (n: nat)
    ensures n <= |s|
    ensures forall i :: 0 <= i < n ==> IsNameChar(s[i])
    ensures n < |s| ==> !IsNameChar(s[n])
    decreases |s|
  {
    if |s| == 0 || !IsNameChar(s[0]) then 0 else 1 + NameRun(s[1..])
  }

  /** `LETTER_MATCH_PATTERN.match(s)` succeeds: `^`, then the greedy `[...]+`, then Python's `$`,
    * which holds at the end of the string or just before one final newline. Backing off the
    * greedy run cannot help, since a shorter run stops before a class character, which is
    * neither the end nor a newline. */
  predicate MatchesLetterPattern(s: string)
    ensures MatchesLetterPattern(s)
        <==> IsLetterName(s) || (|s| >= 2 && s[|s| - 1] == '\n' && IsLetterName(s[..|s| - 1]))
  {
    var n := NameRun(s);
    n >= 1 && (n == |s| || (n == |s| - 1 && s[n] == '\n'))
  }

  /** A string holding a character outside the class anywhere but in a final newline is refused;
    * spaces, digits, apostrophes, `ё` and `Ё` are such characters. */
  lemma {:induction false} ForeignCharacterRejected(s: string, i: nat)
    requires i < |s| && !IsNameChar(s[i])
    requires i < |s| - 1 || s[i] != '\n'
    ensures !MatchesLetterPattern(s)
  {
  }

  /** None of these characters is in the class. */
  lemma ExcludedCharacters()
    ensures !IsNameChar(' ') && !IsNameChar('\'') && !IsNameChar('\n')
    ensures forall d :: '0' <= d <= '9' ==> !IsNameChar(d)
    ensures !IsNameChar('\U{0451}') && !IsNameChar('\U{0401}')  // ё, Ё
  {
  }

  const FULLNAME_ERROR: HttpException := HttpException(422, "Fullname should contains only letters")
  const NAME_ERROR: HttpException := HttpException(422, "Name should contains only letters")
  /** pydantic's refusal of a value shorter than `constr(min_length=1)`. */
  const MIN_LENGTH_ERROR: HttpException := HttpException(422, "ensure this value has at least 1 characters")

  /** `UserCreate.validate_surname`: the value unchanged, or status 422. */
  function ValidateSurname(value: string): (r: Result<string>)
    ensures r.Ok? <==> (IsLetterName(value) ||
                        (|value| >= 2 && value[|value| - 1] == '\n' && IsLetterName(value[..|value| - 1])))
    ensures r.Ok? ==> r.value == value
    ensures r.Raise? ==> r.exc == FULLNAME_ERROR
  {
    if !MatchesLetterPattern(value) then Raise(FULLNAME_ERROR) else Ok(value)
  }

  /** pydantic's report of the `TypeError` that `LETTER_MATCH_PATTERN.match(None)` raises
    * (the message text varies between Python versions). */
  const NULL_NAME_ERROR: HttpException := HttpException(422, "expected string or bytes-like object")

  /** The `fullname` key of an update request body: missing, JSON `null`, or a string. */
  datatype FieldInput = Absent | Null | Present(text: string)

  /** `UpdateUserRequest.fullname` (pydantic v1): a missing key takes the default `None` without
    * running the validator. An explicit `null` skips the length rule but reaches `validate_name`,
    * whose `match(None)` raises `TypeError`, reported as 422. A string must have length at least 1,
    * then match the pattern. */
  function ValidateUpdateFullname(value: FieldInput): (r: Result<Option<string>>)
    ensures value.Absent? <==> r == Ok(None)
    ensures value.Null? ==> r == Raise(NULL_NAME_ERROR)
    ensures value.Present? && |value.text| == 0 ==> r == Raise(MIN_LENGTH_ERROR)
    ensures value.Present? ==> (r.Ok? <==> MatchesLetterPattern(value.text))
    ensures value.Present? && r.Ok? ==> r.value == Some(value.text)
    ensures value.Present? && |value.text| >= 1 && r.Raise? ==> r.exc == NAME_ERROR
  {
    match value
    case Absent => Ok(None)
    case Null => Raise(NULL_NAME_ERROR)
    case Present(s) =>
      if |s| < 1 then Raise(MIN_LENGTH_ERROR)
      else if !MatchesLetterPattern(s) then Raise(NAME_ERROR)
      else Ok(Some(s))
  }

  /** Both validators admit the same non-empty names. */
  lemma {:induction false} ValidatorsAgree(s: string)
    requires |s| >= 1
    ensures ValidateSurname(s).Ok? <==> ValidateUpdateFullname(Present(s)).Ok?
  {
  }
}
