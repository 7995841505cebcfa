/**
 * How the two management commands read their values: a command-line
 * option, or, unless `--noinput` is given, the answer typed at a prompt
 * when the option is missing or empty.
 */
module CommandInput {
  import opened Wrappers

  /** Python truthiness of an optional string: `None` and `''` are false. */
  predicate Falsy(v: Option<string>) { v.None? || v.value == "" }

  /** `if not noinput: if not x: x = input(...)`. */
  function Prompted(option: Option<string>, answer: string, noinput: bool): (r: Option<string>)
    ensures noinput ==> r == option
    ensures !Falsy(option) ==> r == option
    ensures !noinput && Falsy(option) ==> r == Some(answer)
  {
    if !noinput && Falsy(option) then Some(answer) else option
  }

  /** `input(...) or None`: an empty answer is no value. */
  function OrNone(answer: string): (r: Option<string>)
    ensures r.None? <==> answer == ""
    ensures r.Some? ==> r.value == answer
  {
    if answer == "" then None else Some(answer)
  }

  /** `x or ''`. */
  function OrEmpty(v: Option<string>): (r: string)
    ensures Falsy(v) ==> r == ""
    ensures !Falsy(v) ==> r == v.value
  {
    if Falsy(v) then "" else v.value
  }
}
