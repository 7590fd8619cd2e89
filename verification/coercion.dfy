/**
 * Coercion of a decoded JSON value to a float (`ifaceToFloat`). Floating
 * point is modelled by `real`; `strconv.ParseFloat` is a parameter, an
 * arbitrary partial function on the already-trimmed text.
 */
module Coercion {

  import opened Wrappers
  import opened Text

  /** The dynamic shapes `ifaceToFloat` distinguishes; `Other` is every remaining shape (bool, null, object, array). */
  datatype Value =
    | Float64(f: real)
    | Float32(f: real)
    | Int(i: int)
    | Int64(i: int)
    | Str(s: string)
    | Other

  /**
   * `ifaceToFloat`: `Some(x)` is Go's `(x, true)`, `None` is `(0, false)`.
   * Every number is accepted, a string only when it is non-empty and its
   * trimmed form parses, and nothing else.
   */
  function ToFloat(v: Value, parse: string -> Option<real>): (r: Option<real>)
    ensures r.Some? <==> !v.Other? && (v.Str? ==> v.s != "" && parse(TrimSpace(v.s)).Some?)
    ensures v.Str? && r.Some? ==> r == parse(TrimSpace(v.s))
  {
    match v
    case Float64(f) => Some(f)
    case Float32(f) => Some(f)
    case Int(i) => Some(i as real)
    case Int64(i) => Some(i as real)
    case Str(s) => if s == "" then None else parse(TrimSpace(s))
    case Other => None
  }

  /** Every numeric shape coerces to its own value, whatever the parser does. */
  lemma NumbersCoerce(v: Value, parse: string -> Option<real>)
    requires !v.Str? && !v.Other?
    ensures ToFloat(v, parse) == Some(if v.Float64? || v.Float32? then v.f else v.i as real)
  {
  }

  /**
   * A string of white space only is rejected: its trimmed form is empty,
   * which `strconv.ParseFloat` refuses.
   */
  lemma BlankStringFails(s: string, parse: string -> Option<real>)
    requires parse("") == None
    requires forall i :: 0 <= i < |s| ==> IsSpace(s[i])
    ensures ToFloat(Str(s), parse) == None
  {
    TrimEmpty(s, IsSpace);
  }

  /**
   * A number written as text, with any white space around it, coerces to
   * what the parser makes of the bare number.
   */
  lemma PaddedNumber(pre: string, t: string, post: string, parse: string -> Option<real>)
    requires forall i :: 0 <= i < |pre| ==> IsSpace(pre[i])
    requires forall i :: 0 <= i < |post| ==> IsSpace(post[i])
    requires t != "" && !IsSpace(t[0]) && !IsSpace(t[|t| - 1])
    ensures ToFloat(Str(pre + t + post), parse) == parse(t)
  {
    TrimPadded(pre, t, post, IsSpace);
  }

  /** Shapes other than numbers and strings are rejected. */
  lemma OtherFails(parse: string -> Option<real>)
    ensures ToFloat(Other, parse) == None && ToFloat(Str(""), parse) == None
  {
  }
}
