/**
 * How the object-document mapper casts a JSON value assigned to a schema path of type
 * String, [String], Boolean or ObjectId. A cast that fails makes the next save fail.
 */
module Casting {
  import opened Wrappers
  import opened Js

  /** A String path: strings are kept, numbers and booleans are converted, anything else is refused. */
  function CastString(v: Value): (r: Option<string>)
    ensures v.Str? ==> r == Some(v.s)
    ensures v.Null? || v.Arr? || v.Obj? ==> r == None
  {
    match v
    case Str(s) => Some(s)
    case Num(n) => Some(IntToString(n))
    case Bool(b) => Some(if b then "true" else "false")
    case _ => None
  }

  /** A truthy value casts to a non-empty string, so a truthy name can never trip `required`. */
  lemma TruthyCastsNonEmpty(v: Value)
    requires Truthy(v) && CastString(v).Some?
    ensures CastString(v).value != ""
  {
  }

  /** Every element of an array cast as a String, or nothing if one element is refused. */
  function CastStrings(items: seq<Value>): (r: Option<seq<string>>)
    ensures r.Some? <==> forall i :: 0 <= i < |items| ==> CastString(items[i]).Some?
    ensures r.Some? ==> |r.value| == |items|
    ensures r.Some? ==> forall i :: 0 <= i < |items| ==> r.value[i] == CastString(items[i]).value
  {
    if items == [] then Some([])
    else match (CastString(items[0]), CastStrings(items[1..]))
      case (Some(s), Some(rest)) => Some([s] + rest)
      case _ => None
  }

  /** A [String] path: an array is cast element-wise; any other value is wrapped as a one-element array. */
  function CastStringArray(v: Value): (r: Option<seq<string>>)
    ensures v.Arr? ==> r == CastStrings(v.items)
    ensures v.Str? ==> r == Some([v.s])
  {
    match v
    case Arr(items) => CastStrings(items)
    case _ => match CastString(v)
      case Some(s) => Some([s])
      case None => None
  }

  /** A Boolean path: the values the mapper accepts as true and as false; anything else is refused. */
  function CastBoolean(v: Value): (r: Option<bool>)
    ensures v.Bool? ==> r == Some(v.b)
    ensures r == Some(true) <==> v in [Bool(true), Str("true"), Num(1), Str("1"), Str("yes")]
    ensures r == Some(false) <==> v in [Bool(false), Str("false"), Num(0), Str("0"), Str("no")]
  {
    match v
    case Bool(b) => Some(b)
    case Num(n) => if n == 1 then Some(true) else if n == 0 then Some(false) else None
    case Str(s) =>
      if s == "true" || s == "1" || s == "yes" then Some(true)
      else if s == "false" || s == "0" || s == "no" then Some(false)
      else None
    case _ => None
  }

  predicate IsHexDigit(c: char) {
    ('0' <= c <= '9') || ('a' <= c <= 'f') || ('A' <= c <= 'F')
  }

  /** An ObjectId path accepts a string of 24 hexadecimal digits and stores it in lower case. */
  function CastObjectId(v: Value): (r: Option<string>)
    ensures r.Some? <==> v.Str? && |v.s| == 24 && forall i :: 0 <= i < 24 ==> IsHexDigit(v.s[i])
    ensures r.Some? ==> r.value == ToLower(v.s)
  {
    match v
    case Str(s) =>
      if |s| == 24 && forall i :: 0 <= i < 24 ==> IsHexDigit(s[i]) then Some(ToLower(s)) else None
    case _ => None
  }

  /**
   * `findById(raw)`: the raw path id is cast like an ObjectId path before the lookup. `None`
   * is the CastError the lookup throws; an id written in upper case is looked up in lower case.
   */
  function PathKey(raw: string): (r: Option<string>)
    ensures r.Some? <==> |raw| == 24 && forall i :: 0 <= i < 24 ==> IsHexDigit(raw[i])
    ensures r.Some? ==> |r.value| == 24 && forall i :: 0 <= i < 24 ==> r.value[i] == LowerChar(raw[i])
  {
    CastObjectId(Str(raw))
  }

  /** An id as the database stores it: the cast of its own text gives it back. */
  predicate IsObjectId(id: string) {
    PathKey(id) == Some(id)
  }

  /** A malformed id is refused, and an upper-case id finds the record stored under its lower-case form. */
  lemma PathKeyExamples()
    ensures PathKey("abc") == None
    ensures PathKey("64B7F0C2A1D3E4F5A6B7C8D9") == Some("64b7f0c2a1d3e4f5a6b7c8d9")
    ensures IsObjectId("64b7f0c2a1d3e4f5a6b7c8d9")
  {
    var upper := "64B7F0C2A1D3E4F5A6B7C8D9";
    var lower := "64b7f0c2a1d3e4f5a6b7c8d9";
    assert forall i :: 0 <= i < 24 ==> IsHexDigit(upper[i]) && LowerChar(upper[i]) == lower[i];
    assert forall i :: 0 <= i < 24 ==> IsHexDigit(lower[i]) && LowerChar(lower[i]) == lower[i];
    assert PathKey(upper).value == lower;
    assert PathKey(lower).value == lower;
  }
}
