/**
 * The loosely typed values that flow through the request handlers and ticket records:
 * JSON scalars plus JavaScript's `undefined`, with the truthiness and `??` rules the code relies on.
 */
module JsValue {

  /**
   * `Other` stands for an object or array parsed from JSON, given by the text its `toString`
   * produces: the comma-joined elements for an array (`"600"` for `[600]`, `""` for `[]`),
   * `"[object Object]"` for a plain object. That text is what a numeric comparison reads.
   */
  datatype Value = Undefined | Null | Bool(b: bool) | Num(n: real) | Str(s: string) | Other(text: string)

  /** JavaScript truthiness (NaN is not modelled; a number is falsy only when it is 0). */
  predicate Truthy(v: Value) {
    match v
    case Undefined => false
    case Null => false
    case Bool(b) => b
    case Num(n) => n != 0.0
    case Str(s) => s != ""
    case Other(_) => true
  }

  /** The falsy values of ToBoolean (section 7.1.2 of ECMA-262) that `Value` can hold; every other value is truthy. */
  lemma FalsyValues(v: Value)
    ensures !Truthy(v) <==> v in [Undefined, Null, Bool(false), Num(0.0), Str("")]
  {
  }

  predicate Nullish(v: Value) { v == Undefined || v == Null }

  /** `v ?? null`. */
  function OrNull(v: Value): Value {
    if Nullish(v) then Null else v
  }

  /** Property access on a record: a missing key reads as `undefined`. */
  function Get(record: map<string, Value>, key: string): Value {
    if key in record then record[key] else Undefined
  }

  /** The characters of JavaScript's `\s` and of `String.prototype.trim`. */
  predicate IsSpace(c: char) {
    var n := c as int;
    n == 0x09 || n == 0x0A || n == 0x0B || n == 0x0C || n == 0x0D || n == 0x20 || n == 0xA0
    || n == 0x1680 || (0x2000 <= n <= 0x200A) || n == 0x2028 || n == 0x2029 || n == 0x202F
    || n == 0x205F || n == 0x3000 || n == 0xFEFF
  }

  function TrimStart(s: string): (r: string)
    ensures |r| <= |s| && r == s[|s| - |r|..]
    ensures forall j :: 0 <= j < |s| - |r| ==> IsSpace(s[j])
    ensures r == [] || !IsSpace(r[0])
  {
    if s != [] && IsSpace(s[0]) then TrimStart(s[1..]) else s
  }

  function TrimEnd(s: string): (r: string)
    ensures |r| <= |s| && r == s[..|r|]
    ensures forall j :: |r| <= j < |s| ==> IsSpace(s[j])
    ensures r == [] || !IsSpace(r[|r| - 1])
  {
    if s != [] && IsSpace(s[|s| - 1]) then TrimEnd(s[..|s| - 1]) else s
  }

  /** `String.prototype.trim`. */
  function Trim(s: string): string {
    TrimEnd(TrimStart(s))
  }
}
