/**
 * PHP's dynamically typed values as they flow through the option arrays
 * (`array<string, mixed>`) that the parser, the environment loader and the
 * configuration exchange, with the casts applied to them.
 */
module PhpValue {
  import opened PhpText

  datatype Value = Null | Bool(b: bool) | Int(i: int) | Str(s: string)

  /** An associative array with string keys. */
  type Options = map<string, Value>

  /** `(int) $v` */
  function ToInt(v: Value): int {
    match v
    case Null => 0
    case Bool(b) => if b then 1 else 0
    case Int(i) => i
    case Str(s) => IntCast(s)
  }

  /** `(string) $v` */
  function ToStr(v: Value): string {
    match v
    case Null => ""
    case Bool(b) => if b then "1" else ""
    case Int(i) => IntToString(i)
    case Str(s) => s
  }

  /** `(bool) $v`: "", "0", 0, false and null are false. */
  function ToBool(v: Value): bool {
    match v
    case Null => false
    case Bool(b) => b
    case Int(i) => i != 0
    case Str(s) => s != "" && s != "0"
  }

  /** `isset($m[$k])`: the key is present with a non-null value. */
  predicate IsSet(m: Options, k: string) {
    k in m && m[k] != Null
  }

  /** `$m[$k] ?? $default` */
  function Coalesce(m: Options, k: string, default: Value): (v: Value)
    ensures IsSet(m, k) ==> v == m[k]
    ensures !IsSet(m, k) ==> v == default
  {
    if IsSet(m, k) then m[k] else default
  }

  /** `array_filter($m, fn ($v) => $v !== null)` */
  function WithoutNulls(m: Options): (r: Options)
    ensures r.Keys == set k | k in m && m[k] != Null
    ensures forall k :: k in r ==> r[k] == m[k] && r[k] != Null
  {
    map k | k in m && m[k] != Null :: m[k]
  }
}
