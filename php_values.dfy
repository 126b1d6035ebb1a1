/** The loosely typed values a company's settings are stored as (decoded JSON), with the
    PHP operations the calendar code applies to them: `??`, the (int) and (bool) casts and
    a loose in_array. A PHP array is an ordered table of keys and values; a JSON list gets
    the keys 0, 1, 2, ... */
module PhpValues {
  import opened Wrappers
  import opened Text

  datatype Key = IntKey(i: int) | StrKey(s: string)

  datatype Value =
    | Null
    | Bool(b: bool)
    | Int(i: int)
    | Str(s: string)
    | Array(entries: seq<Entry>)

  datatype Entry = Entry(key: Key, value: Value)

  /** A JSON list as a PHP array. */
  function List(vs: seq<Value>): (v: Value)
    ensures v.Array? && |v.entries| == |vs|
    ensures forall i :: 0 <= i < |vs| ==> v.entries[i].value == vs[i]
  {
    Array(seq(|vs|, i requires 0 <= i < |vs| => Entry(IntKey(i), vs[i])))
  }

  /** Reading $v[$key] for a string key: the value stored under it, or None when v is not
      an array or has no such key. */
  function Lookup(v: Value, key: string): Option<Value>
    decreases if v.Array? then |v.entries| else 0
  {
    if !v.Array? || |v.entries| == 0 then None
    else if v.entries[0].key == StrKey(key) then Some(v.entries[0].value)
    else Lookup(Array(v.entries[1..]), key)
  }

  /** True when $v[$key] ?? ... would fall back to the default: no such key, or null. */
  predicate Unset(v: Value, key: string)
  {
    Lookup(v, key).None? || Lookup(v, key) == Some(Null)
  }

  /** $v[$key] ?? $default. */
  function Coalesce(v: Value, key: string, default: Value): (r: Value)
    ensures Unset(v, key) ==> r == default
    ensures !Unset(v, key) ==> Some(r) == Lookup(v, key) && r != Null
  {
    match Lookup(v, key)
    case None => default
    case Some(x) => if x.Null? then default else x
  }

  predicate IsPhpNumberSpace(c: char)
  {
    c == ' ' || c == '\t' || c == '\n' || c == '\r' || c == '\U{000B}' || c == '\U{000C}'
  }

  /** The number of leading decimal digits of s. */
  function DigitRun(s: string): (n: nat)
    ensures n <= |s| && AllDigits(s[..n])
    ensures n < |s| ==> !IsDigit(s[n])
  {
    if |s| > 0 && IsDigit(s[0]) then
      var n := 1 + DigitRun(s[1..]);
      assert forall i :: 1 <= i < n ==> s[..n][i] == s[1..][..n - 1][i - 1];
      n
    else 0
  }

  /** (int)$s for a string: leading whitespace, an optional sign, then the longest run of
      digits; 0 when there is none. */
  function StringToInt(s: string): int
  {
    var t := TrimStart(IsPhpNumberSpace, s);
    if |t| > 0 && (t[0] == '-' || t[0] == '+') then
      var d := t[1..][..DigitRun(t[1..])];
      if t[0] == '-' then -(DigitsValue(d) as int) else DigitsValue(d) as int
    else
      DigitsValue(t[..DigitRun(t)])
  }

  /** PHP's (int) cast. */
  function ToInt(v: Value): int
  {
    match v
    case Null => 0
    case Bool(b) => if b then 1 else 0
    case Int(i) => i
    case Str(s) => StringToInt(s)
    case Array(es) => if |es| == 0 then 0 else 1
  }

  /** PHP's (bool) cast. */
  predicate ToBool(v: Value)
  {
    match v
    case Null => false
    case Bool(b) => b
    case Int(i) => i != 0
    case Str(s) => s != "" && s != "0"
    case Array(es) => |es| > 0
  }

  /** PHP 8's loose `==` between a non-empty, non-numeric string (a day name or a Y-m-d
      date) and a value: an equal string, or `true` (the string is truthy); an integer
      compares as its decimal string, and null, false and arrays never match. */
  predicate LooseEqualsText(needle: string, v: Value)
  {
    v == Str(needle) || v == Bool(true)
  }

  /** in_array($needle, $arr) with loose comparison, for such a needle. */
  predicate InArray(needle: string, arr: Value)
    requires arr.Array?
  {
    exists i :: 0 <= i < |arr.entries| && LooseEqualsText(needle, arr.entries[i].value)
  }
}
