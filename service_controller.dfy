/** ServiceController: a company owner's store, update and destroy over the service table,
    with the request validation Laravel's validator applies to the submitted fields. */
module ServiceController {
  import opened Wrappers
  import opened Text
  import PhpValues
  import opened Models

  // ----- submitted fields -----

  /** One request field as the controller reads it: not sent, sent as null, or a string. */
  datatype Input = Absent | Null | Text(s: string)

  /** The fields store and update read. */
  datatype ServiceRequest = ServiceRequest(
    name: Input,
    description: Input,
    price: Input,
    durationMinutes: Input,
    kind: Input,
    isActive: Input)

  datatype Field = Name | Description | Price | DurationMinutes | Kind | IsActive

  /** A string the `required` rule counts as missing: nothing but the characters PHP's
      trim() removes, so that trim() leaves it empty (BlankIsTrimmedEmpty). */
  predicate Blank(s: string)
  {
    forall i :: 0 <= i < |s| ==> IsPhpSpace(s[i])
  }

  lemma BlankIsTrimmedEmpty(s: string)
    ensures Blank(s) <==> PhpTrim(s) == ""
  {
    var a := TrimStart(IsPhpSpace, s);
    if a != [] {
      assert TrimEnd(IsPhpSpace, a) != [] by {
        assert !IsPhpSpace(a[0]);
      }
    }
  }

  // ----- numbers in strings -----

  /** The number of leading decimal digits is the whole string exactly when it is all digits. */
  lemma {:induction false} DigitRunAll(s: string)
    requires AllDigits(s)
    ensures PhpValues.DigitRun(s) == |s|
  {
    if |s| > 0 {
      assert AllDigits(s[1..]) by {
        assert forall i :: 0 <= i < |s| - 1 ==> s[1..][i] == s[i + 1];
      }
      DigitRunAll(s[1..]);
    }
  }

  /** m times 10 to the power e, for an exponent of either sign; the sign of m is kept. */
  function Scaled(m: real, e: int): (r: real)
    ensures r >= 0.0 <==> m >= 0.0
    decreases if e >= 0 then e else -e
  {
    if e == 0 then m
    else if e > 0 then Scaled(m * 10.0, e - 1)
    else Scaled(m / 10.0, e + 1)
  }

  /** The value of the digits after a decimal point. */
  function Fraction(ds: string): (r: real)
    requires AllDigits(ds)
    ensures r >= 0.0
  {
    if ds == [] then 0.0 else (DigitValue(ds[0]) as real + Fraction(ds[1..])) / 10.0
  }

  /** The exponent after a mantissa: 'e' or 'E', an optional sign, then at least one digit
      and nothing else. */
  function Exponent(r: string): Option<int>
  {
    if |r| < 2 || (r[0] != 'e' && r[0] != 'E') then None
    else
      var neg := r[1] == '-';
      var ds := if r[1] == '-' || r[1] == '+' then r[2..] else r[1..];
      if |ds| > 0 && AllDigits(ds) then Some(if neg then -(DigitsValue(ds) as int) else DigitsValue(ds) as int)
      else None
  }

  /** An unsigned PHP number: digits, an optional '.' with digits after it (at least one
      digit in all), then an optional exponent. */
  function UnsignedValue(u: string): Option<real>
  {
    var a := PhpValues.DigitRun(u);
    var intPart := u[..a];
    var rest := u[a..];
    var hasDot := |rest| > 0 && rest[0] == '.';
    var afterDot := if hasDot then rest[1..] else "";
    var frac := afterDot[..PhpValues.DigitRun(afterDot)];
    var tail := if hasDot then afterDot[PhpValues.DigitRun(afterDot)..] else rest;
    if |intPart| + |frac| == 0 then None
    else
      var m := (DigitsValue(intPart) as real) + Fraction(frac);
      if tail == "" then Some(m)
      else match Exponent(tail)
        case None => None
        case Some(e) => Some(Scaled(m, e))
  }

  /** The whitespace filter_var trims before reading an integer. */
  predicate IsFilterSpace(c: char)
  {
    c == ' ' || c == '\t' || c == '\r' || c == '\U{000B}' || c == '\n'
  }

  /** The two sets of surrounding whitespace the number readers skip: filter_var's, and
      is_numeric's (which adds the form feed). */
  datatype Spaces = FilterSpaces | NumberSpaces

  predicate IsSpace(k: Spaces, c: char)
  {
    match k
    case FilterSpaces => IsFilterSpace(c)
    case NumberSpaces => PhpValues.IsPhpNumberSpace(c)
  }

  function StripStart(k: Spaces, s: string): (r: string)
    ensures |r| <= |s| && r == s[|s| - |r|..]
    ensures r == [] || !IsSpace(k, r[0])
  {
    if |s| > 0 && IsSpace(k, s[0]) then StripStart(k, s[1..]) else s
  }

  function StripEnd(k: Spaces, s: string): (r: string)
    ensures |r| <= |s| && r == s[..|r|]
    ensures r == [] || !IsSpace(k, r[|r| - 1])
  {
    if |s| > 0 && IsSpace(k, s[|s| - 1]) then StripEnd(k, s[..|s| - 1]) else s
  }

  /** Nothing is stripped from a string that neither begins nor ends with whitespace. */
  lemma Unstripped(k: Spaces, s: string)
    requires |s| > 0 && !IsSpace(k, s[0]) && !IsSpace(k, s[|s| - 1])
    ensures Strip(k, s) == s
  {
    assert StripStart(k, s) == s;
  }

  /** s without the surrounding whitespace of the given set. */
  function Strip(k: Spaces, s: string): (r: string)
    ensures |r| <= |s|
  {
    StripEnd(k, StripStart(k, s))
  }

  /** A signed number without surrounding whitespace: an optional sign, then an unsigned
      number. */
  function SignedValue(t: string): Option<real>
  {
    if |t| > 0 && t[0] == '-' then Negated(UnsignedValue(t[1..]))
    else if |t| > 0 && t[0] == '+' then UnsignedValue(t[1..])
    else UnsignedValue(t)
  }

  function Negated(v: Option<real>): Option<real>
  {
    match v
    case None => None
    case Some(x) => Some(-x)
  }

  /** is_numeric($s) and the number it spells: whitespace around a signed number. None when
      PHP does not count the string as numeric. */
  function NumericValue(s: string): Option<real>
  {
    SignedValue(Strip(NumberSpaces, s))
  }

  /** An integer without surrounding whitespace as filter_var reads it: "0", or an optional
      sign and either "0" or digits without a leading zero. */
  function IntegerValue(t: string): (r: Option<int>)
    ensures r.Some? ==> t != "" && (IsDigit(t[0]) || t[0] == '-' || t[0] == '+') && IsDigit(t[|t| - 1])
  {
    if t == "" then None
    else if t[0] == '0' then (if |t| == 1 then Some(0) else None)
    else
      var signed := t[0] == '-' || t[0] == '+';
      var u := if signed then t[1..] else t;
      if u == "0" && signed then Some(0)
      else if |u| > 0 && u[0] != '0' && AllDigits(u) then
        Some(if t[0] == '-' then -(DigitsValue(u) as int) else DigitsValue(u) as int)
      else None
  }

  /** filter_var($s, FILTER_VALIDATE_INT). */
  function FilterInt(s: string): (r: Option<int>)
  {
    IntegerValue(Strip(FilterSpaces, s))
  }

  /** Skipping is_numeric's wider whitespace skips no more when what filter_var's leaves
      begins with a character of neither set. */
  lemma {:induction false} StripStartWider(s: string)
    requires StripStart(FilterSpaces, s) != [] && !IsSpace(NumberSpaces, StripStart(FilterSpaces, s)[0])
    ensures StripStart(NumberSpaces, s) == StripStart(FilterSpaces, s)
  {
    if |s| > 0 && IsSpace(FilterSpaces, s[0]) {
      StripStartWider(s[1..]);
    }
  }

  lemma {:induction false} StripEndWider(s: string)
    requires StripEnd(FilterSpaces, s) != []
    requires !IsSpace(NumberSpaces, StripEnd(FilterSpaces, s)[|StripEnd(FilterSpaces, s)| - 1])
    ensures StripEnd(NumberSpaces, s) == StripEnd(FilterSpaces, s)
  {
    if |s| > 0 && IsSpace(FilterSpaces, s[|s| - 1]) {
      StripEndWider(s[..|s| - 1]);
    }
  }

  /** What filter_var leaves after trimming, is_numeric leaves too, when it begins and ends
      with something other than whitespace. */
  lemma SameStrip(s: string)
    requires Strip(FilterSpaces, s) != ""
    requires !IsSpace(NumberSpaces, Strip(FilterSpaces, s)[0])
    requires !IsSpace(NumberSpaces, Strip(FilterSpaces, s)[|Strip(FilterSpaces, s)| - 1])
    ensures Strip(NumberSpaces, s) == Strip(FilterSpaces, s)
  {
    var a := StripStart(FilterSpaces, s);
    assert a[0] == Strip(FilterSpaces, s)[0];
    StripStartWider(s);
    StripEndWider(a);
  }

  /** A run of digits reads as its value. */
  lemma DigitsNumeric(u: string)
    requires |u| > 0 && AllDigits(u)
    ensures UnsignedValue(u) == Some(DigitsValue(u) as real)
  {
    DigitRunAll(u);
    assert u[..|u|] == u && u[|u|..] == "";
  }

  /** An integer filter_var reads is a number is_numeric reads with the same value. */
  lemma IntegerIsSigned(t: string)
    requires IntegerValue(t).Some?
    ensures SignedValue(t) == Some(IntegerValue(t).value as real)
  {
    var signed := t[0] == '-' || t[0] == '+';
    var u := if signed then t[1..] else t;
    if t[0] == '0' {
      assert t == "0";
      DigitsNumeric(t);
    } else {
      DigitsNumeric(u);
    }
  }

  /** Every string filter_var reads as an integer is numeric, with the same value: the `min`
      and `max` rules compare the integer itself. */
  lemma IntegerIsNumeric(s: string)
    requires FilterInt(s).Some?
    ensures NumericValue(s) == Some(FilterInt(s).value as real)
  {
    SameStrip(s);
    IntegerIsSigned(Strip(FilterSpaces, s));
  }

  // ----- the validator -----

  /** The rules the two requests use. */
  datatype Rule = Required | IsString | Nullable | Numeric | Integer | BooleanRule | Min(n: int) | Max(n: int)

  /** What the validator sees of a field: the input, whether it is a blank string, and the
      number is_numeric and the integer filter_var read from it, if any. */
  datatype Reading = Reading(input: Input, blank: bool, number: Option<real>, integer: Option<int>)

  function Read(v: Input): (x: Reading)
    ensures x.input == v
  {
    match v
    case Text(s) => Reading(v, Blank(s), NumericValue(s), FilterInt(s))
    case _ => Reading(v, false, None, None)
  }

  /** The size min and max compare: the number for a numeric field holding a number, the
      character count for a string, and 0 for null. */
  function Size(rules: seq<Rule>, x: Reading): real
  {
    match x.input
    case Text(s) =>
      if (Numeric in rules || Integer in rules) && x.number.Some? then x.number.value
      else |s| as real
    case _ => 0.0
  }

  /** Whether the validator applies a rule at all: `required` always; any other rule only to
      a field that was sent and is not a blank string, and not to null when the field is
      nullable. */
  predicate Applies(rules: seq<Rule>, r: Rule, x: Reading)
  {
    r == Required || (x.input != Absent && !x.blank && !(Nullable in rules && x.input == Null))
  }

  /** Whether a rule that applies passes. */
  predicate Holds(rules: seq<Rule>, r: Rule, x: Reading)
  {
    match r
    case Required => x.input.Text? && !x.blank
    case IsString => x.input.Text?
    case Nullable => true
    case Numeric => x.input.Text? && x.number.Some?
    case Integer => x.input.Text? && x.integer.Some?
    case BooleanRule => x.input == Text("0") || x.input == Text("1")
    case Min(n) => Size(rules, x) >= n as real
    case Max(n) => Size(rules, x) <= n as real
  }

  /** Every rule in rest that applies passes (all rules are tried; none bails). */
  predicate AllHold(rules: seq<Rule>, rest: seq<Rule>, x: Reading)
    decreases |rest|
  {
    rest == [] || ((Applies(rules, rest[0], x) ==> Holds(rules, rest[0], x)) && AllHold(rules, rest[1..], x))
  }

  predicate Passes(rules: seq<Rule>, v: Input)
  {
    AllHold(rules, rules, Read(v))
  }

  const NameRules := [Required, IsString, Max(255)]
  const DescriptionRules := [Nullable, IsString, Max(1000)]
  const PriceRules := [Nullable, Numeric, Min(0)]
  const DurationRules := [Required, Integer, Min(5), Max(480)]
  const KindRules := [Nullable, IsString, Max(50)]
  const IsActiveRules := [BooleanRule]

  /** The field a rule set is for, as the request holds it. */
  function InputOf(req: ServiceRequest, f: Field): Input
  {
    match f
    case Name => req.name
    case Description => req.description
    case Price => req.price
    case DurationMinutes => req.durationMinutes
    case Kind => req.kind
    case IsActive => req.isActive
  }

  /** The fields in the order the rules list them. */
  function FieldAt(i: int): Field
  {
    if i <= 0 then Name else if i == 1 then Description else if i == 2 then Price
    else if i == 3 then DurationMinutes else if i == 4 then Kind else IsActive
  }

  /** The rules store and update pass to the validator, field by field. */
  function ServiceRules(): seq<(Field, seq<Rule>)>
  {
    seq(6, i => (FieldAt(i), RulesFor(FieldAt(i))))
  }

  /** The fields whose rules fail, in the order the rules are listed. */
  function Failing(rules: seq<(Field, seq<Rule>)>, req: ServiceRequest): (errs: seq<Field>)
    ensures |errs| <= |rules|
  {
    if rules == [] then []
    else
      (if Passes(rules[0].1, InputOf(req, rules[0].0)) then [] else [rules[0].0])
      + Failing(rules[1..], req)
  }

  function Errors(req: ServiceRequest): (errs: seq<Field>)
    ensures |errs| <= 6
  {
    Failing(ServiceRules(), req)
  }

  /** A string field with a length bound, optional: absent, null, blank or short enough. */
  predicate ShortOrMissing(v: Input, bound: nat)
  {
    v.Text? ==> Blank(v.s) || |v.s| <= bound
  }

  lemma NameRuleOn(x: Reading)
    ensures AllHold(NameRules, NameRules, x) <==> x.input.Text? && !x.blank && |x.input.s| <= 255
  {
    assert NameRules[1..] == [IsString, Max(255)] && NameRules[1..][1..] == [Max(255)];
  }

  lemma NameRule(v: Input)
    ensures Passes(NameRules, v) <==> v.Text? && !Blank(v.s) && |v.s| <= 255
  {
    NameRuleOn(Read(v));
  }

  lemma OptionalTextRuleOn(x: Reading, bound: nat)
    ensures AllHold([Nullable, IsString, Max(bound)], [Nullable, IsString, Max(bound)], x)
            <==> (x.input.Text? ==> x.blank || |x.input.s| <= bound)
  {
    var rules := [Nullable, IsString, Max(bound)];
    assert rules[1..] == [IsString, Max(bound)] && rules[1..][1..] == [Max(bound)];
    assert [Max(bound)][1..] == [];
    assert Numeric !in rules && Integer !in rules;
    assert AllHold(rules, [Max(bound)], x) <==> (Applies(rules, Max(bound), x) ==> Holds(rules, Max(bound), x));
  }

  lemma OptionalTextRule(v: Input, bound: nat)
    ensures Passes([Nullable, IsString, Max(bound)], v) <==> ShortOrMissing(v, bound)
  {
    OptionalTextRuleOn(Read(v), bound);
  }

  lemma PriceRuleOn(x: Reading)
    ensures AllHold(PriceRules, PriceRules, x)
            <==> (x.input.Text? && !x.blank ==> x.number.Some? && x.number.value >= 0.0)
  {
    assert PriceRules[1..] == [Numeric, Min(0)] && PriceRules[1..][1..] == [Min(0)];
  }

  lemma PriceRule(v: Input)
    ensures Passes(PriceRules, v)
            <==> (v.Text? && !Blank(v.s) ==> NumericValue(v.s).Some? && NumericValue(v.s).value >= 0.0)
  {
    PriceRuleOn(Read(v));
  }

  lemma DurationRuleOn(x: Reading)
    requires x.integer.Some? ==> x.input.Text? && !x.blank && x.number == Some(x.integer.value as real)
    ensures AllHold(DurationRules, DurationRules, x)
            <==> x.input.Text? && x.integer.Some? && 5 <= x.integer.value <= 480
  {
    assert DurationRules[1..] == [Integer, Min(5), Max(480)];
    assert DurationRules[1..][1..] == [Min(5), Max(480)];
    assert DurationRules[1..][1..][1..] == [Max(480)];
  }

  lemma DurationRule(v: Input)
    ensures Passes(DurationRules, v)
            <==> v.Text? && FilterInt(v.s).Some? && 5 <= FilterInt(v.s).value <= 480
  {
    if v.Text? && FilterInt(v.s).Some? {
      IntegerIsNumeric(v.s);
      StripWider(v.s);
    }
    DurationRuleOn(Read(v));
  }

  /** A string whose filter_var trim begins with a character trim() keeps is not blank. */
  lemma StripWider(s: string)
    requires Strip(FilterSpaces, s) != "" && !IsPhpSpace(Strip(FilterSpaces, s)[0])
    ensures !Blank(s)
  {
    var a := StripStart(FilterSpaces, s);
    assert s[|s| - |a|] == a[0] == Strip(FilterSpaces, s)[0];
  }

  lemma IsActiveRuleOn(x: Reading)
    requires x.input == Text("0") || x.input == Text("1") ==> !x.blank
    requires x.input == Null ==> !x.blank
    ensures AllHold(IsActiveRules, IsActiveRules, x)
            <==> x.input != Null && (x.input.Text? && !x.blank ==> x.input.s == "0" || x.input.s == "1")
  {
    assert IsActiveRules[1..] == [];
  }

  lemma IsActiveRule(v: Input)
    ensures Passes(IsActiveRules, v) <==> v != Null && (v.Text? && !Blank(v.s) ==> v.s == "0" || v.s == "1")
  {
    assert !Blank("0") && !Blank("1") by {
      assert !IsPhpSpace("0"[0]) && !IsPhpSpace("1"[0]);
    }
    IsActiveRuleOn(Read(v));
  }

  /** What the rules of each field come to: a name of at most 255 characters that is not
      blank; a description of at most 1000 and a type of at most 50 characters when sent; a
      price, when sent, that is a number not below 0; a duration that reads as an integer
      from 5 to 480; and is_active, when sent, "0" or "1" and not null. */
  predicate Condition(f: Field, v: Input)
  {
    match f
    case Name => v.Text? && !Blank(v.s) && |v.s| <= 255
    case Description => ShortOrMissing(v, 1000)
    case Price => v.Text? && !Blank(v.s) ==> NumericValue(v.s).Some? && NumericValue(v.s).value >= 0.0
    case DurationMinutes => v.Text? && FilterInt(v.s).Some? && 5 <= FilterInt(v.s).value <= 480
    case Kind => ShortOrMissing(v, 50)
    case IsActive => v != Null && (v.Text? && !Blank(v.s) ==> v.s == "0" || v.s == "1")
  }

  /** The rules listed for a field. */
  function RulesFor(f: Field): seq<Rule>
  {
    match f
    case Name => NameRules
    case Description => DescriptionRules
    case Price => PriceRules
    case DurationMinutes => DurationRules
    case Kind => KindRules
    case IsActive => IsActiveRules
  }

  /** Each field's rules pass exactly when its condition holds. */
  lemma RuleCondition(f: Field, v: Input)
    ensures Passes(RulesFor(f), v) <==> Condition(f, v)
  {
    match f
    case Name => NameRule(v);
    case Description => OptionalTextRule(v, 1000);
    case Price => PriceRule(v);
    case DurationMinutes => DurationRule(v);
    case Kind => OptionalTextRule(v, 50);
    case IsActive => IsActiveRule(v);
  }

  /** A field appears in a rule list's failures exactly when some entry for it fails. */
  lemma {:induction false} FailingMember(rules: seq<(Field, seq<Rule>)>, req: ServiceRequest, f: Field)
    ensures f in Failing(rules, req)
            <==> exists i :: 0 <= i < |rules| && rules[i].0 == f && !Passes(rules[i].1, InputOf(req, f))
  {
    if rules != [] {
      FailingMember(rules[1..], req, f);
      if f in Failing(rules[1..], req) {
        var i :| 0 <= i < |rules[1..]| && rules[1..][i].0 == f && !Passes(rules[1..][i].1, InputOf(req, f));
        assert rules[i + 1] == rules[1..][i];
      }
      if exists i :: 0 <= i < |rules| && rules[i].0 == f && !Passes(rules[i].1, InputOf(req, f)) {
        var i :| 0 <= i < |rules| && rules[i].0 == f && !Passes(rules[i].1, InputOf(req, f));
        if i > 0 {
          assert rules[1..][i - 1] == rules[i];
        }
      }
    }
  }

  /** The fields listed among the errors are exactly those whose condition fails. */
  lemma ErrorsAreFailingFields(req: ServiceRequest, f: Field)
    ensures f in Errors(req) <==> !Condition(f, InputOf(req, f))
  {
    FailingMember(ServiceRules(), req, f);
    var k := match f
      case Name => 0 case Description => 1 case Price => 2
      case DurationMinutes => 3 case Kind => 4 case IsActive => 5;
    assert ServiceRules()[k] == (f, RulesFor(f));
    RuleCondition(f, InputOf(req, f));
  }

  /** A request passes validation exactly when every field meets its condition. */
  lemma ValidationBounds(req: ServiceRequest)
    ensures Errors(req) == [] <==> forall f :: Condition(f, InputOf(req, f))
  {
    forall f
      ensures f in Errors(req) <==> !Condition(f, InputOf(req, f))
    {
      ErrorsAreFailingFields(req, f);
    }
    if Errors(req) != [] {
      assert Errors(req)[0] in Errors(req);
    }
  }

  /** Digits without surrounding whitespace or a leading zero read as their value. */
  lemma DecimalIsInteger(s: string)
    requires |s| > 0 && AllDigits(s) && s[0] != '0'
    ensures FilterInt(s) == Some(DigitsValue(s) as int)
  {
    DigitsStripped(s);
    DigitsInteger(s);
  }

  /** A run of digits has no surrounding whitespace to strip. */
  lemma DigitsStripped(s: string)
    requires |s| > 0 && IsDigit(s[0]) && IsDigit(s[|s| - 1])
    ensures Strip(FilterSpaces, s) == s
  {
    Unstripped(FilterSpaces, s);
  }

  lemma DigitsInteger(t: string)
    requires |t| > 0 && AllDigits(t) && t[0] != '0'
    ensures IntegerValue(t) == Some(DigitsValue(t) as int)
  {
    assert IsDigit(t[0]);
  }

  lemma LeadingZeroInteger(t: string)
    requires |t| >= 2 && t[0] == '0'
    ensures IntegerValue(t).None?
  {
  }

  /** A leading zero makes a duration unreadable as an integer: "05" is refused. */
  lemma LeadingZeroRefused(d: string)
    requires |d| >= 2 && AllDigits(d) && d[0] == '0'
    ensures !Passes(DurationRules, Text(d))
  {
    DigitsStripped(d);
    LeadingZeroInteger(d);
    DurationRule(Text(d));
  }

  /** Any duration in range written in decimal passes and is stored as that number. */
  lemma DurationRoundTrip(n: nat)
    requires 5 <= n <= 480
    ensures Passes(DurationRules, Text(NatToString(n)))
    ensures DurationOf(Text(NatToString(n))) == n
  {
    var s := NatToString(n);
    NatToStringRoundTrip(n);
    assert s[0] != '0' by {
      if |s| == 1 { assert DigitsValue(s) == DigitValue(s[0]) by { assert s[..0] == ""; } }
    }
    DecimalIsInteger(s);
    DurationRule(Text(s));
  }

  /** A sign or digit first and a digit last leave nothing for is_numeric to strip. */
  lemma NumberStripped(s: string)
    requires |s| > 0 && (IsDigit(s[0]) || s[0] == '-') && IsDigit(s[|s| - 1])
    ensures Strip(NumberSpaces, s) == s
  {
    Unstripped(NumberSpaces, s);
  }

  /** A signed number is its unsigned part with the sign applied. */
  lemma SignApplied(t: string, v: real)
    requires |t| > 0 && t[0] == '-' && UnsignedValue(t[1..]) == Some(v)
    ensures SignedValue(t) == Some(-v)
  {
  }

  lemma Unsigned(t: string, v: real)
    requires |t| > 0 && IsDigit(t[0]) && UnsignedValue(t) == Some(v)
    ensures SignedValue(t) == Some(v)
  {
  }

  /** Digits read as their value, and after a minus sign as its negation. */
  lemma PositiveDigits(s: string)
    requires |s| > 0 && AllDigits(s)
    ensures SignedValue(s) == Some(DigitsValue(s) as real)
  {
    DigitsNumeric(s);
    Unsigned(s, DigitsValue(s) as real);
  }

  lemma NegativeDigits(t: string)
    requires |t| > 1 && t[0] == '-' && AllDigits(t[1..])
    ensures SignedValue(t) == Some(-(DigitsValue(t[1..]) as real))
  {
    DigitsNumeric(t[1..]);
    SignApplied(t, DigitsValue(t[1..]) as real);
  }

  /** is_numeric reads a run of digits as its value, and after a minus sign as its
      negation. */
  lemma NumericDigits(s: string)
    requires |s| > 0 && AllDigits(s)
    ensures NumericValue(s) == Some(DigitsValue(s) as real)
  {
    NumberStripped(s);
    PositiveDigits(s);
  }

  lemma NumericNegative(t: string)
    requires |t| > 1 && t[0] == '-' && AllDigits(t[1..])
    ensures NumericValue(t) == Some(-(DigitsValue(t[1..]) as real))
  {
    assert IsDigit(t[1..][|t| - 2]);
    NumberStripped(t);
    NegativeDigits(t);
  }

  /** Any whole price written in decimal passes and is stored as that number. */
  lemma PriceRoundTrip(n: nat)
    ensures Condition(Price, Text(NatToString(n)))
    ensures PriceOf(Text(NatToString(n))) == Some(n as real)
  {
    NatToStringRoundTrip(n);
    NumericDigits(NatToString(n));
  }

  /** A negative number is refused as a price. */
  lemma NegativeRefused(t: string)
    requires |t| > 1 && t[0] == '-' && AllDigits(t[1..]) && DigitsValue(t[1..]) > 0
    ensures !Condition(Price, Text(t))
  {
    NumericNegative(t);
    assert !IsPhpSpace(t[0]);
  }

  /** A whole price below zero is refused. */
  lemma NegativePriceRefused(n: nat)
    requires n > 0
    ensures !Condition(Price, Text("-" + NatToString(n)))
  {
    var s := NatToString(n);
    NatToStringRoundTrip(n);
    assert ("-" + s)[1..] == s;
    NegativeRefused("-" + s);
  }

  // ----- what is written -----

  /** The integer a validated duration reads as; 0 for one that does not (never written). */
  function DurationOf(v: Input): int
  {
    if v.Text? && FilterInt(v.s).Some? then FilterInt(v.s).value else 0
  }

  /** The price written: the number sent, or none. */
  function PriceOf(v: Input): Option<real>
  {
    if v.Text? && NumericValue(v.s).Some? then Some(NumericValue(v.s).value) else None
  }

  /** $request->x for an optional string field: null when not sent. */
  function TextOf(v: Input): Option<string>
  {
    if v.Text? then Some(v.s) else None
  }

  /** The service a validated request describes, with the given id and company: the type
      falls back to 'default' when not sent or null, and the service is active exactly when
      is_active was sent, whatever its value. */
  function Filled(id: nat, companyId: nat, req: ServiceRequest): (s: Service)
    ensures s.id == id && s.companyId == companyId
    ensures req.name.Text? ==> s.name == req.name.s
    ensures s.kind == (if req.kind.Text? then req.kind.s else "default")
    ensures s.isActive <==> req.isActive != Absent
    ensures s.durationMinutes == DurationOf(req.durationMinutes)
  {
    Service(id, companyId, if req.name.Text? then req.name.s else "", TextOf(req.description),
            PriceOf(req.price), "", DurationOf(req.durationMinutes),
            if req.kind.Text? then req.kind.s else "default", req.isActive != Absent)
  }

  /** is_active is a presence flag: a request that sends "0" passes and still activates the
      service, and one that leaves it out deactivates it. */
  lemma IsActiveIsPresence(id: nat, companyId: nat, req: ServiceRequest)
    ensures Passes(IsActiveRules, Text("0")) && Passes(IsActiveRules, Absent)
    ensures Filled(id, companyId, req.(isActive := Text("0"))).isActive
    ensures !Filled(id, companyId, req.(isActive := Absent)).isActive
  {
    IsActiveRule(Text("0"));
    IsActiveRule(Absent);
  }

  // ----- the tables -----

  /** What the controller reads of a company: its id, slug and owner. */
  datatype CompanyRow = CompanyRow(id: nat, slug: string, userId: nat)

  /** Company::where('slug', $slug)->firstOrFail(): the first company with the slug. */
  function FindCompany(companies: seq<CompanyRow>, slug: string): (r: Option<CompanyRow>)
    ensures r.Some? ==> r.value in companies && r.value.slug == slug
    ensures r.None? <==> forall c :: c in companies ==> c.slug != slug
  {
    if |companies| == 0 then None
    else if companies[0].slug == slug then Some(companies[0])
    else FindCompany(companies[1..], slug)
  }

  /** Service::where('id', $id)->where('company_id', $companyId)->firstOrFail(): the index
      of the first service matching both. */
  function FindService(services: seq<Service>, id: nat, companyId: nat): (r: Option<nat>)
    ensures r.Some? ==> r.value < |services| && services[r.value].id == id && services[r.value].companyId == companyId
    ensures r.None? <==> forall i :: 0 <= i < |services| ==> services[i].id != id || services[i].companyId != companyId
  {
    if |services| == 0 then None
    else if services[0].id == id && services[0].companyId == companyId then Some(0)
    else match FindService(services[1..], id, companyId)
      case None => None
      case Some(i) => Some(i + 1)
  }

  /** $service->appointments()->exists(): some appointment, of any status, is for it. */
  predicate HasAppointments(appointments: seq<Appointment>, serviceId: nat)
  {
    exists i :: 0 <= i < |appointments| && appointments[i].serviceId == serviceId
  }

  /** The service with a request's fields written over it; id and company are kept. */
  function Overwritten(s: Service, req: ServiceRequest): (t: Service)
    ensures t.id == s.id && t.companyId == s.companyId
  {
    Filled(s.id, s.companyId, req).(formattedPrice := s.formattedPrice)
  }

  /** What a request to the controller ends in. */
  datatype Outcome =
    | NotFound
    | NotOwner
    | Invalid(errors: seq<Field>)
    | Created(id: nat)
    | Updated
    | Deactivated
    | Deleted

  /** Distinct ids, all below the next id. */
  predicate UniqueIds(services: seq<Service>, nextId: nat)
  {
    (forall i :: 0 <= i < |services| ==> services[i].id < nextId)
    && (forall i, j :: 0 <= i < j < |services| ==> services[i].id != services[j].id)
  }

  /** With distinct ids, a deleted service is found no more. */
  lemma DeletedIsGone(services: seq<Service>, nextId: nat, i: nat, companyId: nat)
    requires UniqueIds(services, nextId) && i < |services|
    ensures FindService(services[..i] + services[i + 1..], services[i].id, companyId).None?
    ensures UniqueIds(services[..i] + services[i + 1..], nextId)
  {
    var rest := services[..i] + services[i + 1..];
    forall k | 0 <= k < |rest|
      ensures rest[k].id != services[i].id
    {
      if k < i { assert rest[k] == services[k]; } else { assert rest[k] == services[k + 1]; }
    }
    forall a, b | 0 <= a < b < |rest|
      ensures rest[a].id != rest[b].id
    {
      var a' := if a < i then a else a + 1;
      var b' := if b < i then b else b + 1;
      assert rest[a] == services[a'] && rest[b] == services[b'];
    }
  }

  /** A service under the next id keeps the ids distinct. */
  lemma AppendedIsUnique(services: seq<Service>, nextId: nat, s: Service)
    requires UniqueIds(services, nextId) && s.id == nextId
    ensures UniqueIds(services + [s], nextId + 1)
  {
    var all := services + [s];
    assert forall i :: 0 <= i < |services| ==> all[i] == services[i];
  }

  /** A service written over in place under its own id keeps the ids distinct. */
  lemma ReplacedIsUnique(services: seq<Service>, nextId: nat, i: nat, s: Service)
    requires UniqueIds(services, nextId) && i < |services| && s.id == services[i].id
    ensures UniqueIds(services[i := s], nextId)
  {
    var all := services[i := s];
    assert forall k :: 0 <= k < |services| ==> all[k].id == services[k].id;
  }

  /** The service table behind the controller, with the companies and appointments it reads. */
  class ServiceTable {
    const companies: seq<CompanyRow>
    var services: seq<Service>
    var nextId: nat
    var appointments: seq<Appointment>

    ghost predicate Valid()
      reads this
    {
      UniqueIds(services, nextId)
    }

    constructor(companies: seq<CompanyRow>, services: seq<Service>, nextId: nat, appointments: seq<Appointment>)
      requires UniqueIds(services, nextId)
      ensures Valid()
      ensures this.companies == companies && this.services == services
      ensures this.nextId == nextId && this.appointments == appointments
    {
      this.companies := companies;
      this.services := services;
      this.nextId := nextId;
      this.appointments := appointments;
    }

    /** store: an unknown slug is not found, a user other than the owner is turned away, a
        request that fails validation is sent back with its errors; only then is the service
        added, under the next id. */
    method Store(user: nat, slug: string, req: ServiceRequest) returns (r: Outcome)
      requires Valid()
      modifies this`services, this`nextId
      ensures Valid()
      ensures var c := FindCompany(companies, slug);
              if c.None? then r == NotFound
              else if c.value.userId != user then r == NotOwner
              else if Errors(req) != [] then r == Invalid(Errors(req))
              else r == Created(old(nextId))
      ensures r.Created? ==> services == old(services) + [Filled(old(nextId), FindCompany(companies, slug).value.id, req)]
                             && nextId == old(nextId) + 1
      ensures !r.Created? ==> services == old(services) && nextId == old(nextId)
    {
      var company := FindCompany(companies, slug);
      if company.None? {
        return NotFound;
      }
      if user != company.value.userId {
        return NotOwner;
      }
      var errors := Errors(req);
      if errors != [] {
        return Invalid(errors);
      }
      var service := Filled(nextId, company.value.id, req);
      AppendedIsUnique(services, nextId, service);
      services := services + [service];
      r := Created(nextId);
      nextId := nextId + 1;
    }

    /** update: as store, except that the service must be one of the company's (looked up
        before validation), and its fields are written over in place. */
    method Update(user: nat, slug: string, serviceId: nat, req: ServiceRequest) returns (r: Outcome)
      requires Valid()
      modifies this`services
      ensures Valid()
      ensures var c := FindCompany(companies, slug);
              if c.None? then r == NotFound
              else if c.value.userId != user then r == NotOwner
              else if FindService(old(services), serviceId, c.value.id).None? then r == NotFound
              else if Errors(req) != [] then r == Invalid(Errors(req))
              else r == Updated
      ensures r == Updated ==>
                var i := FindService(old(services), serviceId, FindCompany(companies, slug).value.id).value;
                services == old(services)[i := Overwritten(old(services)[i], req)]
      ensures r != Updated ==> services == old(services)
    {
      var company := FindCompany(companies, slug);
      if company.None? {
        return NotFound;
      }
      if user != company.value.userId {
        return NotOwner;
      }
      var found := FindService(services, serviceId, company.value.id);
      if found.None? {
        return NotFound;
      }
      var errors := Errors(req);
      if errors != [] {
        return Invalid(errors);
      }
      var i := found.value;
      var service := Overwritten(services[i], req);
      ReplacedIsUnique(services, nextId, i, service);
      services := services[i := service];
      return Updated;
    }

    /** destroy: a service of the company that has appointments is deactivated and kept;
        one without is removed. */
    method Destroy(user: nat, slug: string, serviceId: nat) returns (r: Outcome)
      requires Valid()
      modifies this`services
      ensures Valid()
      ensures var c := FindCompany(companies, slug);
              if c.None? then r == NotFound
              else if c.value.userId != user then r == NotOwner
              else if FindService(old(services), serviceId, c.value.id).None? then r == NotFound
              else if HasAppointments(appointments, serviceId) then r == Deactivated
              else r == Deleted
      ensures r == Deactivated ==>
                var i := FindService(old(services), serviceId, FindCompany(companies, slug).value.id).value;
                services == old(services)[i := old(services)[i].(isActive := false)]
      ensures r == Deleted ==>
                var i := FindService(old(services), serviceId, FindCompany(companies, slug).value.id).value;
                services == old(services)[..i] + old(services)[i + 1..]
                && FindService(services, serviceId, FindCompany(companies, slug).value.id).None?
      ensures !r.Deactivated? && !r.Deleted? ==> services == old(services)
    {
      var company := FindCompany(companies, slug);
      if company.None? {
        return NotFound;
      }
      if user != company.value.userId {
        return NotOwner;
      }
      var found := FindService(services, serviceId, company.value.id);
      if found.None? {
        return NotFound;
      }
      var i := found.value;
      if HasAppointments(appointments, serviceId) {
        var service := services[i].(isActive := false);
        ReplacedIsUnique(services, nextId, i, service);
        services := services[i := service];
        return Deactivated;
      }
      DeletedIsGone(services, nextId, i, company.value.id);
      services := services[..i] + services[i + 1..];
      return Deleted;
    }
  }
}
