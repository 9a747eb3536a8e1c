/** The form-input helpers of useValidatedInput.js: `sanitizeNumericInput`, which strips a typed
    value down to a numeral, and `validateNumericValue`, which checks a value against its
    field's rules and names the first rule it breaks. */
module ValidatedInput {
  import opened NumericText

  /** A form value: undefined or null, or the text `String(value)` gives. */
  datatype Input = Absent | Given(text: string)

  predicate IsEmpty(value: Input)
  {
    value.Absent? || value.text == ""
  }

  /** The characters a pass keeps: digits, '.' and, when negatives are allowed, '-'; or
      everything except one character. */
  datatype CharClass = Numeric(allowNegative: bool) | AllBut(c: char)

  predicate InClass(cls: CharClass, c: char)
  {
    match cls
    case Numeric(neg) => IsDigit(c) || c == '.' || (neg && c == '-')
    case AllBut(x) => c != x
  }

  /** `str.replace(/[^...]/g, '')`: the characters outside the class deleted. */
  function Filter(s: string, cls: CharClass): (r: string)
    ensures forall i :: 0 <= i < |r| ==> InClass(cls, r[i])
    ensures multiset(r) <= multiset(s)
  {
    if s == [] then []
    else if InClass(cls, s[0]) then
      assert s == [s[0]] + s[1..];
      [s[0]] + Filter(s[1..], cls)
    else
      assert s == [s[0]] + s[1..];
      Filter(s[1..], cls)
  }

  /** A filter keeps every occurrence of a character in its class and none of one outside it. */
  lemma {:induction false} FilterCount(s: string, cls: CharClass, c: char)
    ensures multiset(Filter(s, cls))[c] == if InClass(cls, c) then multiset(s)[c] else 0
  {
    if s != [] {
      FilterCount(s[1..], cls, c);
      assert s == [s[0]] + s[1..];
    }
  }

  /** `str.indexOf(c)`: the first index holding c, or -1 when there is none. */
  function IndexOf(s: string, c: char): (i: int)
    ensures -1 <= i < |s|
    ensures i >= 0 ==> s[i] == c
    ensures forall j :: 0 <= j < |s| && (i < 0 || j < i) ==> s[j] != c
  {
    if s == [] then -1
    else if s[0] == c then 0
    else
      var i := IndexOf(s[1..], c);
      if i < 0 then -1 else i + 1
  }

  /** `str.split('.')` with more than two parts rejoined as `parts[0] + '.' + parts.slice(1).join('')`:
      when the text has several dots, everything after the first dot loses its dots. */
  function CollapseDots(s: string): (r: string)
    ensures multiset(r)['.'] <= 1
    ensures multiset(r) <= multiset(s)
    ensures var i := IndexOf(s, '.'); i >= 0 ==> r == s[..i + 1] + Filter(s[i + 1..], AllBut('.'))
    ensures IndexOf(s, '.') < 0 ==> r == s
  {
    var i := IndexOf(s, '.');
    DotsAround(s, i);
    if multiset(s)['.'] > 1 then s[..i] + "." + Filter(s[i + 1..], AllBut('.'))
    else if i >= 0 then
      var tail := s[i + 1..];
      assert forall j :: 0 <= j < |tail| ==> tail[j] in multiset(tail);
      FilterKeepsAll(tail, AllBut('.'));
      s
    else s
  }

  /** Splitting at the first dot: the dots of the text are that one and those after it. */
  lemma DotsAround(s: string, i: int)
    requires i == IndexOf(s, '.')
    ensures i < 0 ==> multiset(s)['.'] == 0
    ensures i >= 0 ==> s == s[..i] + "." + s[i + 1..]
    ensures i >= 0 ==> multiset(s)['.'] == 1 + multiset(s[i + 1..])['.']
  {
    if i >= 0 {
      assert s == s[..i] + "." + s[i + 1..];
      assert '.' !in s[..i];
      assert multiset(s) == multiset(s[..i]) + multiset{'.'} + multiset(s[i + 1..]);
    } else {
      assert '.' !in s;
    }
  }

  /** A filter that keeps every character of the text changes nothing. */
  lemma {:induction false} FilterKeepsAll(s: string, cls: CharClass)
    requires forall i :: 0 <= i < |s| ==> InClass(cls, s[i])
    ensures Filter(s, cls) == s
  {
    if s != [] {
      FilterKeepsAll(s[1..], cls);
    }
  }

  /** Every character's count after a filter, at once. */
  lemma FilterCounts(s: string, cls: CharClass)
    ensures forall c :: multiset(Filter(s, cls))[c] == if InClass(cls, c) then multiset(s)[c] else 0
  {
    forall c
      ensures multiset(Filter(s, cls))[c] == if InClass(cls, c) then multiset(s)[c] else 0
    {
      FilterCount(s, cls, c);
    }
  }

  /** The minus pass: with negatives allowed, a '-' found anywhere but at the front deletes
      every '-' and keeps every other character; otherwise the text is unchanged. */
  function TidyMinus(s: string, allowNegative: bool): (r: string)
    ensures allowNegative ==> multiset(r)['-'] == 0 || r[0] == '-'
    ensures allowNegative && IndexOf(s, '-') > 0 ==>
              multiset(r)['-'] == 0 && forall c :: c != '-' ==> multiset(r)[c] == multiset(s)[c]
    ensures !(allowNegative && IndexOf(s, '-') > 0) ==> r == s
    ensures multiset(r)['.'] == multiset(s)['.']
    ensures multiset(r) <= multiset(s)
  {
    if allowNegative && IndexOf(s, '-') > 0 then
      FilterCounts(s, AllBut('-'));
      Filter(s, AllBut('-'))
    else s
  }

  /** The dot pass: with decimals allowed the dots after the first are deleted, without them
      every dot is. */
  function DotPass(s: string, allowDecimal: bool): (r: string)
    ensures multiset(r) <= multiset(s)
    ensures multiset(r)['.'] <= if allowDecimal then 1 else 0
  {
    if allowDecimal then CollapseDots(s) else Filter(s, AllBut('.'))
  }

  /** `sanitizeNumericInput(value, { allowDecimal, allowNegative })`. */
  function SanitizeNumericInput(value: Input, allowDecimal: bool, allowNegative: bool): string
  {
    if IsEmpty(value) then ""
    else TidyMinus(DotPass(Filter(value.text, Numeric(allowNegative)), allowDecimal), allowNegative)
  }

  /** The default options: decimals allowed, negatives not. */
  const DefaultAllowDecimal := true
  const DefaultAllowNegative := false

  /** A string is a subsequence of another when deleting characters of the second can give it. */
  predicate IsSubsequence(a: string, b: string)
  {
    if b == [] then a == []
    else (a != [] && a[0] == b[0] && IsSubsequence(a[1..], b[1..])) || IsSubsequence(a, b[1..])
  }

  lemma {:induction false} SubsequenceReflexive(a: string)
    ensures IsSubsequence(a, a)
  {
    if a != [] {
      SubsequenceReflexive(a[1..]);
    }
  }

  lemma {:induction false} SubsequenceTransitive(a: string, b: string, c: string)
    requires IsSubsequence(a, b) && IsSubsequence(b, c)
    ensures IsSubsequence(a, c)
    decreases |c|
  {
    if c != [] {
      if IsSubsequence(b, c[1..]) {
        SubsequenceTransitive(a, b, c[1..]);
      } else if IsSubsequence(a, b[1..]) {
        SubsequenceTransitive(a, b[1..], c[1..]);
      } else {
        SubsequenceTransitive(a[1..], b[1..], c[1..]);
      }
    }
  }

  lemma {:induction false} SubsequenceConcat(a1: string, b1: string, a2: string, b2: string)
    requires IsSubsequence(a1, b1) && IsSubsequence(a2, b2)
    ensures IsSubsequence(a1 + a2, b1 + b2)
    decreases |b1|
  {
    if b1 == [] {
      assert a1 + a2 == a2 && b1 + b2 == b2;
    } else {
      assert (b1 + b2)[1..] == b1[1..] + b2;
      if IsSubsequence(a1, b1[1..]) {
        SubsequenceConcat(a1, b1[1..], a2, b2);
      } else {
        SubsequenceConcat(a1[1..], b1[1..], a2, b2);
        assert (a1 + a2)[1..] == a1[1..] + a2;
      }
    }
  }

  lemma {:induction false} FilterSubsequence(s: string, cls: CharClass)
    ensures IsSubsequence(Filter(s, cls), s)
  {
    if s != [] {
      FilterSubsequence(s[1..], cls);
    }
  }

  lemma CollapseSubsequence(s: string)
    ensures IsSubsequence(CollapseDots(s), s)
  {
    var i := IndexOf(s, '.');
    if i < 0 {
      SubsequenceReflexive(s);
    } else {
      DotsAround(s, i);
      SubsequenceReflexive(s[..i + 1]);
      FilterSubsequence(s[i + 1..], AllBut('.'));
      SubsequenceConcat(s[..i + 1], s[..i + 1], Filter(s[i + 1..], AllBut('.')), s[i + 1..]);
      assert s[..i + 1] + s[i + 1..] == s;
    }
  }

  /** What a sanitised value is made of: only digits, '.' and (when allowed) '-'; at most one
      '.' with decimals allowed and none without; with negatives allowed, a '-' only when the
      text starts with one; none without. Empty input gives "". */
  lemma SanitizeShape(value: Input, allowDecimal: bool, allowNegative: bool)
    ensures var r := SanitizeNumericInput(value, allowDecimal, allowNegative);
            && (IsEmpty(value) ==> r == "")
            && (forall i :: 0 <= i < |r| ==> InClass(Numeric(allowNegative), r[i]))
            && multiset(r)['.'] <= (if allowDecimal then 1 else 0)
            && (allowNegative ==> multiset(r)['-'] == 0 || r[0] == '-')
            && (!allowNegative ==> multiset(r)['-'] == 0)
  {
    if !IsEmpty(value) {
      var kept := Filter(value.text, Numeric(allowNegative));
      var dotted := DotPass(kept, allowDecimal);
      var r := TidyMinus(dotted, allowNegative);
      assert multiset(r) <= multiset(kept);
      forall i | 0 <= i < |r|
        ensures InClass(Numeric(allowNegative), r[i])
      {
        assert r[i] in multiset(r);
      }
    }
  }

  /** The sanitised text is the input with characters deleted, the rest kept in order. */
  lemma SanitizeSubsequence(text: string, allowDecimal: bool, allowNegative: bool)
    ensures IsSubsequence(SanitizeNumericInput(Given(text), allowDecimal, allowNegative), text)
  {
    if text != "" {
      var kept := Filter(text, Numeric(allowNegative));
      var dotted := DotPass(kept, allowDecimal);
      var r := TidyMinus(dotted, allowNegative);
      FilterSubsequence(text, Numeric(allowNegative));
      if allowDecimal {
        CollapseSubsequence(kept);
      } else {
        FilterSubsequence(kept, AllBut('.'));
      }
      SubsequenceTransitive(dotted, kept, text);
      if allowNegative && IndexOf(dotted, '-') > 0 {
        FilterSubsequence(dotted, AllBut('-'));
        SubsequenceTransitive(r, dotted, text);
      }
    } else {
      SubsequenceReflexive(text);
    }
  }

  /** Text with no more dots than the options allow passes the dot pass unchanged. */
  lemma DotPassKeeps(s: string, allowDecimal: bool)
    requires multiset(s)['.'] <= if allowDecimal then 1 else 0
    ensures DotPass(s, allowDecimal) == s
  {
    if allowDecimal {
      DotsAround(s, IndexOf(s, '.'));
    } else {
      assert forall i :: 0 <= i < |s| ==> s[i] in multiset(s);
      FilterKeepsAll(s, AllBut('.'));
    }
  }

  /** Text whose only '-' can be at the front passes the minus pass unchanged. */
  lemma TidyMinusKeeps(s: string, allowNegative: bool)
    requires allowNegative ==> multiset(s)['-'] == 0 || s[0] == '-'
    ensures TidyMinus(s, allowNegative) == s
  {
    if allowNegative && multiset(s)['-'] == 0 {
      assert '-' !in s;
    }
  }

  /** Sanitising a sanitised value with the same options changes nothing. */
  lemma SanitizeIdempotent(value: Input, allowDecimal: bool, allowNegative: bool)
    ensures var r := SanitizeNumericInput(value, allowDecimal, allowNegative);
            SanitizeNumericInput(Given(r), allowDecimal, allowNegative) == r
  {
    var r := SanitizeNumericInput(value, allowDecimal, allowNegative);
    SanitizeShape(value, allowDecimal, allowNegative);
    if r != "" {
      FilterKeepsAll(r, Numeric(allowNegative));
      DotPassKeeps(r, allowDecimal);
      TidyMinusKeeps(r, allowNegative);
      assert SanitizeNumericInput(Given(r), allowDecimal, allowNegative)
          == TidyMinus(DotPass(Filter(r, Numeric(allowNegative)), allowDecimal), allowNegative);
    }
  }

  /** A sanitised value without negatives allowed never parses below zero. */
  lemma SanitizedNotNegative(value: Input, allowDecimal: bool)
    ensures var p := ParseFloat(SanitizeNumericInput(value, allowDecimal, false));
            p.Num? ==> p.value >= 0.0
  {
    var r := SanitizeNumericInput(value, allowDecimal, false);
    SanitizeShape(value, allowDecimal, false);
    assert r != [] ==> InClass(Numeric(false), r[0]);
    UnsignedOfPlain(r);
    ParseUnsignedNonNegative(r);
  }

  /** One side of a field's range: `min` or `max` left undefined, or a number. */
  datatype Bound = Unbounded | Limit(value: real)

  /** The message kinds, in the order they are checked. */
  datatype Problem = Required | NotANumber | BelowMin(min: real) | AboveMax(max: real)

  /** `null`, or the message `${fieldName} ...` for the first rule the value breaks. */
  datatype Verdict = Valid | Invalid(fieldName: string, problem: Problem)

  const DefaultRequired := true
  const DefaultFieldName := "Value"

  predicate AboveFloor(x: real, min: Bound)
  {
    min.Unbounded? || x >= min.value
  }

  predicate BelowCeiling(x: real, max: Bound)
  {
    max.Unbounded? || x <= max.value
  }

  /** `validateNumericValue(value, { min, max, required, fieldName })`: an empty value is
      refused only when the field is required; otherwise the checks run in order: the value
      must parse, then be at least min, then at most max. */
  function ValidateNumericValue(value: Input, min: Bound, max: Bound, required: bool, fieldName: string): (r: Verdict)
    ensures IsEmpty(value) ==> (r == if required then Invalid(fieldName, Required) else Valid)
    ensures r.Invalid? ==> r.fieldName == fieldName
    ensures !IsEmpty(value) ==>
              (r.Valid? <==> (ParseFloat(value.text).Num? && AboveFloor(ParseFloat(value.text).value, min)
                                && BelowCeiling(ParseFloat(value.text).value, max)))
  {
    if IsEmpty(value) then
      if required then Invalid(fieldName, Required) else Valid
    else
      match ParseFloat(value.text)
      case NaN => Invalid(fieldName, NotANumber)
      case Num(x) =>
        if min.Limit? && x < min.value then Invalid(fieldName, BelowMin(min.value))
        else if max.Limit? && x > max.value then Invalid(fieldName, AboveMax(max.value))
        else Valid
  }

  /** Which message a non-empty value gets: not-a-number exactly when it does not parse, the
      minimum's exactly when it parses below min, the maximum's exactly when it parses within
      min but above max. */
  lemma ValidationOrder(value: Input, min: Bound, max: Bound, required: bool, fieldName: string)
    requires !IsEmpty(value)
    ensures var r := ValidateNumericValue(value, min, max, required, fieldName);
            var p := ParseFloat(value.text);
            && (r == Invalid(fieldName, NotANumber) <==> p.NaN?)
            && (forall m :: r == Invalid(fieldName, BelowMin(m)) <==> p.Num? && min == Limit(m) && p.value < m)
            && (forall m :: r == Invalid(fieldName, AboveMax(m)) <==>
                  p.Num? && AboveFloor(p.value, min) && max == Limit(m) && p.value > m)
            && r != Invalid(fieldName, Required)
  {
  }

  /** Text after the number is ignored: "12abc" passes a field whose range holds 12. */
  lemma ValidationReadsPrefix(digits: string, junk: string, min: Bound, max: Bound, required: bool, fieldName: string)
    requires digits != [] && AllDigits(digits)
    requires junk == [] || !(IsDigit(junk[0]) || junk[0] == '.')
    requires AboveFloor(DigitsValue(digits) as real, min) && BelowCeiling(DigitsValue(digits) as real, max)
    ensures ValidateNumericValue(Given(digits + junk), min, max, required, fieldName) == Valid
  {
    DigitsThenJunk(digits, junk);
  }
}
