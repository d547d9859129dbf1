/** `IntegerDt`, the FHIR `integer` primitive: a single nullable `int`
    (`myValue`) with a decimal string form. The object's one mutable field
    is threaded through the operations: each returns the state after it. */
module IntegerDatatype {
  import opened Wrappers
  import opened JavaInteger

  datatype IntegerDt = IntegerDt(myValue: Option<Int32>)

  /** A fresh instance holds null. */
  const EMPTY: IntegerDt := IntegerDt(None)

  /** The state after a call that may throw, and what it threw. */
  datatype Outcome = Outcome(state: IntegerDt, thrown: Option<NumberFormatException>)

  /** `getValue`: null exactly when the string form is null, and
      otherwise the number that string form denotes. */
  function GetValue(dt: IntegerDt): (r: Option<Int32>)
    ensures r.None? <==> GetValueAsString(dt).None?
    ensures r.Some? ==> ParseInt(GetValueAsString(dt).value) == Success(r.value)
  {
    dt.myValue
  }

  /** `setValue`: what `getValue` then returns is exactly what was set,
      null included. */
  function SetValue(dt: IntegerDt, v: Option<Int32>): (r: IntegerDt)
    ensures GetValue(r) == v
  {
    IntegerDt(v)
  }

  /** `setValueAsString`: null clears the value; otherwise the string is
      read with `Integer.parseInt`, and only a successful read is stored.
      On a malformed or out-of-range string the exception propagates and
      the stored value is the one from before the call. */
  function SetValueAsString(dt: IntegerDt, s: Option<string>): (r: Outcome)
    ensures s.None? ==> r == Outcome(EMPTY, None)
    ensures r.thrown.Some? <==> s.Some? && ParseInt(s.value).Failure?
    ensures r.thrown.Some? ==> r.state == dt && r.thrown.value.input == s.value
    ensures s.Some? && r.thrown.None? ==>
              r.state.myValue == Some(ParseInt(s.value).value)
  {
    match s
    case None => Outcome(EMPTY, None)
    case Some(text) =>
      match ParseInt(text)
      case Success(v) => Outcome(IntegerDt(Some(v)), None)
      case Failure(e) => Outcome(dt, Some(e))
  }

  /** `getValueAsString`: null exactly when the value is null, otherwise
      the canonical decimal form of the value. */
  function GetValueAsString(dt: IntegerDt): (r: Option<string>)
    ensures r.None? <==> dt.myValue.None?
    ensures r.Some? ==> IsCanonicalDecimal(r.value)
    ensures r.Some? ==> ParseInt(r.value) == Success(dt.myValue.value)
  {
    match dt.myValue
    case None => None
    case Some(v) =>
      ToStringCanonical(v);
      ParseToString(v);
      Some(ToString(v))
  }

  /** `setValue(v)` then `getValue()` gives `v` back, whatever was stored. */
  lemma SetThenGet(dt: IntegerDt, v: Option<Int32>)
    ensures GetValue(SetValue(dt, v)) == v
    ensures SetValue(SetValue(dt, v), v) == SetValue(dt, v)
  {
  }

  /** Feeding `getValueAsString` back into `setValueAsString` restores the
      value on any instance, for every `int` (the range ends included) and
      for null, without throwing. */
  lemma StringRoundTrip(dt: IntegerDt, target: IntegerDt)
    ensures SetValueAsString(target, GetValueAsString(dt)) == Outcome(dt, None)
  {
    if dt.myValue.Some? {
      ParseToString(dt.myValue.value);
    }
  }

  /** A string that does not read as an `int` throws and leaves the stored
      value untouched. */
  lemma MalformedKeepsValue(dt: IntegerDt, s: string)
    requires ParseInt(s).Failure?
    ensures SetValueAsString(dt, Some(s)).state == dt
    ensures SetValueAsString(dt, Some(s)).thrown == Some(NumberFormatException(s))
  {
  }

  /** Setting from a string and reading the string form back normalises it
      (`"+5"` and `"007"` become `"5"` and `"7"`); doing it again with the
      normalised string changes nothing. */
  lemma PrintAfterParseFixed(dt: IntegerDt, s: string)
    requires SetValueAsString(dt, Some(s)).thrown.None?
    ensures var once := GetValueAsString(SetValueAsString(dt, Some(s)).state);
            && once.Some?
            && IsCanonicalDecimal(once.value)
            && GetValueAsString(SetValueAsString(EMPTY, once).state) == once
  {
    StringRoundTrip(SetValueAsString(dt, Some(s)).state, EMPTY);
  }

  /** The two normalisations named above, on concrete strings. */
  lemma NormalisationExamples(dt: IntegerDt)
    ensures GetValueAsString(SetValueAsString(dt, Some("+5")).state) == Some("5")
    ensures GetValueAsString(SetValueAsString(dt, Some("007")).state) == Some("7")
    ensures SetValueAsString(dt, Some("2147483648")).state == dt
  {
    ParseNormalisesExamples();
    ParseOverflowExample();
  }
}
