/** The scalar value grammar: `NULL`, quoted strings, booleans, 64-bit integers, doubles. */
module ScalarParser {
  import opened Optional
  import opened Text
  import opened Numbers
  import opened Model

  /** Text that is none of the keyword or quoted forms, so it is read as a number. */
  predicate IsNumeric(t: string) {
    !AllWhiteSpace(t) && t != "NULL" && t[0] != '"' && t != "true" && t != "false"
  }

  /** Reads one scalar value from text whose trailing `;` has already been removed.
      Yields a value with no diagnostic, or no value with exactly one error. */
  function ParseValue(t: string, dp: DoubleParser): (r: Parsed<Option<Value>>)
    // the lone quote makes `Substring(1, -1)` throw
    ensures r.Crash? <==> t == "\""
    ensures r.Crash? ==> r.fault == ArgumentOutOfRange
    ensures r.Done? ==> |r.diags| <= 1 && (r.value.None? <==> |r.diags| == 1)
    ensures r.Done? ==> Warnings(r.diags) == []
    // empty or blank text
    ensures AllWhiteSpace(t) ==> r == Done(None, [MissingPropertyValue])
    // exactly NULL
    ensures r.Done? && r.value == Some(Null) <==> t == "NULL"
    // quoted text: the inner substring verbatim, no escape processing
    ensures |t| >= 2 && t[0] == '"' && Last(t) == '"' ==> r == Done(Some(Str(t[1..|t| - 1])), [])
    ensures |t| > 0 && t[0] == '"' && Last(t) != '"' ==> r == Done(None, [MissingQuote])
    // exactly true or false
    ensures r.Done? && r.value.Some? && r.value.value.Bool? <==> t == "true" || t == "false"
    ensures r.Done? && r.value.Some? && r.value.value.Bool? ==> r.value.value.flag == (t == "true")
    // everything else is a number
    ensures IsNumeric(t) ==> r == ParseNumber(t, dp)
  {
    if Trim(t) == "" then
      assert |t| == 0 || IsWhiteSpace(t[0]);
      Done(None, [MissingPropertyValue])
    else if t == "NULL" then Done(Some(Null), [])
    else if t[0] == '"' then
      if Last(t) != '"' then Done(None, [MissingQuote])
      else if |t| < 2 then
        assert t == [t[0]];
        Crash(ArgumentOutOfRange)
      else Done(Some(Str(t[1..|t| - 1])), [])
    else if t == "true" || t == "false" then Done(Some(Bool(t == "true")), [])
    else
      assert t != "\"" by { assert t[0] != "\""[0]; }
      ParseNumber(t, dp)
  }

  /** The numeric tail of the scalar grammar: an int64 if `long.TryParse` accepts the text;
      otherwise a double when the text holds a `.` (or an error when the double parse fails);
      otherwise, silently, the integer 0 that the failed `TryParse` left behind. */
  function ParseNumber(t: string, dp: DoubleParser): (r: Parsed<Option<Value>>)
    ensures r.Done?
    ensures ParseInt64(t).Some? ==> r == Done(Some(Long(ParseInt64(t).value)), [])
    ensures ParseInt64(t).None? && '.' in t && dp(t).Some? ==> r == Done(Some(Double(dp(t).value)), [])
    ensures ParseInt64(t).None? && '.' in t && dp(t).None? ==> r == Done(None, [InvalidPropertyValue(t)])
    ensures ParseInt64(t).None? && '.' !in t ==> r == Done(Some(Long(0)), [])
    ensures r.value.Some? ==> r.value.value.Long? || r.value.value.Double?
  {
    match ParseInt64(t)
    case Some(n) => Done(Some(Long(n)), [])
    case None =>
      if '.' in t then
        match dp(t)
        case Some(d) => Done(Some(Double(d)), [])
        case None => Done(None, [InvalidPropertyValue(t)])
      else Done(Some(Long(0)), [])
  }

  /** A string value is read back only from its quoted form. */
  lemma StringValueIsQuoted(t: string, dp: DoubleParser)
    requires ParseValue(t, dp).Done? && ParseValue(t, dp).value.Some? && ParseValue(t, dp).value.value.Str?
    ensures t == "\"" + ParseValue(t, dp).value.value.text + "\""
  {
    assert t[0] == '"' && Last(t) == '"' && |t| >= 2;
    assert t == [t[0]] + t[1..|t| - 1] + [Last(t)];
  }
}
