/** The string utilities the full-text search rules lean on: Java's
    `String.trim`, `Character.isWhitespace`, and commons-lang's
    `StringUtils.defaultString`, `isBlank`/`isNotBlank` and `join`.
    A Java `String` that may be null is an `Option<string>`. */
module JavaText {
  import opened Wrappers

  /** `String.trim` removes every leading and trailing character whose
      code is at most U+0020 (space and all control characters below it). */
  predicate IsTrimmable(c: char) {
    c as int <= 0x20
  }

  /** `Character.isWhitespace`: the Unicode space, line and paragraph
      separators except the three no-break spaces (U+00A0, U+2007, U+202F),
      plus the control characters U+0009..U+000D and U+001C..U+001F. */
  predicate IsJavaWhitespace(c: char) {
    var n := c as int;
    || (0x09 <= n <= 0x0D)
    || (0x1C <= n <= 0x20)
    || n == 0x1680
    || (0x2000 <= n <= 0x200A && n != 0x2007)
    || n == 0x2028 || n == 0x2029
    || n == 0x205F || n == 0x3000
  }

  /** Number of leading characters `trim` removes. */
  function TrimmedStart(s: string): (i: nat)
    ensures i <= |s|
    ensures forall k :: 0 <= k < i ==> IsTrimmable(s[k])
    ensures i < |s| ==> !IsTrimmable(s[i])
    decreases |s|
  {
    if |s| > 0 && IsTrimmable(s[0]) then 1 + TrimmedStart(s[1..]) else 0
  }

  /** Length of `s` once `trim` has removed its trailing characters. */
  function TrimmedEnd(s: string): (j: nat)
    ensures j <= |s|
    ensures forall k :: j <= k < |s| ==> IsTrimmable(s[k])
    ensures j > 0 ==> !IsTrimmable(s[j - 1])
    decreases |s|
  {
    if |s| > 0 && IsTrimmable(s[|s| - 1]) then TrimmedEnd(s[..|s| - 1]) else |s|
  }

  /** `r` sits at offset `i` of `s` with only trimmable characters
      before and after it. */
  predicate SlicePaddedBy(s: string, i: int, r: string) {
    && 0 <= i <= |s| - |r|
    && s[i..i + |r|] == r
    && (forall k :: 0 <= k < i ==> IsTrimmable(s[k]))
    && (forall k :: i + |r| <= k < |s| ==> IsTrimmable(s[k]))
  }

  /** `String.trim`: the one slice of `s` that neither starts nor ends with
      a trimmable character and is surrounded only by trimmable ones. */
  function Trim(s: string): (r: string)
    ensures |r| > 0 ==> !IsTrimmable(r[0]) && !IsTrimmable(r[|r| - 1])
    ensures exists i :: SlicePaddedBy(s, i, r)
  {
    var i := TrimmedStart(s);
    var t := s[i..];
    var j := TrimmedEnd(t);
    assert s[i..i + j] == t[..j];
    assert SlicePaddedBy(s, i, t[..j]);
    t[..j]
  }

  /** Trimming twice is trimming once. */
  lemma TrimIdempotent(s: string)
    ensures Trim(Trim(s)) == Trim(s)
  {
    var r := Trim(s);
    assert TrimmedStart(r) == 0;
    assert TrimmedEnd(r) == |r|;
  }

  /** Surrounding spaces and tabs go; nothing is left of blank input. */
  lemma TrimExamples()
    ensures Trim(" Glucose ") == "Glucose"
    ensures Trim("\t") == "" && Trim("") == ""
  {
    assert TrimmedStart(" Glucose ") == 1 by {
      assert " Glucose "[1..][0] == 'G';
    }
    assert " Glucose "[1..] == "Glucose ";
    assert TrimmedEnd("Glucose ") == 7 by {
      assert "Glucose "[..7] == "Glucose";
    }
    assert "Glucose "[..7] == "Glucose";
    assert TrimmedStart("\t") == 1;
  }

  /** `StringUtils.defaultString`: null becomes the empty string. */
  function DefaultString(s: Option<string>): (r: string)
    ensures s.Some? ==> r == s.value
    ensures s.None? ==> r == ""
  {
    match s
    case None => ""
    case Some(v) => v
  }

  /** `StringUtils.isBlank`: null, empty, or whitespace only. */
  function IsBlank(s: Option<string>): (b: bool)
    ensures s.None? ==> b
    ensures s == Some("") ==> b
  {
    s.None? || forall k :: 0 <= k < |s.value| ==> IsJavaWhitespace(s.value[k])
  }

  /** `StringUtils.isNotBlank`: non-null, non-empty, and with at least one
      character that is not whitespace. */
  function IsNotBlank(s: Option<string>): (b: bool)
    ensures b <==> s.Some? && exists k :: 0 <= k < |s.value| && !IsJavaWhitespace(s.value[k])
    ensures b ==> |s.value| > 0
  {
    !IsBlank(s)
  }

  /** Trimming never turns a blank string into a non-blank one. The
      converse fails both ways, because `trim` and `isWhitespace` disagree:
      U+0001 is not whitespace but `trim` removes it, and the em space
      U+2003 is whitespace but `trim` keeps it. */
  lemma TrimAndBlank(x: string)
    ensures IsNotBlank(Some(Trim(x))) ==> IsNotBlank(Some(x))
    ensures IsNotBlank(Some("\U{1}")) && Trim("\U{1}") == ""
    ensures !IsNotBlank(Some("\U{2003}")) && Trim("\U{2003}") == "\U{2003}"
  {
    var i :| SlicePaddedBy(x, i, Trim(x));
    if IsNotBlank(Some(Trim(x))) {
      var k :| 0 <= k < |Trim(x)| && !IsJavaWhitespace(Trim(x)[k]);
      assert x[i + k] == Trim(x)[k];
    }
    assert TrimmedStart("\U{1}") == 1;
    assert TrimmedStart("\U{2003}") == 0;
    assert TrimmedEnd("\U{2003}") == 1;
  }

  /** The total length of the strings of `ts`. */
  function TotalLength(ts: seq<string>): nat
    decreases |ts|
  {
    if |ts| == 0 then 0 else |ts[0]| + TotalLength(ts[1..])
  }

  /** `StringUtils.join(elements, separator)` on a non-null list of
      non-null strings: the elements in order with one separator between
      neighbours. */
  function Join(ts: seq<string>, sep: char): (r: string)
    ensures |r| == TotalLength(ts) + (if |ts| > 0 then |ts| - 1 else 0)
    ensures |ts| > 0 ==> r[..|ts[0]|] == ts[0]
    decreases |ts|
  {
    if |ts| == 0 then ""
    else if |ts| == 1 then ts[0]
    else ts[0] + [sep] + Join(ts[1..], sep)
  }

  /** Splits `s` at every occurrence of `sep`, keeping empty pieces; used
      only to state what `Join` preserves. */
  function Split(s: string, sep: char): (r: seq<string>)
    ensures |r| > 0
    decreases |s|
  {
    if |s| == 0 then [""]
    else
      var rest := Split(s[1..], sep);
      if s[0] == sep then [""] + rest
      else [[s[0]] + rest[0]] + rest[1..]
  }

  predicate Free(t: string, sep: char) {
    forall k :: 0 <= k < |t| ==> t[k] != sep
  }

  lemma {:induction false} SplitFree(t: string, sep: char)
    requires Free(t, sep)
    ensures Split(t, sep) == [t]
    decreases |t|
  {
    if |t| > 0 {
      SplitFree(t[1..], sep);
      assert [t[0]] + t[1..] == t;
    }
  }

  lemma {:induction false} SplitAtSeparator(t: string, sep: char, x: string)
    requires Free(t, sep)
    ensures Split(t + [sep] + x, sep) == [t] + Split(x, sep)
    decreases |t|
  {
    var s := t + [sep] + x;
    if |t| == 0 {
      assert s[1..] == x;
    } else {
      assert s[1..] == t[1..] + [sep] + x;
      SplitAtSeparator(t[1..], sep, x);
      assert [t[0]] + t[1..] == t;
    }
  }

  /** `Join` loses nothing when no element contains the separator:
      splitting the joined text gives the elements back. */
  lemma {:induction false} SplitJoin(ts: seq<string>, sep: char)
    requires |ts| > 0
    requires forall i :: 0 <= i < |ts| ==> Free(ts[i], sep)
    ensures Split(Join(ts, sep), sep) == ts
    decreases |ts|
  {
    if |ts| == 1 {
      SplitFree(ts[0], sep);
    } else {
      SplitJoin(ts[1..], sep);
      SplitAtSeparator(ts[0], sep, Join(ts[1..], sep));
    }
  }
}
