/** One input line read as `iss >> date >> value` does (main.cpp:25-30): skip blanks, take the
    date as the next run of non-blank characters, skip blanks, then read the longest decimal
    number at that point. */
module LineParser {
  import opened Wrappers
  import opened Observations

  /** The characters std::isspace accepts in the "C" locale: space, \t, \n, \v, \f, \r. */
  predicate IsSpace(c: char) {
    c == ' ' || '\t' <= c <= '\r'
  }

  predicate NotSpace(c: char) {
    !IsSpace(c)
  }

  predicate IsDigit(c: char) {
    '0' <= c <= '9'
  }

  /** Length of the longest prefix of s whose characters all satisfy p. */
  function Span(s: string, p: char -> bool): (n: nat)
    ensures n <= |s|
    ensures forall i :: 0 <= i < n ==> p(s[i])
    ensures n < |s| ==> !p(s[n])
    decreases |s|
  {
    if s == [] || !p(s[0]) then 0 else 1 + Span(s[1..], p)
  }

  function DigitValue(c: char): nat {
    if IsDigit(c) then (c as int - '0' as int) as nat else 0
  }

  /** The number written by a run of decimal digits. */
  function DigitsValue(ds: string): nat
    decreases |ds|
  {
    if ds == [] then 0 else 10 * DigitsValue(ds[..|ds| - 1]) + DigitValue(ds[|ds| - 1])
  }

  /** The value of the digits after a decimal point: "25" stands for 0.25. */
  function FractionValue(ds: string): (f: real)
    ensures 0.0 <= f < 1.0
    decreases |ds|
  {
    if ds == [] then 0.0 else (DigitValue(ds[0]) as real + FractionValue(ds[1..])) / 10.0
  }

  /** The longest prefix of u of the form digits [. digits] with at least one digit, as a value. */
  function ReadUnsigned(u: string): (r: Option<real>)
    ensures r.Some? <==> |u| > 0 && (IsDigit(u[0]) || (u[0] == '.' && |u| > 1 && IsDigit(u[1])))
    ensures r.Some? ==> r.value >= 0.0
  {
    var whole := Span(u, IsDigit);
    var afterDot := if whole < |u| && u[whole] == '.' then u[whole + 1..] else [];
    var fracLen := Span(afterDot, IsDigit);
    if whole + fracLen == 0 then None
    else
      Some(DigitsValue(u[..whole]) as real + FractionValue(afterDot[..fracLen]))
  }

  /** `>> value` on a float: an optional sign, then the longest unsigned decimal, so "12abc" reads
      as 12; None when nothing can be read. */
  function ReadNumber(t: string): Option<real> {
    if |t| > 0 && t[0] == '-' then
      match ReadUnsigned(t[1..])
      case None => None
      case Some(v) => Some(-v)
    else if |t| > 0 && t[0] == '+' then ReadUnsigned(t[1..])
    else ReadUnsigned(t)
  }

  /** The sign rule of `>> value`: a leading minus negates what follows, a leading plus is
      dropped, and a text starting with neither is read unsigned; no sign, no number. */
  lemma SignedNumber(u: string)
    ensures ReadNumber("-" + u) == (if ReadUnsigned(u).Some? then Some(-ReadUnsigned(u).value) else None)
    ensures ReadNumber("+" + u) == ReadUnsigned(u)
    ensures u == [] || (u[0] != '-' && u[0] != '+') ==> ReadNumber(u) == ReadUnsigned(u)
  {
    assert ("-" + u)[1..] == u;
    assert ("+" + u)[1..] == u;
  }

  predicate AllDigits(s: string) {
    forall i :: 0 <= i < |s| ==> IsDigit(s[i])
  }

  /** A run of p-characters followed by the end or by a character that is not p spans the run. */
  lemma SpanOfRun(run: string, rest: string, p: char -> bool)
    requires forall i :: 0 <= i < |run| ==> p(run[i])
    requires rest == [] || !p(rest[0])
    ensures Span(run + rest, p) == |run|
  {
    var s := run + rest;
    assert forall i :: 0 <= i < |run| ==> s[i] == run[i];
    assert |run| < |s| ==> s[|run|] == rest[0];
  }

  /** What an unsigned decimal reads as: whole digits, a point, fraction digits, and whatever
      follows ignored as long as it does not continue the number. */
  lemma ReadsDecimal(whole: string, fraction: string, rest: string)
    requires AllDigits(whole) && AllDigits(fraction) && |whole| + |fraction| > 0
    requires rest == [] || !IsDigit(rest[0])
    ensures ReadUnsigned(whole + "." + fraction + rest) ==
      Some(DigitsValue(whole) as real + FractionValue(fraction))
  {
    DecimalParts(whole, fraction, rest);
    ReadsPointed(whole + "." + fraction + rest, whole, fraction);
  }

  /** Where the digit runs of `whole + "." + fraction + rest` start and end. */
  lemma DecimalParts(whole: string, fraction: string, rest: string)
    requires AllDigits(whole) && AllDigits(fraction)
    requires rest == [] || !IsDigit(rest[0])
    ensures var u := whole + "." + fraction + rest;
      && Span(u, IsDigit) == |whole| && u[..|whole|] == whole && u[|whole|] == '.'
      && Span(u[|whole| + 1..], IsDigit) == |fraction| && u[|whole| + 1..][..|fraction|] == fraction
  {
    var u := whole + "." + fraction + rest;
    var n := |whole|;
    assert u == whole + ("." + fraction + rest);
    SpanOfRun(whole, "." + fraction + rest, IsDigit);
    assert u[n + 1..] == fraction + rest;
    SpanOfRun(fraction, rest, IsDigit);
  }

  /** ReadUnsigned on a text made of a digit run, a point and a second digit run. */
  lemma ReadsPointed(u: string, whole: string, fraction: string)
    requires |whole| < |u| && Span(u, IsDigit) == |whole| && u[..|whole|] == whole && u[|whole|] == '.'
    requires Span(u[|whole| + 1..], IsDigit) == |fraction| && u[|whole| + 1..][..|fraction|] == fraction
    requires |whole| + |fraction| > 0
    ensures ReadUnsigned(u) == Some(DigitsValue(whole) as real + FractionValue(fraction))
  {
    ReadsPointedAt(u, |whole|, |fraction|);
  }

  /** ReadUnsigned on a text whose digit run is followed by a point. */
  lemma ReadsPointedAt(u: string, n: nat, f: nat)
    requires n < |u| && Span(u, IsDigit) == n && u[n] == '.'
    requires Span(u[n + 1..], IsDigit) == f && n + f > 0
    ensures ReadUnsigned(u) == Some(DigitsValue(u[..n]) as real + FractionValue(u[n + 1..][..f]))
  {
    var afterDot := u[n + 1..];
    assert afterDot == if Span(u, IsDigit) < |u| && u[Span(u, IsDigit)] == '.' then u[Span(u, IsDigit) + 1..] else [];
    assert Span(afterDot, IsDigit) == f;
  }

  /** A whole number followed by anything but a digit or a point, "12abc" say, reads as that
      whole number. */
  lemma ReadsWhole(whole: string, rest: string)
    requires AllDigits(whole) && |whole| > 0
    requires rest == [] || (!IsDigit(rest[0]) && rest[0] != '.')
    ensures ReadUnsigned(whole + rest) == Some(DigitsValue(whole) as real)
  {
    var u := whole + rest;
    SpanOfRun(whole, rest, IsDigit);
    assert u[..|whole|] == whole;
    assert |whole| < |u| ==> u[|whole|] == rest[0];
    assert Span([], IsDigit) == 0;
  }

  /** The observation on one line, or None when the line has no date token or no number after
      it; characters after the number are ignored. */
  function ParseLine(line: string): (r: Option<Observation>)
    ensures r.Some? ==> r.value.date != [] && forall i :: 0 <= i < |r.value.date| ==> !IsSpace(r.value.date[i])
  {
    var s := line[Span(line, IsSpace)..];
    var dateLen := Span(s, NotSpace);
    if dateLen == 0 then None
    else
      var rest := s[dateLen..];
      match ReadNumber(rest[Span(rest, IsSpace)..])
      case None => None
      case Some(v) => Some(Observation(s[..dateLen], v))
  }

  /** A line made of a date token, blanks and a number token that starts right after the
      blanks reads as that date with the number's value, or as nothing when the number token does
      not read. */
  lemma ParseLineOf(date: string, gap: string, number: string)
    requires date != [] && forall i :: 0 <= i < |date| ==> !IsSpace(date[i])
    requires gap != [] && forall i :: 0 <= i < |gap| ==> IsSpace(gap[i])
    requires number != [] && !IsSpace(number[0])
    ensures ReadNumber(number).None? ==> ParseLine(date + gap + number) == None
    ensures forall v :: ReadNumber(number) == Some(v) ==>
      ParseLine(date + gap + number) == Some(Observation(date, v))
  {
    var line := date + gap + number;
    SpanOfRun([], line, IsSpace);
    assert [] + line == line;
    assert line[0..] == line;
    assert line == date + (gap + number);
    SpanOfRun(date, gap + number, NotSpace);
    assert line[..|date|] == date;
    assert line[|date|..] == gap + number;
    SpanOfRun(gap, number, IsSpace);
    assert (gap + number)[|gap|..] == number;
  }

  /** A run of p-characters in front of s lengthens the span of p by the run's length. */
  lemma {:induction false} SpanAfterRun(run: string, s: string, p: char -> bool)
    requires forall i :: 0 <= i < |run| ==> p(run[i])
    ensures Span(run + s, p) == |run| + Span(s, p)
    decreases |run|
  {
    if run == [] {
      assert run + s == s;
    } else {
      assert (run + s)[0] == run[0];
      assert (run + s)[1..] == run[1..] + s;
      SpanAfterRun(run[1..], s, p);
    }
  }

  /** `iss >> date` skips leading blanks, so blanks in front of a line change nothing: with
      ParseLineOf, `lead + date + gap + number` reads as `date` with the number's value. */
  lemma LeadingBlanks(lead: string, line: string)
    requires forall i :: 0 <= i < |lead| ==> IsSpace(lead[i])
    ensures ParseLine(lead + line) == ParseLine(line)
  {
    SpanAfterRun(lead, line, IsSpace);
    assert (lead + line)[|lead| + Span(line, IsSpace)..] == line[Span(line, IsSpace)..];
  }

  /** "date value" with blanks between and a plain decimal value, as the input file is meant to
      hold, reads as that observation. */
  lemma ParsesDecimalLine(date: string, gap: string, whole: string, fraction: string)
    requires date != [] && forall i :: 0 <= i < |date| ==> !IsSpace(date[i])
    requires gap != [] && forall i :: 0 <= i < |gap| ==> IsSpace(gap[i])
    requires AllDigits(whole) && AllDigits(fraction) && |whole| + |fraction| > 0
    ensures ParseLine(date + gap + (whole + "." + fraction)) ==
      Some(Observation(date, DigitsValue(whole) as real + FractionValue(fraction)))
  {
    var number := whole + "." + fraction;
    assert !IsSpace(number[0]) by {
      assert number[0] == (if whole != [] then whole[0] else '.');
    }
    DecimalNumber(whole, fraction);
    ParseLineOf(date, gap, number);
  }

  /** A date token, blanks and a number token that reads as v make a line that reads as the
      date with value v. */
  lemma ReadsAs(date: string, gap: string, number: string, v: real)
    requires date != [] && forall i :: 0 <= i < |date| ==> !IsSpace(date[i])
    requires gap != [] && forall i :: 0 <= i < |gap| ==> IsSpace(gap[i])
    requires number != [] && !IsSpace(number[0])
    requires ReadNumber(number) == Some(v)
    ensures ParseLine(date + gap + number) == Some(Observation(date, v))
  {
    ParseLineOf(date, gap, number);
  }

  /** An unsigned decimal number token on its own reads as its value. */
  lemma DecimalNumber(whole: string, fraction: string)
    requires AllDigits(whole) && AllDigits(fraction) && |whole| + |fraction| > 0
    ensures ReadNumber(whole + "." + fraction) == Some(DigitsValue(whole) as real + FractionValue(fraction))
  {
    var number := whole + "." + fraction;
    assert number[0] == (if whole != [] then whole[0] else '.');
    ReadsDecimal(whole, fraction, []);
    assert whole + "." + fraction + [] == number;
  }

  /** A blank line has no date token, so it does not read. */
  lemma BlankLineFails(line: string)
    requires forall i :: 0 <= i < |line| ==> IsSpace(line[i])
    ensures ParseLine(line) == None
  {
    SpanOfRun(line, [], IsSpace);
    assert line + [] == line;
  }

  /** A date token with nothing but blanks after it has no value, so it does not read. */
  lemma MissingValueFails(date: string, gap: string)
    requires date != [] && forall i :: 0 <= i < |date| ==> !IsSpace(date[i])
    requires forall i :: 0 <= i < |gap| ==> IsSpace(gap[i])
    ensures ParseLine(date + gap) == None
  {
    var line := date + gap;
    SpanOfRun([], line, IsSpace);
    assert [] + line == line && line[0..] == line;
    SpanOfRun(date, gap, NotSpace);
    assert line[|date|..] == gap;
    SpanOfRun(gap, [], IsSpace);
    assert gap + [] == gap && gap[|gap|..] == [];
  }
}
