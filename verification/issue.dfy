/**
 * Round numbering (`issue`): a counter kept as text in a file, read, formatted
 * as "K" plus 16 zero-padded digits, and written back incremented. The file is
 * a value here: `None` when it does not exist, `Some(content)` otherwise.
 */
module Issue {
  import opened Wrappers
  import opened Text

  const Letter: string := "K"
  const Width: nat := 16

  /** `f"{n:016d}"` for a natural number: left-padded with zeros, never truncated. */
  function ZeroPad(n: nat): (r: string)
    ensures |r| >= Width && AllDigits(r) && DigitsValue(r) == n
  {
    var d := Decimal(n);
    if |d| >= Width then d
    else
      DigitsValueZeroPadded(Zeros(Width - |d|), d);
      Zeros(Width - |d|) + d
  }

  function Code(n: nat): string {
    Letter + ZeroPad(n)
  }

  /** Below 10^16 the code has exactly 17 characters and its digits read back as `n`. */
  lemma CodeRoundTrip(n: nat)
    requires n < Pow10(Width)
    ensures |Code(n)| == |Letter| + Width
    ensures Code(n)[..1] == Letter && AllDigits(Code(n)[1..])
    ensures DigitsValue(Code(n)[1..]) == n
  {
    DecimalLength(n, Width);
    assert Code(n)[1..] == ZeroPad(n);
  }

  /** So distinct counters below 10^16 never share a code. */
  lemma CodesDistinct(n: nat, m: nat)
    requires n < Pow10(Width) && m < Pow10(Width) && n != m
    ensures Code(n) != Code(m)
  {
    CodeRoundTrip(n);
    CodeRoundTrip(m);
  }

  /** From 10^16 on, the number is written in full and the code grows. */
  lemma LongCounterIsNotTruncated(n: nat)
    requires n >= Pow10(Width)
    ensures |Code(n)| > |Letter| + Width
  {
    DecimalLength(n, Width);
  }

  datatype IssueError = Unparsable(content: string)

  /**
   * The counter a call reads: a missing file is first created holding "1";
   * otherwise `int(content.strip())`, which raises unless the stripped content
   * is a non-empty run of digits.
   */
  function ReadCounter(file: Option<string>): (r: Result<nat, IssueError>)
    ensures file.None? ==> r == Success(1)
    ensures file.Some? ==> (r.Success? <==> |Strip(file.value)| > 0 && AllDigits(Strip(file.value)))
    ensures file.Some? && r.Success? ==> r.value == DigitsValue(Strip(file.value))
    ensures r.Failure? ==> r.error == Unparsable(file.value)
  {
    match file
    case None => Success(1)
    case Some(content) =>
      var t := Strip(content);
      if |t| > 0 && AllDigits(t) then Success(DigitsValue(t)) else Failure(Unparsable(content))
  }

  datatype Issued = Issued(code: string, file: string)

  /** One call: the code for the current counter, and the file holding `str(counter + 1)`. */
  function NextIssue(file: Option<string>): (r: Result<Issued, IssueError>)
    ensures r.Success? <==> ReadCounter(file).Success?
    ensures r.Success? ==> r.value.code == Code(ReadCounter(file).value)
  {
    match ReadCounter(file)
    case Failure(e) => Failure(e)
    case Success(n) => Success(Issued(Code(n), Decimal(n + 1)))
  }

  /** The file a call writes reads back as the next counter: each call advances it by one. */
  lemma IssueAdvancesByOne(file: Option<string>)
    requires NextIssue(file).Success?
    ensures NextIssue(file).value.file == Decimal(ReadCounter(file).value + 1)
    ensures ReadCounter(Some(NextIssue(file).value.file)) == Success(ReadCounter(file).value + 1)
  {
    var n := ReadCounter(file).value;
    StripKeepsDigits(Decimal(n + 1));
  }

  /** Without a counter file, the first call issues `Code(1)` and leaves "2" behind. */
  lemma FirstIssueFromNoFile()
    ensures NextIssue(None) == Success(Issued(Code(1), "2"))
  {
    assert Decimal(2) == "2";
  }

  /** `Code(1)` is K followed by fifteen zeros and a one. */
  lemma FirstCode()
    ensures Code(1) == "K0000000000000001"
  {
    assert Decimal(1) == "1";
    assert Zeros(15) == "000000000000000";
  }
}
