/**
 * The user-information form: the validation pipeline of submit_form, the report it
 * writes, and the form's state (five entry fields and the results text). Message
 * boxes become returned Notice values.
 */
module Form {
  import opened Wrappers
  import opened PyText

  datatype Severity = Warning | Error | Info

  /** A message box: showwarning, showerror or showinfo with its title and text. */
  datatype Notice = Notice(severity: Severity, title: string, message: string)

  const NameMissing := Notice(Warning, "Validation Error", "Please enter your name.")
  const EmailMissing := Notice(Warning, "Validation Error", "Please enter your email.")
  const AgeMissing := Notice(Warning, "Validation Error", "Please enter your age.")
  const AgeOutOfRange := Notice(Error, "Validation Error", "Please enter a valid age (0-150).")
  const AgeNotNumber := Notice(Error, "Validation Error", "Age must be a number.")
  const Submitted := Notice(Info, "Success", "Form submitted successfully!")
  const NumbersMissing := Notice(Warning, "Validation Error", "Please enter both numbers.")
  const NumbersInvalid := Notice(Error, "Validation Error", "Please enter valid numbers.")

  datatype Status = Minor | Adult | Senior

  /** The three age bands of the report. */
  function Classify(age: int): (s: Status)
    ensures s == Minor <==> age < 18
    ensures s == Adult <==> 18 <= age < 65
    ensures s == Senior <==> 65 <= age
  {
    if age < 18 then Minor else if age < 65 then Adult else Senior
  }

  function StatusName(s: Status): string
  {
    match s
    case Minor => "Minor"
    case Adult => "Adult"
    case Senior => "Senior"
  }

  /** '=' * 40 */
  function Rule(): (r: string)
    ensures |r| == 40 && forall i :: 0 <= i < |r| ==> r[i] == '='
  {
    seq(40, _ => '=')
  }

  /** A line of text and its newline, as the f-strings of the report end. */
  function Line(text: string): string
  {
    text + "\n"
  }

  /**
   * The success report, accumulated line by line as submit_form builds it: the seven report
   * lines, each followed by a newline.
   */
  function Report(name: string, email: string, age: int): (r: string)
    ensures r == Unlines(ReportLines(name, email, age))
  {
    UnlinesSeven("Form Submitted Successfully!", Rule(), "Name: " + name, "Email: " + email,
      "Age: " + FormatInt(age), Rule(), "Status: " + StatusName(Classify(age)));
    var result := Line("Form Submitted Successfully!");
    var result := result + Line(Rule());
    var result := result + Line("Name: " + name);
    var result := result + Line("Email: " + email);
    var result := result + Line("Age: " + FormatInt(age));
    var result := result + Line(Rule());
    result + Line("Status: " + StatusName(Classify(age)))
  }

  /**
   * submit_form's decision: the stripped name, email and age are checked for emptiness in
   * that order, then the age is read with int() and checked against 0..150. Failure is the
   * message box shown instead of a report.
   */
  function Submit(nameEntry: string, emailEntry: string, ageEntry: string): (r: Result<string, Notice>)
    ensures r.Failure? ==> r.error in {NameMissing, EmailMissing, AgeMissing, AgeNotNumber, AgeOutOfRange}
    ensures r.Success? ==> ParseInt(Strip(ageEntry), 10).Some? && 0 <= ParseInt(Strip(ageEntry), 10).value <= 150
  {
    var name := Strip(nameEntry);
    var email := Strip(emailEntry);
    var age := Strip(ageEntry);
    if name == [] then Failure(NameMissing)
    else if email == [] then Failure(EmailMissing)
    else if age == [] then Failure(AgeMissing)
    else match ParseInt(age, 10)
      case None => Failure(AgeNotNumber)
      case Some(n) => if n < 0 || n > 150 then Failure(AgeOutOfRange) else Success(Report(name, email, n))
  }

  /** Only the first blank field is reported, name before email before age. */
  lemma SubmitReportsFirstMissing(nameEntry: string, emailEntry: string, ageEntry: string)
    ensures IsBlank(nameEntry) ==> Submit(nameEntry, emailEntry, ageEntry) == Failure(NameMissing)
    ensures !IsBlank(nameEntry) && IsBlank(emailEntry) ==>
      Submit(nameEntry, emailEntry, ageEntry) == Failure(EmailMissing)
    ensures !IsBlank(nameEntry) && !IsBlank(emailEntry) && IsBlank(ageEntry) ==>
      Submit(nameEntry, emailEntry, ageEntry) == Failure(AgeMissing)
  {
    StripSplits(nameEntry);
    StripSplits(emailEntry);
    StripSplits(ageEntry);
  }

  /**
   * With all three fields filled in, the form is accepted exactly when the age reads as an
   * integer in 0..150; an unreadable age and an age out of range each get their own error.
   */
  lemma SubmitAgeCheck(nameEntry: string, emailEntry: string, ageEntry: string)
    requires !IsBlank(nameEntry) && !IsBlank(emailEntry) && !IsBlank(ageEntry)
    ensures var r := Submit(nameEntry, emailEntry, ageEntry); var n := ParseInt(Strip(ageEntry), 10);
      && (n.None? ==> r == Failure(AgeNotNumber))
      && (n.Some? && !(0 <= n.value <= 150) ==> r == Failure(AgeOutOfRange))
      && (n.Some? && 0 <= n.value <= 150 ==>
            r == Success(Report(Strip(nameEntry), Strip(emailEntry), n.value)))
  {
    StripSplits(nameEntry);
    StripSplits(emailEntry);
    StripSplits(ageEntry);
  }

  /** A report is produced exactly when every check passes. */
  lemma SubmitSucceedsIff(nameEntry: string, emailEntry: string, ageEntry: string)
    ensures Submit(nameEntry, emailEntry, ageEntry).Success? <==>
      && !IsBlank(nameEntry) && !IsBlank(emailEntry)
      && ParseInt(Strip(ageEntry), 10).Some?
      && 0 <= ParseInt(Strip(ageEntry), 10).value <= 150
  {
    StripSplits(nameEntry);
    StripSplits(emailEntry);
    StripSplits(ageEntry);
    if ParseInt(Strip(ageEntry), 10).Some? {
      assert Strip(ageEntry) != [];
    }
  }

  /** The lower boundary age and the first age below it, as int() reads them. */
  lemma LowAgeLiterals()
    ensures ParseInt("0", 10) == Some(0) && ParseInt("-1", 10) == Some(-1)
  {
    ZeroLiteral();
    assert "1"[..0] == [];
    ParseNegated("1", 10);
    assert "-" + "1" == "-1";
  }

  lemma ZeroLiteral()
    ensures ParseInt("0", 10) == Some(0)
  {
    assert "0"[..0] == [];
    ParseDigits("0", 10);
  }

  /** int() of three decimal digits is their positional value. */
  lemma ThreeDigitLiteral(a: char, b: char, c: char)
    requires IsDigit(a, 10) && IsDigit(b, 10) && IsDigit(c, 10)
    ensures ParseInt([a, b, c], 10) ==
      Some(100 * DigitValue(a) + 10 * DigitValue(b) + DigitValue(c))
  {
    var ds := [a, b, c];
    assert AllDigits(ds, 10);
    assert ds[..2] == [a, b] && [a, b][..1] == [a] && [a][..0] == [];
    assert DigitsValue([a], 10) == DigitValue(a);
    assert DigitsValue([a, b], 10) == 10 * DigitValue(a) + DigitValue(b);
    ParseDigits(ds, 10);
  }

  /** The upper boundary age and the first age above it, as int() reads them. */
  lemma HighAgeLiterals()
    ensures ParseInt("150", 10) == Some(150) && ParseInt("151", 10) == Some(151)
  {
    assert "150" == ['1', '5', '0'] && "151" == ['1', '5', '1'];
    ThreeDigitLiteral('1', '5', '0');
    ThreeDigitLiteral('1', '5', '1');
  }

  lemma PaddedAgeLiteral()
    ensures ParseInt("007", 10) == Some(7)
  {
    assert "007" == ['0', '0', '7'];
    ThreeDigitLiteral('0', '0', '7');
  }

  /** Strip leaves the age strings as they are, and none of them is blank. */
  lemma AgeLiteralsStripped()
    ensures Strip("0") == "0" && Strip("150") == "150" && Strip("-1") == "-1"
    ensures Strip("151") == "151" && Strip("007") == "007"
    ensures !IsBlank("0") && !IsBlank("150") && !IsBlank("-1") && !IsBlank("151") && !IsBlank("007")
  {
    StripNoSpace("0");
    StripNoSpace("150");
    StripNoSpace("-1");
    StripNoSpace("151");
    StripNoSpace("007");
    assert !IsSpace('0') && !IsSpace('1') && !IsSpace('-');
  }

  /** 0 and 150 are accepted; -1 and 151 are rejected as out of range. */
  lemma SubmitAgeBoundaries(nameEntry: string, emailEntry: string)
    requires !IsBlank(nameEntry) && !IsBlank(emailEntry)
    ensures Submit(nameEntry, emailEntry, "0").Success?
    ensures Submit(nameEntry, emailEntry, "150").Success?
    ensures Submit(nameEntry, emailEntry, "-1") == Failure(AgeOutOfRange)
    ensures Submit(nameEntry, emailEntry, "151") == Failure(AgeOutOfRange)
  {
    LowAgeLiterals();
    HighAgeLiterals();
    AgeLiteralsStripped();
    SubmitAgeCheck(nameEntry, emailEntry, "0");
    SubmitAgeCheck(nameEntry, emailEntry, "150");
    SubmitAgeCheck(nameEntry, emailEntry, "-1");
    SubmitAgeCheck(nameEntry, emailEntry, "151");
  }

  /** An age typed as "007" is reported as 7. */
  lemma LeadingZerosDropped(nameEntry: string, emailEntry: string)
    requires !IsBlank(nameEntry) && !IsBlank(emailEntry)
    ensures Submit(nameEntry, emailEntry, "007") == Success(Report(Strip(nameEntry), Strip(emailEntry), 7))
  {
    PaddedAgeLiteral();
    AgeLiteralsStripped();
    SubmitAgeCheck(nameEntry, emailEntry, "007");
  }

  /**
   * An age of more than 4300 decimal digits is refused by int() as not a number, even when
   * its value is in range ("0" * 4300 + "7").
   */
  lemma SubmitRejectsLongAge(nameEntry: string, emailEntry: string, ageEntry: string)
    requires !IsBlank(nameEntry) && !IsBlank(emailEntry)
    requires AllDigits(ageEntry, 10) && |ageEntry| > MaxStrDigits
    ensures Submit(nameEntry, emailEntry, ageEntry) == Failure(AgeNotNumber)
  {
    TooManyDigits(ageEntry);
    assert forall i :: 0 <= i < |ageEntry| ==> !IsSpace(ageEntry[i]) by {
      forall i | 0 <= i < |ageEntry| ensures !IsSpace(ageEntry[i]) {
        assert IsDigit(ageEntry[i], 10);
      }
    }
    StripNoSpace(ageEntry);
    assert !IsBlank(ageEntry) by { assert !IsSpace(ageEntry[0]); }
    SubmitAgeCheck(nameEntry, emailEntry, ageEntry);
  }

  /** The text a newline-terminated report consists of, as a list of lines. */
  function LineEnd(s: string): (i: nat)
    ensures i <= |s| && (i < |s| ==> s[i] == '\n')
    ensures forall j :: 0 <= j < i ==> s[j] != '\n'
  {
    if s == [] || s[0] == '\n' then 0 else 1 + LineEnd(s[1..])
  }

  /** Splits a text at its newlines; a final newline does not start an empty line. */
  function Lines(s: string): seq<string>
    decreases |s|
  {
    if s == [] then []
    else
      var i := LineEnd(s);
      [s[..i]] + (if i < |s| then Lines(s[i + 1..]) else [])
  }

  /** Joins lines, ending each one with a newline. */
  function Unlines(ls: seq<string>): string
  {
    if ls == [] then [] else Line(ls[0]) + Unlines(ls[1..])
  }

  predicate NoNewline(s: string) {
    forall i :: 0 <= i < |s| ==> s[i] != '\n'
  }

  lemma {:induction false} LineEndOf(line: string, rest: string)
    requires NoNewline(line)
    ensures LineEnd(line + "\n" + rest) == |line|
  {
    if line != [] {
      assert (line + "\n" + rest)[1..] == line[1..] + "\n" + rest;
      LineEndOf(line[1..], rest);
    }
  }

  /** Splitting joined lines gives the lines back when none of them holds a newline. */
  lemma {:induction false} LinesOfUnlines(ls: seq<string>)
    requires forall k :: 0 <= k < |ls| ==> NoNewline(ls[k])
    ensures Lines(Unlines(ls)) == ls
  {
    if ls != [] {
      var rest := Unlines(ls[1..]);
      var s := ls[0] + "\n" + rest;
      LineEndOf(ls[0], rest);
      assert s[..|ls[0]|] == ls[0];
      assert s[|ls[0]| + 1..] == rest;
      LinesOfUnlines(ls[1..]);
    }
  }

  /** The seven lines of a successful report. */
  function ReportLines(name: string, email: string, age: int): (ls: seq<string>)
    ensures |ls| == 7
  {
    [ "Form Submitted Successfully!", Rule(), "Name: " + name, "Email: " + email,
      "Age: " + FormatInt(age), Rule(), "Status: " + StatusName(Classify(age)) ]
  }

  lemma FormatIntNoNewline(n: int)
    ensures NoNewline(FormatInt(n))
  {
    var m: nat := if n < 0 then -n else n;
    var ds := ToDigits(m, 10);
    assert forall i :: 0 <= i < |ds| ==> IsDigit(ds[i], 10);
  }

  lemma {:induction false} UnlinesCons(l: string, rest: seq<string>)
    ensures Unlines([l] + rest) == Line(l) + Unlines(rest)
  {
    assert ([l] + rest)[1..] == rest;
  }

  lemma UnlinesSeven(l0: string, l1: string, l2: string, l3: string, l4: string, l5: string, l6: string)
    ensures Unlines([l0, l1, l2, l3, l4, l5, l6]) ==
      Line(l0) + Line(l1) + Line(l2) + Line(l3) + Line(l4) + Line(l5) + Line(l6)
  {
    UnlinesCons(l6, []);
    UnlinesCons(l5, [l6]);
    UnlinesCons(l4, [l5, l6]);
    UnlinesCons(l3, [l4, l5, l6]);
    UnlinesCons(l2, [l3, l4, l5, l6]);
    UnlinesCons(l1, [l2, l3, l4, l5, l6]);
    UnlinesCons(l0, [l1, l2, l3, l4, l5, l6]);
    assert [l0] + [l1, l2, l3, l4, l5, l6] == [l0, l1, l2, l3, l4, l5, l6];
  }

  lemma NoNewlineConcat(a: string, b: string)
    requires NoNewline(a) && NoNewline(b)
    ensures NoNewline(a + b)
  {
    forall i | 0 <= i < |a + b| ensures (a + b)[i] != '\n' {
      if i >= |a| { assert (a + b)[i] == b[i - |a|]; }
    }
  }

  /** The fixed text of the report holds no newline. */
  lemma FixedTextSingle(s: Status)
    ensures NoNewline("Form Submitted Successfully!") && NoNewline(Rule())
    ensures NoNewline("Name: ") && NoNewline("Email: ") && NoNewline("Age: ") && NoNewline("Status: ")
    ensures NoNewline(StatusName(s))
  {
  }

  lemma SevenSingle(l0: string, l1: string, l2: string, l3: string, l4: string, l5: string, l6: string)
    requires NoNewline(l0) && NoNewline(l1) && NoNewline(l2) && NoNewline(l3)
    requires NoNewline(l4) && NoNewline(l5) && NoNewline(l6)
    ensures var ls := [l0, l1, l2, l3, l4, l5, l6]; forall k :: 0 <= k < |ls| ==> NoNewline(ls[k])
  {
  }

  /** No report line holds a newline when the name and the email hold none. */
  lemma ReportLinesSingle(name: string, email: string, age: int)
    requires NoNewline(name) && NoNewline(email)
    ensures var ls := ReportLines(name, email, age); forall k :: 0 <= k < |ls| ==> NoNewline(ls[k])
  {
    FixedTextSingle(Classify(age));
    FormatIntNoNewline(age);
    NoNewlineConcat("Name: ", name);
    NoNewlineConcat("Email: ", email);
    NoNewlineConcat("Age: ", FormatInt(age));
    NoNewlineConcat("Status: ", StatusName(Classify(age)));
    SevenSingle("Form Submitted Successfully!", Rule(), "Name: " + name, "Email: " + email,
      "Age: " + FormatInt(age), Rule(), "Status: " + StatusName(Classify(age)));
  }

  /**
   * The report is exactly seven newline-terminated lines: the heading, a rule of 40 '=',
   * the name, the email, the age as an integer, another rule and the status.
   */
  lemma ReportIsSevenLines(name: string, email: string, age: int)
    requires NoNewline(name) && NoNewline(email)
    ensures Lines(Report(name, email, age)) == ReportLines(name, email, age)
  {
    ReportLinesSingle(name, email, age);
    LinesOfUnlines(ReportLines(name, email, age));
  }

  class FormApp {
    var name: string
    var email: string
    var age: string
    var num1: string
    var num2: string
    /** The contents of the results text area. */
    var results: string

    constructor ()
      ensures name == [] && email == [] && age == [] && num1 == [] && num2 == [] && results == []
    {
      name, email, age, num1, num2, results := [], [], [], [], [], [];
    }

    /** display_result: the whole results text is replaced by the message. */
    method DisplayResult(message: string)
      modifies this`results
      ensures results == message
    {
      results := [];
      results := message + results;
    }

    /** clear_form: empties the five entries and the results text. */
    method ClearForm()
      modifies this
      ensures name == [] && email == [] && age == [] && num1 == [] && num2 == [] && results == []
    {
      name := [];
      email := [];
      age := [];
      num1 := [];
      num2 := [];
      results := [];
    }

    /**
     * submit_form: on success the report replaces the results and an info box follows; on any
     * failed check the results are left as they were and the check's message box is shown.
     */
    method SubmitForm() returns (notice: Notice)
      modifies this`results
      ensures Submit(name, email, age).Success? ==>
        results == Submit(name, email, age).value && notice == Submitted
      ensures Submit(name, email, age).Failure? ==>
        results == old(results) && notice == Submit(name, email, age).error
    {
      var n := Strip(name);
      var e := Strip(email);
      var a := Strip(age);
      if n == [] {
        return NameMissing;
      }
      if e == [] {
        return EmailMissing;
      }
      if a == [] {
        return AgeMissing;
      }
      var parsed := ParseInt(a, 10);
      if parsed.None? {
        return AgeNotNumber;
      }
      var ageInt := parsed.value;
      if ageInt < 0 || ageInt > 150 {
        return AgeOutOfRange;
      }
      var result := Report(n, e, ageInt);
      DisplayResult(result);
      notice := Submitted;
    }

    /**
     * calculate_sum, up to its floating-point part: `arithmetic` is the text that part
     * produces, or None when float() rejects an entry.
     */
    method CalculateSum(arithmetic: Option<string>) returns (notice: Option<Notice>)
      modifies this`results
      ensures IsBlank(num1) || IsBlank(num2) ==> results == old(results) && notice == Some(NumbersMissing)
      ensures !IsBlank(num1) && !IsBlank(num2) ==>
        match arithmetic
        case None => results == old(results) && notice == Some(NumbersInvalid)
        case Some(text) => results == text && notice == None
    {
      var a := Strip(num1);
      var b := Strip(num2);
      StripSplits(num1);
      StripSplits(num2);
      if a == [] || b == [] {
        return Some(NumbersMissing);
      }
      match arithmetic {
        case None =>
          notice := Some(NumbersInvalid);
        case Some(text) =>
          DisplayResult(text);
          notice := None;
      }
    }
  }
}
