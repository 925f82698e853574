/**
 * The patient form: the CPF input mask `formatCPF`, applied to every keystroke, the
 * form's validation schema, and the mapping of the submitted form onto the data
 * `createPatient` receives.
 */
module PatientModal {
  import opened Wrappers
  import opened Records
  import opened Seqs
  import UsePatients

  /** `value.replace(/\D/g, '')`: the digits of `value`, in order. */
  function Digits(s: string): (r: string)
    ensures AllDigits(r)
    ensures |r| <= |s|
  {
    Filter(s, IsDigit)
  }

  /* ---------- the three regular-expression replacements ---------- */

  /** Four digits in a row start at `i`. */
  predicate FourDigitsAt(s: string, i: nat)
    requires i + 4 <= |s|
  {
    AllDigits(s[i..i + 4])
  }

  /** The leftmost start, from `from` on, of four digits in a row: where `(\d{3})(\d)` matches. */
  function FirstFourDigits(s: string, from: nat): (r: Option<nat>)
    ensures r.Some? ==> from <= r.value && r.value + 4 <= |s| && FourDigitsAt(s, r.value)
    decreases |s| - from
  {
    if from + 4 > |s| then None
    else if FourDigitsAt(s, from) then Some(from)
    else FirstFourDigits(s, from + 1)
  }

  /** `s.replace(/(\d{3})(\d)/, '$1.$2')`: a dot after the first three digits that a digit follows. */
  function DotAfterThree(s: string): string
  {
    match FirstFourDigits(s, 0)
    case Some(i) => s[..i + 3] + "." + s[i + 3..]
    case None => s
  }

  /**
   * Whether `(\d{3})(\d{1,2})$` matches at `i`: from `i` to the end there are four or five
   * characters, all digits.
   */
  predicate TailMatchesAt(s: string, i: nat)
    requires i <= |s|
  {
    (i + 4 == |s| || i + 5 == |s|) && AllDigits(s[i..])
  }

  /** The leftmost start, from `from` on, where `(\d{3})(\d{1,2})$` matches. */
  function FirstTail(s: string, from: nat): (r: Option<nat>)
    ensures r.Some? ==> from <= r.value && r.value + 4 <= |s| && TailMatchesAt(s, r.value)
    decreases |s| + 1 - from
  {
    if from > |s| then None
    else if TailMatchesAt(s, from) then Some(from)
    else FirstTail(s, from + 1)
  }

  /** `s.replace(/(\d{3})(\d{1,2})$/, '$1-$2')`: a hyphen before the last one or two digits. */
  function HyphenBeforeLast(s: string): string
  {
    match FirstTail(s, 0)
    case Some(i) => s[..i + 3] + "-" + s[i + 3..]
    case None => s
  }

  /** The replacement chain applied to the kept digits. */
  function Mask(numbers: string): string
  {
    HyphenBeforeLast(DotAfterThree(DotAfterThree(numbers)))
  }

  /** `formatCPF`: strip the non-digits, keep at most eleven, mask them. */
  function FormatCpf(value: string): string
  {
    var numbers := Digits(value);
    if |numbers| <= 11 then Mask(numbers) else Mask(numbers[..11])
  }

  /** The digits the mask is applied to. */
  function Kept(value: string): (r: string)
    ensures AllDigits(r) && |r| <= 11
  {
    var numbers := Digits(value);
    if |numbers| <= 11 then numbers else numbers[..11]
  }

  /**
   * The shape `XXX.XXX.XXX-XX` as far as there are digits: nothing for up to three digits,
   * a dot after the third from four on, a dot after the sixth from seven on, and a hyphen
   * after the ninth from ten on.
   */
  function Masked(ds: string): string
  {
    var n := |ds|;
    if n <= 3 then ds
    else if n <= 6 then ds[..3] + "." + ds[3..]
    else if n <= 9 then ds[..3] + "." + ds[3..6] + "." + ds[6..]
    else ds[..3] + "." + ds[3..6] + "." + ds[6..9] + "-" + ds[9..]
  }

  /* ---------- how the replacements act on digits ---------- */

  /** The four-digit search passes over every start whose window holds a non-digit. */
  lemma {:induction false} FourSkip(s: string, from: nat, to: nat)
    requires from <= to
    requires forall i :: from <= i < to && i + 4 <= |s| ==> !FourDigitsAt(s, i)
    ensures FirstFourDigits(s, from) == FirstFourDigits(s, to)
    decreases (to as int) - (from as int)
  {
    if from < to && from + 4 <= |s| {
      FourSkip(s, from + 1, to);
    }
  }

  /** The tail search passes over every start where the tail pattern does not match. */
  lemma {:induction false} TailSkip(s: string, from: nat, to: nat)
    requires from <= to <= |s| + 1
    requires forall i :: from <= i < to ==> !TailMatchesAt(s, i)
    ensures FirstTail(s, from) == FirstTail(s, to)
    decreases (to as int) - (from as int)
  {
    if from < to {
      TailSkip(s, from + 1, to);
    }
  }

  /** No tail match starts at or before a non-digit. */
  lemma TailBlocked(s: string, stop: nat)
    requires stop < |s| && !IsDigit(s[stop])
    ensures FirstTail(s, 0) == FirstTail(s, stop + 1)
  {
    forall i | 0 <= i < stop + 1
      ensures !TailMatchesAt(s, i)
    {
      assert s[i..][stop - i] == s[stop];
    }
    TailSkip(s, 0, stop + 1);
  }

  /** No tail match starts where fewer than four characters are left. */
  lemma TailTooShort(s: string, from: nat)
    requires from <= |s| + 1 && |s| < from + 4
    ensures FirstTail(s, from) == None
  {
    TailSkip(s, from, |s| + 1);
  }

  /** On digits alone the first replacement puts a dot after the third digit, if a fourth follows. */
  lemma FirstDot(ds: string)
    requires AllDigits(ds)
    ensures DotAfterThree(ds) == if |ds| >= 4 then ds[..3] + "." + ds[3..] else ds
  {
    if |ds| >= 4 {
      assert FourDigitsAt(ds, 0);
    }
  }

  /** After the first dot, the second replacement puts a dot after the sixth digit, if a seventh follows. */
  lemma SecondDot(ds: string)
    requires AllDigits(ds) && |ds| >= 4
    ensures DotAfterThree(ds[..3] + "." + ds[3..])
         == if |ds| >= 7 then ds[..3] + "." + ds[3..6] + "." + ds[6..] else ds[..3] + "." + ds[3..]
  {
    var s := ds[..3] + "." + ds[3..];
    forall i | 0 <= i < 4 && i + 4 <= |s|
      ensures !FourDigitsAt(s, i)
    {
      assert s[i..i + 4][3 - i] == '.';
    }
    FourSkip(s, 0, 4);
    if |ds| >= 7 {
      assert s[4..8] == ds[3..7];
      assert FourDigitsAt(s, 4);
      assert s[..7] == ds[..3] + "." + ds[3..6];
      assert s[7..] == ds[6..];
    }
  }

  /** The chain yields the shape `Masked` on up to eleven digits. */
  lemma MaskIsMasked(ds: string)
    requires AllDigits(ds) && |ds| <= 11
    ensures Mask(ds) == Masked(ds)
  {
    FirstDot(ds);
    var n := |ds|;
    if n <= 3 {
      TailTooShort(ds, 0);
    } else {
      SecondDot(ds);
      if n <= 6 {
        var s := ds[..3] + "." + ds[3..];
        TailBlocked(s, 3);
        TailTooShort(s, 4);
      } else {
        var s := ds[..3] + "." + ds[3..6] + "." + ds[6..];
        assert s[7] == '.';
        TailBlocked(s, 7);
        if n <= 9 {
          TailTooShort(s, 8);
        } else {
          assert s[8..] == ds[6..];
          assert TailMatchesAt(s, 8);
          assert s[..11] == ds[..3] + "." + ds[3..6] + "." + ds[6..9];
          assert s[11..] == ds[9..];
        }
      }
    }
  }

  lemma DigitsOfDigits(s: string)
    requires AllDigits(s)
    ensures Digits(s) == s
  {
    FilterKeepsAll(s, IsDigit);
  }

  /** Reading the digits of `a`, a separator, then digits `b`. */
  lemma DigitsAcross(a: string, c: char, b: string)
    requires !IsDigit(c) && AllDigits(b)
    ensures Digits(a + [c] + b) == Digits(a) + b
  {
    var ac := a + [c];
    FilterConcat(a, [c], IsDigit);
    FilterNone([c], IsDigit);
    assert Filter(ac, IsDigit) == Filter(a, IsDigit);
    FilterConcat(ac, b, IsDigit);
    DigitsOfDigits(b);
    assert Digits(a + [c] + b) == Filter(ac, IsDigit) + Filter(b, IsDigit);
  }

  /** The mask only inserts separators: its digits are the digits it was given. */
  lemma DigitsOfMasked(ds: string)
    requires AllDigits(ds)
    ensures Digits(Masked(ds)) == ds
  {
    var n := |ds|;
    if n <= 3 {
      DigitsOfDigits(ds);
    } else if n <= 6 {
      DigitsOfOneDot(ds);
    } else if n <= 9 {
      DigitsOfTwoDots(ds);
    } else {
      DigitsOfFullMask(ds);
    }
  }

  lemma DigitsOfOneDot(ds: string)
    requires AllDigits(ds) && |ds| >= 3
    ensures Digits(ds[..3] + "." + ds[3..]) == ds
  {
    var a, b := ds[..3], ds[3..];
    DigitsOfDigits(a);
    DigitsAcross(a, '.', b);
    assert a + b == ds;
  }

  lemma DigitsOfTwoDots(ds: string)
    requires AllDigits(ds) && |ds| >= 6
    ensures Digits(ds[..3] + "." + ds[3..6] + "." + ds[6..]) == ds
  {
    var a, b, c := ds[..3], ds[3..6], ds[6..];
    DigitsOfOneDot(ds[..6]);
    assert a + "." + b == ds[..6][..3] + "." + ds[..6][3..];
    DigitsAcross(a + "." + b, '.', c);
    assert ds[..6] + c == ds;
  }

  lemma DigitsOfFullMask(ds: string)
    requires AllDigits(ds) && |ds| >= 9
    ensures Digits(ds[..3] + "." + ds[3..6] + "." + ds[6..9] + "-" + ds[9..]) == ds
  {
    var a, b, c, e := ds[..3], ds[3..6], ds[6..9], ds[9..];
    DigitsOfTwoDots(ds[..9]);
    assert a + "." + b + "." + c == ds[..9][..3] + "." + ds[..9][3..6] + "." + ds[..9][6..];
    DigitsAcross(a + "." + b + "." + c, '-', e);
    assert ds[..9] + e == ds;
  }

  /* ---------- what the mask promises ---------- */

  /** `formatCPF` is the shape `XXX.XXX.XXX-XX` filled with the first (up to) eleven digits of its input. */
  lemma FormatIsMasked(value: string)
    ensures FormatCpf(value) == Masked(Kept(value))
  {
    MaskIsMasked(Kept(value));
  }

  /**
   * Its output holds exactly the kept digits, in order, plus at most three separators: at
   * most 14 characters, the input's `maxLength`.
   */
  lemma FormatKeepsDigits(value: string)
    ensures Digits(FormatCpf(value)) == Kept(value)
    ensures |Kept(value)| <= |FormatCpf(value)| <= |Kept(value)| + 3 <= 14
  {
    FormatIsMasked(value);
    DigitsOfMasked(Kept(value));
  }

  /** Only the first eleven digits count: extra digits are dropped, in order. */
  lemma KeptIsPrefix(value: string)
    ensures Kept(value) == Digits(value)[..if |Digits(value)| <= 11 then |Digits(value)| else 11]
  {
  }

  /** Formatting a formatted value gives it back: the mask is stable under every keystroke's reformat. */
  lemma FormatIdempotent(value: string)
    ensures FormatCpf(FormatCpf(value)) == FormatCpf(value)
  {
    var f := FormatCpf(value);
    FormatKeepsDigits(value);
    assert Kept(f) == Kept(value);
    FormatIsMasked(f);
    FormatIsMasked(value);
  }

  /** Eleven or more digits give `XXX.XXX.XXX-XX`: 14 characters, separators exactly at 3, 7 and 11. */
  lemma FullCpfShape(value: string)
    requires |Digits(value)| >= 11
    ensures var f := FormatCpf(value);
      && |f| == 14
      && f[3] == '.' && f[7] == '.' && f[11] == '-'
      && forall i :: 0 <= i < 14 && i != 3 && i != 7 && i != 11 ==> IsDigit(f[i])
  {
    FormatIsMasked(value);
    FullMaskShape(Kept(value));
  }

  /** The full mask, built up one group at a time. */
  lemma FullMaskShape(ds: string)
    requires AllDigits(ds) && |ds| == 11
    ensures var f := Masked(ds);
      && |f| == 14
      && f[3] == '.' && f[7] == '.' && f[11] == '-'
      && forall i :: 0 <= i < 14 && i != 3 && i != 7 && i != 11 ==> IsDigit(f[i])
  {
    var p1 := ds[..3] + ".";
    var p2 := p1 + ds[3..6] + ".";
    var p3 := p2 + ds[6..9] + "-";
    var f := p3 + ds[9..];
    assert Masked(ds) == f;
    assert |p1| == 4 && |p2| == 8 && |p3| == 12;
    forall i | 0 <= i < 14 && i != 3 && i != 7 && i != 11
      ensures IsDigit(f[i])
    {
      if i < 3 {
        assert f[i] == p3[i] == p2[i] == p1[i] == ds[i];
      } else if i < 7 {
        assert f[i] == p3[i] == p2[i] == ds[3..6][i - 4] == ds[i - 1];
      } else if i < 11 {
        assert f[i] == p3[i] == ds[6..9][i - 8] == ds[i - 2];
      } else {
        assert f[i] == ds[9..][i - 12] == ds[i - 3];
      }
    }
  }

  /* ---------- the schema ---------- */

  /** The fields of the form, as the inputs hold them (empty when left blank). */
  datatype Form = Form(name: string, cpf: string, phone: string, email: string, birthDate: string, notes: string)

  /** The CPF rule as written: `.min(11).max(14)` counts the characters of the masked text. */
  predicate CpfRuleAsWritten(cpf: string)
  {
    11 <= |cpf| <= 14
  }

  /** The CPF rule its message states ("CPF deve ter 11 dígitos"): eleven digits, within the input's 14 characters. */
  predicate CpfRule(cpf: string)
  {
    |Digits(cpf)| == 11 && |cpf| <= 14
  }

  /** As written, nine or ten digits pass: the two dots bring the masked text to eleven characters or more. */
  lemma ShortCpfPassesAsWritten(value: string)
    requires 9 <= |Digits(value)| <= 10
    ensures CpfRuleAsWritten(FormatCpf(value))
    ensures |Digits(FormatCpf(value))| < 11
  {
    FormatKeepsDigits(value);
    FormatIsMasked(value);
  }

  /** The nine digits `123456789` are masked to `123.456.789`, which the rule as written accepts. */
  lemma NineDigitExample(v: string)
    requires v == "123456789"
    ensures FormatCpf(v) == "123.456.789"
    ensures CpfRuleAsWritten(FormatCpf(v))
  {
    assert AllDigits(v) by {
      forall i | 0 <= i < |v|
        ensures IsDigit(v[i])
      {
      }
    }
    NineDigitsMask(v);
    assert v[..3] == "123" && v[3..6] == "456" && v[6..] == "789";
  }

  /** Nine digits are masked with two dots and no hyphen. */
  lemma NineDigitsMask(ds: string)
    requires AllDigits(ds) && |ds| == 9
    ensures FormatCpf(ds) == ds[..3] + "." + ds[3..6] + "." + ds[6..]
  {
    DigitsOfDigits(ds);
    FormatIsMasked(ds);
  }

  /** On masked input the corrected rule holds exactly for eleven digits, that is, for the full 14-character mask. */
  lemma CpfRuleOnMaskedInput(value: string)
    ensures CpfRule(FormatCpf(value)) <==> |Kept(value)| == 11
    ensures CpfRule(FormatCpf(value)) <==> |FormatCpf(value)| == 14
  {
    FormatKeepsDigits(value);
    FormatIsMasked(value);
  }

  /** `z.string().email(...).optional().or(z.literal(''))`, with the address check as a parameter. */
  predicate EmailRule(email: string, isEmail: string -> bool)
  {
    email == "" || isEmail(email)
  }

  /** `patientSchema` as written. */
  predicate SchemaAcceptsAsWritten(f: Form, isEmail: string -> bool)
  {
    |f.name| >= 1 && CpfRuleAsWritten(f.cpf) && EmailRule(f.email, isEmail)
  }

  /** `patientSchema` with the CPF rule its message states. */
  predicate SchemaAccepts(f: Form, isEmail: string -> bool)
  {
    |f.name| >= 1 && CpfRule(f.cpf) && EmailRule(f.email, isEmail)
  }

  /** `s || undefined`. */
  function BlankToAbsent(s: string): (r: Option<string>)
    ensures r.None? <==> s == ""
    ensures r.Some? ==> r.value == s
  {
    if s == "" then None else Some(s)
  }

  /** The data handed to `createPatient`: blank optional fields are left out. */
  function PatientData(f: Form): UsePatients.NewPatient
  {
    UsePatients.NewPatient(f.name, f.cpf, BlankToAbsent(f.phone), BlankToAbsent(f.email),
                           BlankToAbsent(f.notes), BlankToAbsent(f.birthDate))
  }

  /** `onSubmit` as written: reached whenever `patientSchema` as written accepts the form. */
  function Submit(f: Form, isEmail: string -> bool): (r: Option<UsePatients.NewPatient>)
    ensures r.Some? <==> SchemaAcceptsAsWritten(f, isEmail)
    ensures r.Some? ==> r.value.name == f.name && r.value.cpf == f.cpf && 11 <= |r.value.cpf| <= 14
  {
    if SchemaAcceptsAsWritten(f, isEmail) then Some(PatientData(f)) else None
  }

  /**
   * `onSubmit` behind the corrected CPF rule: it submits exactly the forms that rule accepts,
   * each of which the schema as written submits too, with the same data.
   */
  function SubmitCorrected(f: Form, isEmail: string -> bool): (r: Option<UsePatients.NewPatient>)
    ensures r.Some? <==> SchemaAccepts(f, isEmail)
    ensures r.Some? ==> r == Submit(f, isEmail) && |Digits(r.value.cpf)| == 11
  {
    if SchemaAccepts(f, isEmail) then Some(PatientData(f)) else None
  }

  /**
   * A submitted form carries name and CPF unchanged, and each optional field exactly when
   * it is not blank.
   */
  lemma SubmitMapsBlankToAbsent(f: Form, isEmail: string -> bool)
    ensures Submit(f, isEmail).Some? <==> SchemaAcceptsAsWritten(f, isEmail)
    ensures Submit(f, isEmail).Some? ==>
      var p := Submit(f, isEmail).value;
      && p.name == f.name && p.cpf == f.cpf
      && (p.phone.None? <==> f.phone == "") && (p.phone.Some? ==> p.phone.value == f.phone)
      && (p.email.None? <==> f.email == "") && (p.email.Some? ==> p.email.value == f.email)
      && (p.birthDate.None? <==> f.birthDate == "") && (p.birthDate.Some? ==> p.birthDate.value == f.birthDate)
      && (p.notes.None? <==> f.notes == "") && (p.notes.Some? ==> p.notes.value == f.notes)
  {
  }

  /** Behind the corrected rule, a submitted CPF has the full mask's shape whenever it came from the mask. */
  lemma SubmittedMaskedCpfIsFull(f: Form, isEmail: string -> bool, typed: string)
    requires f.cpf == FormatCpf(typed)
    requires SubmitCorrected(f, isEmail).Some?
    ensures |Digits(typed)| >= 11
    ensures |f.cpf| == 14 && f.cpf[3] == '.' && f.cpf[7] == '.' && f.cpf[11] == '-'
  {
    CpfRuleOnMaskedInput(typed);
    FullCpfShape(typed);
  }

  /**
   * As written, typing the nine digits `123456789` with a name and no e-mail submits the
   * masked `123.456.789`; the corrected rule refuses that form.
   */
  lemma ShortCpfIsSubmittedAsWritten(f: Form, isEmail: string -> bool)
    requires f.cpf == FormatCpf("123456789") && f.name != "" && f.email == ""
    ensures Submit(f, isEmail).Some? && Submit(f, isEmail).value.cpf == "123.456.789"
    ensures SubmitCorrected(f, isEmail).None?
  {
    NineDigitExample("123456789");
    CpfRuleOnMaskedInput("123456789");
  }
}
