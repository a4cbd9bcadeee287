/**
 * The log-transaction wizard: the amount, label and current-step form state,
 * the step transitions, and the single `addTransaction` call at the end.
 *
 * `parseFloat` is modelled on the decimal forms a number input produces: an
 * optional sign, integer digits, an optional point and fraction digits, read as
 * the longest such prefix; the value is kept in whole cents.
 */
module LogTransaction {

  import opened Wrappers
  import opened Decimal
  import Ledger
  import AppStateContext

  /** `currentStep`: `'amount'`, `'label'` or `'budget'`. */
  datatype Step = AmountStep | LabelStep | BudgetStep

  /** The digits at the start of `s`, up to the first non-digit (a prefix, by `LeadingDigitsPrefix`). */
  function LeadingDigits(s: string): (r: string)
    ensures AllDigits(r) && |r| <= |s|
    ensures |r| > 0 <==> s != [] && IsDigit(s[0])
    ensures |r| > 0 ==> r[0] == s[0]
    ensures |r| < |s| ==> !IsDigit(s[|r|])
  {
    if s != [] && IsDigit(s[0]) then [s[0]] + LeadingDigits(s[1..]) else []
  }

  /** The leading digits are a prefix of the text, so with the last ensures above they are the longest digit prefix. */
  lemma {:induction false} LeadingDigitsPrefix(s: string)
    ensures LeadingDigits(s) <= s
  {
    if s != [] && IsDigit(s[0]) {
      LeadingDigitsPrefix(s[1..]);
      assert s == [s[0]] + s[1..];
    }
  }

  /** The fraction digits that survive truncation to cents: the first two. */
  function KeptFraction(f: string): string {
    if |f| > 2 then f[..2] else f
  }

  /**
   * The fraction digits `f` of `whole.f`, truncated to cents: two or more digits give
   * the first two as cents, a single digit counts tens of cents, none gives 0.
   */
  function FractionCents(f: string): (c: nat)
    requires AllDigits(f)
    ensures f == [] ==> c == 0
    ensures |f| == 1 ==> c == DigitsValue(f) * 10
    ensures |f| >= 2 ==> c == DigitsValue(f[..2])
    ensures c > 0 <==> HasNonzeroDigit(KeptFraction(f))
  {
    var c := (if |f| > 0 then DigitValue(f[0]) * 10 else 0) + (if |f| > 1 then DigitValue(f[1]) else 0);
    FractionCentsOfKept(f);
    c
  }

  /** The cents are the kept digits' value, scaled to two places. */
  lemma {:induction false} FractionCentsOfKept(f: string)
    requires AllDigits(f)
    ensures var k, c := KeptFraction(f), (if |f| > 0 then DigitValue(f[0]) * 10 else 0) + (if |f| > 1 then DigitValue(f[1]) else 0);
      && AllDigits(k)
      && (f == [] ==> c == 0)
      && (|f| == 1 ==> c == DigitsValue(f) * 10)
      && (|f| >= 2 ==> c == DigitsValue(f[..2]))
      && (c > 0 <==> HasNonzeroDigit(k))
  {
    var k := KeptFraction(f);
    DigitsPositive(k);
    if |f| == 1 {
      assert k == f;
      assert f[..0] == [];
      assert DigitsValue(f) == DigitValue(f[0]);
    } else if |f| >= 2 {
      assert k == f[..2];
      assert k[..1] == [f[0]] && [f[0]][..0] == [];
      assert DigitsValue(k[..1]) == DigitValue(f[0]);
      assert DigitsValue(k) == DigitValue(f[0]) * 10 + DigitValue(f[1]);
    }
  }

  /** The integer digits before any point. */
  function WholePart(s: string): string {
    LeadingDigits(s)
  }

  /** The digits after a point that directly follows the integer digits; none without a point. */
  function FractionPart(s: string): (f: string)
    ensures AllDigits(f)
  {
    var afterWhole := s[|WholePart(s)|..];
    if |afterWhole| > 0 && afterWhole[0] == '.' then LeadingDigits(afterWhole[1..]) else []
  }

  /** The text starts with a digit, or with a point and a digit: what `parseFloat` needs to see a number. */
  predicate StartsNumber(s: string) {
    |s| > 0 && (IsDigit(s[0]) || (s[0] == '.' && |s| > 1 && IsDigit(s[1])))
  }

  /** The digits-point-digits body of a number, in cents; `None` when it has no digit at all. */
  function ParseUnsigned(s: string): (r: Option<nat>)
    ensures r.None? <==> !StartsNumber(s)
    ensures r.Some? ==>
      (r.value > 0 <==> HasNonzeroDigit(WholePart(s)) || HasNonzeroDigit(KeptFraction(FractionPart(s))))
  {
    var whole, fraction := WholePart(s), FractionPart(s);
    assert |whole| > 0 ==> whole[0] == s[0];
    assert |whole| == 0 && |s| > 1 && s[0] == '.' && IsDigit(s[1]) ==> fraction[0] == s[1];
    if |whole| == 0 && |fraction| == 0 then None
    else
      DigitsPositive(whole);
      Some(DigitsValue(whole) * 100 + FractionCents(fraction))
  }

  /** A leading minus sign. */
  predicate Negative(text: string) {
    |text| > 0 && text[0] == '-'
  }

  /** The text after an optional leading sign. */
  function Body(text: string): string {
    if |text| > 0 && (text[0] == '-' || text[0] == '+') then text[1..] else text
  }

  /**
   * `parseFloat(amount)` in cents: `None` (JavaScript's `NaN`) exactly when no
   * number starts after the optional sign; a minus sign never gives a positive
   * amount and its absence never gives a negative one.
   */
  function ParseAmount(text: string): (r: Option<int>)
    ensures r.None? <==> !StartsNumber(Body(text))
    ensures r.Some? && Negative(text) ==> r.value <= 0
    ensures r.Some? && !Negative(text) ==> r.value >= 0
  {
    if |text| > 0 && (text[0] == '-' || text[0] == '+') then
      match ParseUnsigned(text[1..])
      case Some(cents) => Some(if text[0] == '-' then -(cents as int) else cents)
      case None => None
    else
      match ParseUnsigned(text)
      case Some(cents) => Some(cents)
      case None => None
  }

  /**
   * `isValidAmount`: the amount parses to a number (not `NaN`) greater than 0;
   * that is, no minus sign and some non-zero digit among the integer digits and
   * the cents kept from the fraction.
   */
  predicate ValidAmount(text: string): (v: bool)
    ensures v <==> (!Negative(text)
      && (HasNonzeroDigit(WholePart(Body(text))) || HasNonzeroDigit(KeptFraction(FractionPart(Body(text))))))
  {
    match ParseAmount(text)
    case Some(cents) => cents > 0
    case None => false
  }

  lemma {:induction false} LeadingDigitsOfDigits(ds: string, rest: string)
    requires AllDigits(ds) && (rest == [] || !IsDigit(rest[0]))
    ensures LeadingDigits(ds + rest) == ds
  {
    if ds != [] {
      assert (ds + rest)[1..] == ds[1..] + rest;
      LeadingDigitsOfDigits(ds[1..], rest);
    } else {
      assert ds + rest == rest;
    }
  }

  /** In `digits.digits` the two digit runs are the integer and the fraction parts. */
  lemma {:induction false} PointFormParts(ws: string, fs: string)
    requires AllDigits(ws) && AllDigits(fs)
    ensures WholePart(ws + "." + fs) == ws && FractionPart(ws + "." + fs) == fs
    ensures (ws + "." + fs)[0] != '-' && (ws + "." + fs)[0] != '+'
  {
    var text := ws + "." + fs;
    assert text == ws + ("." + fs);
    LeadingDigitsOfDigits(ws, "." + fs);
    assert text[|ws|..] == "." + fs;
    assert ("." + fs)[1..] == fs;
    LeadingDigitsOfDigits(fs, []);
    assert fs + [] == fs;
    if ws != [] {
      assert text[0] == ws[0];
    }
  }

  /** An unsigned text with some digit parses to its integer part and its cents. */
  lemma {:induction false} UnsignedOfParts(s: string)
    requires |WholePart(s)| + |FractionPart(s)| > 0
    requires |s| > 0 && s[0] != '-' && s[0] != '+'
    ensures ParseAmount(s) == Some(DigitsValue(WholePart(s)) * 100 + FractionCents(FractionPart(s)))
  {
    var u := ParseUnsigned(s);
    assert u == Some(DigitsValue(WholePart(s)) * 100 + FractionCents(FractionPart(s)));
  }

  /** Any `digits.digits` text with at least one digit parses to its integer digits and its cents. */
  lemma {:induction false} ParsePointForm(ws: string, fs: string)
    requires AllDigits(ws) && AllDigits(fs) && |ws| + |fs| > 0
    ensures ParseAmount(ws + "." + fs) == Some(DigitsValue(ws) * 100 + FractionCents(fs))
  {
    PointFormParts(ws, fs);
    UnsignedOfParts(ws + "." + fs);
  }

  /** `ParsePointForm` with the integer part's value and the cents already known. */
  lemma {:induction false} ParseFractionForm(ws: string, fs: string, whole: nat, cents: nat)
    requires AllDigits(ws) && AllDigits(fs) && |ws| + |fs| > 0
    requires DigitsValue(ws) == whole && FractionCents(fs) == cents
    ensures ParseAmount(ws + "." + fs) == Some(whole * 100 + cents)
  {
    ParsePointForm(ws, fs);
  }

  /** A text of digits alone parses to that many whole units. */
  lemma {:induction false} ParseDigitsForm(ws: string)
    requires AllDigits(ws) && |ws| > 0
    ensures ParseAmount(ws) == Some(DigitsValue(ws) * 100)
  {
    assert ws[0] != '-' && ws[0] != '+' by { assert IsDigit(ws[0]); }
    LeadingDigitsOfDigits(ws, []);
    assert ws + [] == ws;
    assert ws[|ws|..] == [];
  }

  /** The number input's `d.cc` form parses back to the amount it shows, in cents. */
  lemma {:induction false} ParseDecimal(whole: nat, cents: nat)
    requires cents < 100
    ensures ParseAmount(NatToString(whole) + "." + TwoDigits(cents)) == Some(whole * 100 + cents)
    ensures whole * 100 + cents > 0 <==> ValidAmount(NatToString(whole) + "." + TwoDigits(cents))
  {
    var text := NatToString(whole) + "." + TwoDigits(cents);
    NatToStringValue(whole);
    TwoDigitsCents(cents);
    ParsePointForm(NatToString(whole), TwoDigits(cents));
    ValidIffPositive(text);
  }

  /** An amount is valid exactly when it parses to more than zero cents. */
  lemma {:induction false} ValidIffPositive(text: string)
    ensures ValidAmount(text) <==> ParseAmount(text).Some? && ParseAmount(text).value > 0
  {
  }

  /** The two digits the number input shows after the point are read back as the same cents. */
  lemma {:induction false} TwoDigitsCents(cents: nat)
    requires cents < 100
    ensures AllDigits(TwoDigits(cents)) && FractionCents(TwoDigits(cents)) == cents
  {
    TwoDigitsValue(cents);
  }

  /** A typed amount with a single fraction digit, such as `12.5`, counts that digit in tens of cents. */
  lemma {:induction false} ParseOneFractionDigit(ws: string, c: char)
    requires AllDigits(ws) && IsDigit(c)
    ensures ParseAmount(ws + "." + [c]) == Some(DigitsValue(ws) * 100 + DigitValue(c) * 10)
  {
    OneDigitCents(c);
    ParsePointForm(ws, [c]);
  }

  /** A single fraction digit counts tens of cents. */
  lemma {:induction false} OneDigitCents(c: char)
    requires IsDigit(c)
    ensures AllDigits([c]) && FractionCents([c]) == DigitValue(c) * 10
  {
    assert [c][..0] == [];
  }

  /** A bare integer parses to that many whole units. */
  lemma {:induction false} ParseWhole(whole: nat)
    ensures ParseAmount(NatToString(whole)) == Some(whole * 100)
  {
    NatToStringValue(whole);
    ParseDigitsForm(NatToString(whole));
  }

  /** A one-digit fraction as typed: `12.5` is 1250 cents. */
  lemma {:induction false} TypedOneFractionDigit()
    ensures ParseAmount("12.5") == Some(1250)
  {
    assert DigitsValue("12") == 12 by {
      assert "12"[..1] == "1" && "1"[..0] == [];
    }
    assert FractionCents("5") == 50;
    assert "12" + "." + "5" == "12.5";
    ParseFractionForm("12", "5", 12, 50);
  }

  /** No integer digits: `.5` is 50 cents. */
  lemma {:induction false} TypedNoWholeDigits()
    ensures ParseAmount(".5") == Some(50)
  {
    ParsePointForm("", "5");
    assert "" + "." + "5" == ".5";
  }

  /** Leading zeros are read as digits of the same number: `007.10` is 710 cents. */
  lemma {:induction false} TypedLeadingZeros()
    ensures ParseAmount("007.10") == Some(710)
  {
    LeadingZerosParts();
    assert "007" + "." + "10" == "007.10";
    ParseFractionForm("007", "10", 7, 10);
  }

  /** The digit runs of `007.10` count 7 units and 10 cents. */
  lemma {:induction false} LeadingZerosParts()
    ensures DigitsValue("007") == 7 && FractionCents("10") == 10
  {
    assert "007"[..2] == "00" && "00"[..1] == "0" && "0"[..0] == [];
    assert "10"[..2] == "10" && "10"[..1] == "1" && "1"[..0] == [];
  }

  /**
   * Where cents and `parseFloat` part ways: a positive amount below one cent
   * is truncated to 0 and so is not valid, and an exponent is not read.
   */
  lemma {:induction false} CentsDeviations()
    ensures ParseAmount("0.001") == Some(0) && !ValidAmount("0.001")
    ensures ParseAmount("1e2") == Some(100)
  {
    SubCentTruncated();
    ValidIffPositive("0.001");
    ExponentNotRead();
  }

  /** `0.001` keeps no cents. */
  lemma {:induction false} SubCentTruncated()
    ensures ParseAmount("0.001") == Some(0)
  {
    assert DigitsValue("0") == 0 by { assert "0"[..0] == []; }
    assert FractionCents("001") == 0 by { assert "001"[..2] == "00" && "00"[..1] == "0" && "0"[..0] == []; }
    assert "0" + "." + "001" == "0.001";
    ParseFractionForm("0", "001", 0, 0);
  }

  /** `1e2` stops at the `e`: one unit. */
  lemma {:induction false} ExponentNotRead()
    ensures ParseAmount("1e2") == Some(100)
  {
    assert WholePart("1e2") == "1" by {
      LeadingDigitsOfDigits("1", "e2");
      assert "1" + "e2" == "1e2";
    }
    assert FractionPart("1e2") == [];
    assert DigitsValue("1") == 1 by { assert "1"[..0] == []; }
    UnsignedOfParts("1e2");
  }

  /** The initial empty field and a bare sign or point are `NaN`, so they are not valid. */
  lemma {:induction false} EmptyIsInvalid()
    ensures !ValidAmount("") && !ValidAmount(".") && !ValidAmount("-")
  {
  }

  class LogTransactionForm {
    var amount: string
    var labelText: string
    var currentStep: Step

    /** `useState('')`, `useState('')`, `useState('amount')`. */
    constructor ()
      ensures amount == "" && labelText == "" && currentStep == AmountStep
    {
      amount := "";
      labelText := "";
      currentStep := AmountStep;
    }

    predicate IsValidAmount()
      reads this
    {
      ValidAmount(amount)
    }

    /** The amount input's `onChange`. */
    method SetAmount(text: string)
      modifies this
      ensures amount == text && labelText == old(labelText) && currentStep == old(currentStep)
    {
      amount := text;
    }

    /** The label input's `onChange`. */
    method SetLabel(text: string)
      modifies this
      ensures labelText == text && amount == old(amount) && currentStep == old(currentStep)
    {
      labelText := text;
    }

    /** `handleAmountSubmit`: on to the label step only when the amount is valid. */
    method HandleAmountSubmit()
      modifies this
      ensures currentStep == if ValidAmount(amount) then LabelStep else old(currentStep)
      ensures amount == old(amount) && labelText == old(labelText)
    {
      if IsValidAmount() {
        currentStep := LabelStep;
      }
    }

    /** `handleLabelSubmit`: the label is optional, so this always moves on to the budget question. */
    method HandleLabelSubmit()
      modifies this
      ensures currentStep == BudgetStep
      ensures amount == old(amount) && labelText == old(labelText)
    {
      currentStep := BudgetStep;
    }

    /** `goBack`: label to amount, budget to label; the first step has nowhere to go back to. */
    method GoBack()
      modifies this
      ensures old(currentStep) == LabelStep ==> currentStep == AmountStep
      ensures old(currentStep) == BudgetStep ==> currentStep == LabelStep
      ensures old(currentStep) == AmountStep ==> currentStep == AmountStep
      ensures amount == old(amount) && labelText == old(labelText)
    {
      if currentStep == LabelStep {
        currentStep := AmountStep;
      } else if currentStep == BudgetStep {
        currentStep := LabelStep;
      }
    }

    /**
     * `handleBudgetQuestion(isPreApproved)`: with a valid amount, one
     * `addTransaction` call with the parsed amount, the label and the answer, then
     * navigation to the list (`navigated`); otherwise nothing happens.
     */
    method HandleBudgetQuestion(isPreApproved: bool, app: AppStateContext.AppState, freshId: Ledger.Id, now: int)
      returns (navigated: bool)
      requires app.Valid() && !Ledger.HasId(app.transactions, freshId)
      modifies app
      ensures app.Valid()
      ensures navigated <==> ValidAmount(amount)
      ensures navigated ==>
        && ParseAmount(amount).Some? && ParseAmount(amount).value > 0
        && app.State() == Ledger.Add(old(app.State()), freshId, ParseAmount(amount).value, labelText, isPreApproved, now)
      ensures !navigated ==> app.State() == old(app.State())
      ensures app.isDarkMode == old(app.isDarkMode)
    {
      navigated := false;
      if IsValidAmount() {
        app.AddTransaction(freshId, ParseAmount(amount).value, labelText, isPreApproved, now);
        navigated := true;
      }
    }
  }
}
