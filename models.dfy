/**
 * The two persisted records of the expense tracker, their field
 * constraints and their string renderings.
 */
module Models {
  import opened Wrappers
  import opened Digits
  import opened Dates
  import opened Ordering

  // ---------------------------------------------------------------- Expense

  /** An amount is a decimal with two places, held as a whole number of cents. */
  type Cents = int

  const AmountMaxDigits: nat := 10
  const AmountDecimalPlaces: nat := 2
  const CategoryMaxLength: nat := 100

  /** A stored expense row; `id` is the auto-increment primary key. */
  datatype Expense = Expense(id: int, date: Date, amount: Cents, category: string, description: string)

  /** The four fields the expense form edits. */
  datatype ExpenseFields = ExpenseFields(date: Date, amount: Cents, category: string, description: string)

  function FieldsOf(e: Expense): ExpenseFields {
    ExpenseFields(e.date, e.amount, e.category, e.description)
  }

  function WithFields(id: int, f: ExpenseFields): (e: Expense)
    ensures e.id == id && FieldsOf(e) == f
  {
    Expense(id, f.date, f.amount, f.category, f.description)
  }

  /**
   * At most ten digits in all, two of them after the point: the magnitude
   * in cents has at most ten digits. The sign is not constrained.
   */
  predicate AmountFits(c: Cents) {
    var bound: int := Pow10(AmountMaxDigits);
    -bound < c < bound
  }

  /**
   * Ten digits with two after the point leave eight for the integer part:
   * an amount fits exactly when its whole units have at most eight digits.
   */
  lemma AmountFitsDigits(c: Cents)
    ensures AmountFits(c) <==> |NumeralOf((if c < 0 then -c else c) / 100)| <= AmountMaxDigits - AmountDecimalPlaces
  {
    var m := if c < 0 then -c else c;
    NumeralLength(m / 100, 8);
    assert Pow10(10) == 100 * Pow10(8);
  }

  /**
   * What form validation accepts against the field definitions: a calendar
   * date, an amount that fits, a non-blank category of at most 100
   * characters, and a description that may be blank. Text form fields
   * refuse the NUL character in both texts.
   */
  predicate ValidFields(f: ExpenseFields) {
    && ValidDate(f.date)
    && AmountFits(f.amount)
    && 1 <= |f.category| <= CategoryMaxLength
    && '\0' !in f.category
    && '\0' !in f.description
  }

  /**
   * The field constraints spelled out: a calendar date, at most eight
   * integer digits, a category of 1 to 100 characters, and no NUL in
   * either text. The description has no length limit and may be blank, so
   * replacing it by another NUL-free text never changes the verdict.
   */
  lemma ValidFieldsMeaning(f: ExpenseFields, description: string)
    ensures ValidFields(f) <==>
              && ValidDate(f.date)
              && |NumeralOf((if f.amount < 0 then -f.amount else f.amount) / 100)| <= 8
              && 1 <= |f.category| <= 100
              && '\0' !in f.category && '\0' !in f.description
    ensures '\0' !in f.description && '\0' !in description ==>
              ValidFields(f) == ValidFields(f.(description := description))
  {
    AmountFitsDigits(f.amount);
  }

  /** `str` of a two-place decimal: optional minus, integer part, point, two digits. */
  function FormatAmount(c: Cents): (s: string)
    ensures |s| >= 4 && s[|s| - 3] == '.'
    ensures (s[0] == '-') <==> c < 0
    ensures var w := s[(if c < 0 then 1 else 0)..|s| - 3];
            && AllDigits(s[|s| - 2..])
            && w != [] && AllDigits(w) && (|w| > 1 ==> w[0] != '0')
  {
    var t := MagnitudeText(if c < 0 then -c else c);
    if c < 0 then
      assert ("-" + t)[1..|t| + 1 - 3] == t[..|t| - 3];
      assert ("-" + t)[|t| + 1 - 2..] == t[|t| - 2..];
      "-" + t
    else t
  }

  /** The unsigned part: the whole units without leading zeros, a point, two digits. */
  function MagnitudeText(m: nat): (s: string)
    ensures |s| >= 4 && s[|s| - 3] == '.' && IsDigit(s[0])
    ensures var w := s[..|s| - 3];
            && AllDigits(s[|s| - 2..])
            && w != [] && AllDigits(w) && (|w| > 1 ==> w[0] != '0')
  {
    var s := NumeralOf(m / 100) + "." + PadDigits(m % 100, 2);
    assert s[..|s| - 3] == NumeralOf(m / 100);
    assert s[|s| - 2..] == PadDigits(m % 100, 2);
    s
  }

  /** Reads a rendered amount back into cents: an optional minus, then the magnitude. */
  function ParseAmount(s: string): (r: Option<Cents>)
  {
    if |s| > 0 && s[0] == '-' then
      match ParseMagnitude(s[1..])
      case None => None
      case Some(m) => Some(-(m as int))
    else ParseMagnitude(s)
  }

  /** Digits, a point and exactly two more digits, read as cents. */
  function ParseMagnitude(s: string): (r: Option<nat>)
  {
    if |s| < 4 || s[|s| - 3] != '.' then None
    else
      var whole := s[..|s| - 3];
      var frac := s[|s| - 2..];
      if !AllDigits(whole) || !AllDigits(frac) then None
      else Some(ValueOf(whole) * 100 + ValueOf(frac))
  }

  lemma ParseMagnitudeParts(whole: string, frac: string)
    requires whole != [] && AllDigits(whole) && |frac| == 2 && AllDigits(frac)
    ensures ParseMagnitude(whole + "." + frac) == Some(ValueOf(whole) * 100 + ValueOf(frac))
  {
    var s := whole + "." + frac;
    assert s[|s| - 3] == '.';
    assert s[..|s| - 3] == whole;
    assert s[|s| - 2..] == frac;
  }

  /** The unsigned part of a rendering reads back as the magnitude in cents. */
  lemma MagnitudeRoundTrip(m: nat)
    ensures ParseMagnitude(MagnitudeText(m)) == Some(m)
  {
    ParseMagnitudeParts(NumeralOf(m / 100), PadDigits(m % 100, 2));
    NumeralRoundTrip(m / 100);
    PadDigitsRoundTrip(m % 100, 2);
  }

  lemma ParseNegative(t: string, m: nat)
    requires ParseMagnitude(t) == Some(m)
    ensures ParseAmount("-" + t) == Some(-(m as int))
  {
    assert ("-" + t)[1..] == t;
  }

  lemma ParseUnsigned(t: string, m: nat)
    requires |t| > 0 && IsDigit(t[0]) && ParseMagnitude(t) == Some(m)
    ensures ParseAmount(t) == Some(m)
  {
  }

  lemma AmountRoundTrip(c: Cents)
    ensures ParseAmount(FormatAmount(c)) == Some(c)
  {
    if c < 0 {
      MagnitudeRoundTrip(-c);
      ParseNegative(MagnitudeText(-c), -c);
    } else {
      MagnitudeRoundTrip(c);
      ParseUnsigned(MagnitudeText(c), c);
    }
  }

  /** The rupee sign, U+20B9. */
  const RupeeSign: char := '\U{20B9}'

  /**
   * The three characters the rendering literal holds as written: the UTF-8
   * bytes of the rupee sign read back as Windows-1252 text.
   */
  const RupeeSignAsWritten: string := ['\U{00E2}', '\U{201A}', '\U{00B9}']

  /** The `__str__` layout of an expense: date, " - ", symbol, amount, " - ", category. */
  function Layout(date: string, symbol: string, amount: string, category: string): string
  {
    date + " - " + symbol + amount + " - " + category
  }

  /** Where each part sits in the layout. */
  lemma LayoutParts(date: string, symbol: string, amount: string, category: string)
    ensures var s := Layout(date, symbol, amount, category);
            var k := |date| + 3 + |symbol|;
            && |s| == k + |amount| + 3 + |category|
            && s[..|date|] == date && s[|date|..|date| + 3] == " - "
            && s[|date| + 3..k] == symbol && s[k..k + |amount|] == amount
            && s[k + |amount|..k + |amount| + 3] == " - " && s[k + |amount| + 3..] == category
  {
  }

  /**
   * Putting a three-character symbol in place of a one-character one after a
   * ten-character date leaves the rest of the text as it was.
   */
  lemma SymbolSwap(date: string, symbol: string, c: char, amount: string, category: string)
    requires |date| == 10 && |symbol| == 3
    ensures var t := Layout(date, [c], amount, category);
            Layout(date, symbol, amount, category) == t[..13] + symbol + t[14..]
  {
    var s := Layout(date, symbol, amount, category);
    var t := Layout(date, [c], amount, category);
    LayoutParts(date, symbol, amount, category);
    LayoutParts(date, [c], amount, category);
    assert t[..13] == s[..13];
    assert t[14..] == s[16..];
    assert s == s[..13] + s[13..16] + s[16..];
  }

  /** `str(expense)` as written: the layout with the literal as written for the symbol. */
  function ExpenseStrAsWritten(e: Expense): (s: string)
    requires ValidDate(e.date)
    ensures |s| > 16 && s[13..16] == RupeeSignAsWritten
    ensures s == ExpenseStr(e)[..13] + RupeeSignAsWritten + ExpenseStr(e)[14..]
  {
    LayoutParts(FormatIsoDate(e.date), RupeeSignAsWritten, FormatAmount(e.amount), e.category);
    SymbolSwap(FormatIsoDate(e.date), RupeeSignAsWritten, RupeeSign, FormatAmount(e.amount), e.category);
    Layout(FormatIsoDate(e.date), RupeeSignAsWritten, FormatAmount(e.amount), e.category)
  }

  /** `str(expense)` with the currency symbol the literal is meant to hold. */
  function ExpenseStr(e: Expense): (s: string)
    requires ValidDate(e.date)
    ensures |s| > 14 && s[10..14] == [' ', '-', ' ', RupeeSign]
  {
    LayoutParts(FormatIsoDate(e.date), [RupeeSign], FormatAmount(e.amount), e.category);
    Layout(FormatIsoDate(e.date), [RupeeSign], FormatAmount(e.amount), e.category)
  }

  /** The as-written rendering never shows the rupee sign where the symbol belongs. */
  lemma ExpenseStrAsWrittenLacksRupeeSign(e: Expense)
    requires ValidDate(e.date)
    ensures ExpenseStrAsWritten(e)[13] != RupeeSign
    ensures ExpenseStrAsWritten(e) != ExpenseStr(e)
  {
    assert ExpenseStrAsWritten(e)[13] == '\U{00E2}';
  }

  lemma SampleYearRendering()
    ensures PadDigits(2024, 4) == "2024"
  {
    assert DigitChar(0) == '0' && DigitChar(2) == '2' && DigitChar(4) == '4';
    assert PadDigits(2, 1) == "2";
    assert PadDigits(20, 2) == "20";
    assert PadDigits(202, 3) == "202";
  }

  lemma SampleDateRendering()
    ensures FormatIsoDate(Date(2024, 1, 5)) == "2024-01-05"
  {
    SampleYearRendering();
    assert DigitChar(0) == '0' && DigitChar(1) == '1' && DigitChar(5) == '5';
    assert PadDigits(0, 1) == "0";
    assert PadDigits(1, 2) == "01";
    assert PadDigits(5, 2) == "05";
  }

  lemma SampleWholeUnits()
    ensures NumeralOf(12) == "12"
  {
    assert DigitChar(1) == '1' && DigitChar(2) == '2';
    assert NumeralOf(1) == "1";
  }

  lemma SampleCents()
    ensures PadDigits(50, 2) == "50"
  {
    assert DigitChar(0) == '0' && DigitChar(5) == '5';
    assert PadDigits(5, 1) == "5";
  }

  lemma SampleAmountRendering()
    ensures FormatAmount(1250) == "12.50"
  {
    SampleWholeUnits();
    SampleCents();
    assert 1250 / 100 == 12 && 1250 % 100 == 50;
    assert FormatAmount(1250) == MagnitudeText(1250) == NumeralOf(12) + "." + PadDigits(50, 2);
  }

  /** The expense of 12.50 for "Food" on 2024-01-05, rendered as written. */
  lemma ExpenseStrAsWrittenExample()
    ensures ExpenseStrAsWritten(Expense(1, Date(2024, 1, 5), 1250, "Food", ""))
            == "2024-01-05 - \U{00E2}\U{201A}\U{00B9}12.50 - Food"
  {
    SampleDateRendering();
    SampleAmountRendering();
    var e := Expense(1, Date(2024, 1, 5), 1250, "Food", "");
    assert ExpenseStrAsWritten(e) == Layout("2024-01-05", RupeeSignAsWritten, "12.50", "Food");
    SampleLayoutAsWritten();
  }

  /** The same expense rendered with the rupee sign. */
  lemma ExpenseStrExample()
    ensures ExpenseStr(Expense(1, Date(2024, 1, 5), 1250, "Food", "")) == "2024-01-05 - \U{20B9}12.50 - Food"
  {
    SampleDateRendering();
    SampleAmountRendering();
    var e := Expense(1, Date(2024, 1, 5), 1250, "Food", "");
    assert ExpenseStr(e) == Layout("2024-01-05", [RupeeSign], "12.50", "Food");
    SampleLayout();
  }

  lemma SampleLayoutAsWritten()
    ensures Layout("2024-01-05", RupeeSignAsWritten, "12.50", "Food")
            == "2024-01-05 - \U{00E2}\U{201A}\U{00B9}12.50 - Food"
  {
  }

  lemma SampleLayout()
    ensures Layout("2024-01-05", [RupeeSign], "12.50", "Food") == "2024-01-05 - \U{20B9}12.50 - Food"
  {
  }

  /**
   * The corrected rendering carries every rendered field recoverably: the
   * first ten characters read back as the date, the symbol is the single
   * rupee sign, the amount text after it reads back as the amount, and the
   * text ends with the category.
   */
  lemma ExpenseStrFields(e: Expense)
    requires ValidDate(e.date)
    ensures var s := ExpenseStr(e);
            var n := |FormatAmount(e.amount)|;
            && |s| == 17 + n + |e.category|
            && ParseIsoDate(s[..10]) == Some(e.date)
            && s[13] == RupeeSign
            && ParseAmount(s[14..14 + n]) == Some(e.amount)
            && s[14 + n..17 + n] == " - "
            && s[17 + n..] == e.category
  {
    LayoutParts(FormatIsoDate(e.date), [RupeeSign], FormatAmount(e.amount), e.category);
    ParseFormatRoundTrip(e.date);
    AmountRoundTrip(e.amount);
  }

  // ----------------------------------------------------------- ViewPassword

  const PasswordMaxLength: nat := 100
  const LabelMaxLength: nat := 100

  /** A shared viewing password; `createdAt` is the insertion timestamp. */
  datatype ViewPassword = ViewPassword(id: int, password: string, labelText: string, createdAt: int, isActive: bool)

  /** The length limits and required-ness of the two text fields. */
  predicate ValidPasswordFields(password: string, labelText: string) {
    1 <= |password| <= PasswordMaxLength && 1 <= |labelText| <= LabelMaxLength
  }

  /** The unique constraint on the password column, over active and inactive rows alike. */
  predicate UniquePasswords(t: seq<ViewPassword>) {
    forall i, j :: 0 <= i < j < |t| ==> t[i].password != t[j].password
  }

  /** Every row within the length limits of its two text fields. */
  predicate AllPasswordFieldsValid(t: seq<ViewPassword>) {
    forall i :: 0 <= i < |t| ==> ValidPasswordFields(t[i].password, t[i].labelText)
  }

  predicate HasPassword(t: seq<ViewPassword>, password: string) {
    exists i :: 0 <= i < |t| && t[i].password == password
  }

  /**
   * Inserting a row with a fresh key `id` at time `now`. A password already
   * present violates the unique constraint: the insert is rejected and the
   * table stays as it was. Otherwise the new row is appended, active.
   */
  function CreateViewPassword(t: seq<ViewPassword>, id: int, password: string, labelText: string, now: int)
    : (r: Option<seq<ViewPassword>>)
    requires forall i :: 0 <= i < |t| ==> t[i].id != id
    ensures r.None? <==> HasPassword(t, password)
    ensures r.Some? ==> |r.value| == |t| + 1 && r.value[..|t|] == t
    ensures r.Some? ==> var p := r.value[|t|];
              p.id == id && p.password == password && p.labelText == labelText && p.createdAt == now && p.isActive
    ensures r.Some? && UniquePasswords(t) ==> UniquePasswords(r.value)
    ensures r.Some? && AllPasswordFieldsValid(t) ==>
              (AllPasswordFieldsValid(r.value) <==> ValidPasswordFields(password, labelText))
  {
    if HasPassword(t, password) then None
    else Some(t + [ViewPassword(id, password, labelText, now, true)])
  }

  /** Under the unique constraint a password string picks out at most one row. */
  lemma PasswordLookupIsUnique(t: seq<ViewPassword>, password: string, i: int, j: int)
    requires UniquePasswords(t)
    requires 0 <= i < |t| && 0 <= j < |t|
    requires t[i].password == password && t[j].password == password
    ensures i == j
  {
  }

  /** The default ordering: newest first by creation time. */
  function NewestFirstKey(p: ViewPassword): Key {
    [-p.createdAt]
  }

  function ListViewPasswords(t: seq<ViewPassword>): (r: seq<ViewPassword>)
    ensures multiset(r) == multiset(t)
    ensures forall i, j :: 0 <= i < j < |r| ==> r[i].createdAt >= r[j].createdAt
  {
    SortBySorted(t, NewestFirstKey);
    SortBy(t, NewestFirstKey)
  }

  /** `str(view_password)`: the label, " - ", the password. */
  function ViewPasswordStr(p: ViewPassword): (s: string)
    ensures |s| == |p.labelText| + 3 + |p.password|
    ensures s[..|p.labelText|] == p.labelText && s[|s| - |p.password|..] == p.password
    ensures s[|p.labelText|..|p.labelText| + 3] == " - "
  {
    p.labelText + " - " + p.password
  }
}
