/** The checks and conversions the form handlers apply to what the user
    types or clicks: phone and email acceptance, the employee count and
    budget parsing, the callback-to-label maps and the template choice. */
module FormInput {
  import opened Wrappers
  import opened Text
  import opened Money

  // ---------------------------------------------------------------------------
  // Phone: ^[\d\s\-\+\(\)]+$ on the stripped text
  // ---------------------------------------------------------------------------

  predicate IsPhoneChar(c: char) {
    IsDigit(c) || IsSpace(c) || c == '-' || c == '+' || c == '(' || c == ')'
  }

  /** The pattern scan: every character is one the phone pattern allows. */
  predicate PhoneChars(s: string)
    decreases |s|
  {
    |s| == 0 || (IsPhoneChar(s[0]) && PhoneChars(s[1..]))
  }

  /** The phone as stored, or `None` when the handler rejects it: the
      stripped text must be non-empty and made only of digits, whitespace,
      `-`, `+`, `(` and `)`. */
  function AcceptPhone(text: string): (r: Option<string>)
    ensures r.Some? <==> |Strip(text)| > 0 && forall i :: 0 <= i < |Strip(text)| ==> IsPhoneChar(Strip(text)[i])
    ensures r.Some? ==> r.value == Strip(text)
  {
    var phone := Strip(text);
    PhoneCharsIff(phone);
    if |phone| > 0 && PhoneChars(phone) then Some(phone) else None
  }

  lemma {:induction false} PhoneCharsIff(s: string)
    ensures PhoneChars(s) <==> forall i :: 0 <= i < |s| ==> IsPhoneChar(s[i])
    decreases |s|
  {
    if |s| > 0 {
      PhoneCharsIff(s[1..]);
      assert forall i :: 1 <= i < |s| ==> s[i] == s[1..][i - 1];
    }
  }

  /** A stored phone is accepted again unchanged. */
  lemma AcceptPhoneStable(text: string)
    requires AcceptPhone(text).Some?
    ensures AcceptPhone(AcceptPhone(text).value) == AcceptPhone(text)
  {
    var p := Strip(text);
    StripUnspaced(p);
  }

  /** A typical number with surrounding blanks is stored without them. */
  lemma PhoneAccepted()
    ensures AcceptPhone(" +7 (999) 123-45-67 ") == Some("+7 (999) 123-45-67")
  {
    var m := "+7 (999) 123-45-67";
    assert " +7 (999) 123-45-67 " == " " + m + " ";
    assert forall i :: 0 <= i < |m| ==> IsPhoneChar(m[i]);
    PhoneAcceptedAround(m);
  }

  lemma PhoneAcceptedAround(m: string)
    requires |m| > 0 && forall i :: 0 <= i < |m| ==> IsPhoneChar(m[i])
    requires !IsSpace(m[0]) && !IsSpace(m[|m| - 1])
    ensures AcceptPhone(" " + m + " ") == Some(m)
  {
    StripAround(m);
  }

  /** A blank text and a text with letters are rejected. */
  lemma PhoneRejected()
    ensures AcceptPhone("   ") == None
    ensures AcceptPhone("8-800-CALL") == None
  {
    StripEmptyIff("   ");
    var u := "8-800-CALL";
    StripUnspaced(u);
    assert !IsPhoneChar(u[6]);
  }

  /** One blank on each side of an unspaced text is stripped. */
  lemma StripAround(m: string)
    requires |m| > 0 && !IsSpace(m[0]) && !IsSpace(m[|m| - 1])
    ensures Strip(" " + m + " ") == m
  {
    var t := " " + m + " ";
    assert LeadingSpaces(t[1..]) == 0 by { assert t[1..][0] == m[0]; }
    assert LeadingSpaces(t) == 1;
    assert TrailingSpaces(t) == 1 by {
      assert t[..|t| - 1] == " " + m;
      assert t[|t| - 2] == m[|m| - 1];
    }
    assert t[1..1 + |m|] == m;
  }

  // ---------------------------------------------------------------------------
  // Email: ^[a-zA-Z0-9._%+-]+@[a-zA-Z0-9.-]+\.[a-zA-Z]{2,}$ on the stripped text
  // ---------------------------------------------------------------------------

  predicate IsLocalChar(c: char) {
    IsAsciiLetter(c) || IsDigit(c) || c == '.' || c == '_' || c == '%' || c == '+' || c == '-'
  }

  predicate IsDomainChar(c: char) {
    IsAsciiLetter(c) || IsDigit(c) || c == '.' || c == '-'
  }

  /** The pattern matches `e` with the `@` at `a` and the dot before the
      final label at `p`: a non-empty local part, a non-empty domain and a
      final label of at least two ASCII letters. */
  ghost predicate EmailSplitAt(e: string, a: int, p: int) {
    && 1 <= a && a + 1 < p && p + 3 <= |e|
    && e[a] == '@' && e[p] == '.'
    && (forall i :: 0 <= i < a ==> IsLocalChar(e[i]))
    && (forall i :: a < i < p ==> IsDomainChar(e[i]))
    && (forall i :: p < i < |e| ==> IsAsciiLetter(e[i]))
  }

  /** The reading of the pattern: some placement of `@` and the final dot
      makes it match. */
  ghost predicate MatchesEmailPattern(e: string) {
    exists a, p :: EmailSplitAt(e, a, p)
  }

  /** The index of the first `c` in `s`. */
  function IndexOf(s: string, c: char): (r: Option<nat>)
    ensures r.Some? ==> r.value < |s| && s[r.value] == c && forall k :: 0 <= k < r.value ==> s[k] != c
    ensures r.None? ==> c !in s
    decreases |s|
  {
    if |s| == 0 then None
    else if s[0] == c then Some(0)
    else match IndexOf(s[1..], c)
      case None => None
      case Some(k) => Some(k + 1)
  }

  /** The index of the last `c` in `s`. */
  function LastIndexOf(s: string, c: char): (r: Option<nat>)
    ensures r.Some? ==> r.value < |s| && s[r.value] == c && forall k :: r.value < k < |s| ==> s[k] != c
    ensures r.None? ==> c !in s
    decreases |s|
  {
    if |s| == 0 then None
    else if s[|s| - 1] == c then Some(|s| - 1)
    else LastIndexOf(s[..|s| - 1], c)
  }

  /** The email check as a direct scan: take the first `@` and the last
      dot and check the three parts. */
  predicate ValidEmail(e: string) {
    match (IndexOf(e, '@'), LastIndexOf(e, '.'))
    case (Some(a), Some(p)) =>
      && 1 <= a && a + 1 < p && p + 3 <= |e|
      && (forall i :: 0 <= i < a ==> IsLocalChar(e[i]))
      && (forall i :: a < i < p ==> IsDomainChar(e[i]))
      && (forall i :: p < i < |e| ==> IsAsciiLetter(e[i]))
    case _ => false
  }

  /** The scan accepts exactly the texts the pattern matches: no part of
      the pattern admits `@`, so the `@` is the first one, and the final
      label admits no dot, so its dot is the last one. */
  lemma ValidEmailIff(e: string)
    ensures ValidEmail(e) <==> MatchesEmailPattern(e)
  {
    if ValidEmail(e) {
      var a := IndexOf(e, '@').value;
      var p := LastIndexOf(e, '.').value;
      assert EmailSplitAt(e, a, p);
    }
    if MatchesEmailPattern(e) {
      var a, p :| EmailSplitAt(e, a, p);
      var fa := IndexOf(e, '@');
      var lp := LastIndexOf(e, '.');
      assert fa == Some(a) by {
        assert e[a] == '@';
        assert forall k :: 0 <= k < |e| && k != a ==> e[k] != '@';
      }
      assert lp == Some(p) by {
        assert e[p] == '.';
        assert forall k :: p < k < |e| ==> e[k] != '.';
      }
    }
  }

  /** The email as stored, or `None` when the handler rejects it. */
  function AcceptEmail(text: string): (r: Option<string>)
    ensures r.Some? <==> MatchesEmailPattern(Strip(text))
    ensures r.Some? ==> r.value == Strip(text)
  {
    var email := Strip(text);
    ValidEmailIff(email);
    if ValidEmail(email) then Some(email) else None
  }

  /** An address assembled from a valid local part, domain and final
      label matches the pattern. */
  lemma EmailAssembled(local: string, domain: string, tld: string)
    requires |local| >= 1 && |domain| >= 1 && |tld| >= 2
    requires forall i :: 0 <= i < |local| ==> IsLocalChar(local[i])
    requires forall i :: 0 <= i < |domain| ==> IsDomainChar(domain[i])
    requires forall i :: 0 <= i < |tld| ==> IsAsciiLetter(tld[i])
    ensures EmailSplitAt(local + "@" + domain + "." + tld, |local|, |local| + 1 + |domain|)
  {
    var e := local + "@" + domain + "." + tld;
    var a := |local|;
    var p := |local| + 1 + |domain|;
    forall i | 0 <= i < a ensures IsLocalChar(e[i]) {
      assert e[i] == local[i];
    }
    forall i | a < i < p ensures IsDomainChar(e[i]) {
      assert e[i] == domain[i - a - 1];
    }
    forall i | p < i < |e| ensures IsAsciiLetter(e[i]) {
      assert e[i] == tld[i - p - 1];
    }
  }

  lemma EmailAccepted()
    ensures AcceptEmail("ivan.petrov@mail.ru").Some?
  {
    var e := "ivan.petrov@mail.ru";
    StripUnspaced(e);
    assert e == "ivan.petrov" + "@" + "mail" + "." + "ru";
    EmailAssembled("ivan.petrov", "mail", "ru");
  }

  /** A one-letter final label is rejected. */
  lemma EmailShortLabelRejected()
    ensures AcceptEmail("ivan@mail.r").None?
  {
    var e := "ivan@mail.r";
    StripUnspaced(e);
    assert IndexOf(e, '@') == Some(4);
    assert LastIndexOf(e, '.') == Some(9);
    ValidEmailIff(e);
  }

  /** A second `@` is rejected. */
  lemma EmailTwoAtsRejected()
    ensures AcceptEmail("ivan@@mail.ru").None?
  {
    var e := "ivan@@mail.ru";
    StripUnspaced(e);
    assert IndexOf(e, '@') == Some(4);
    assert !IsDomainChar(e[5]);
    ValidEmailIff(e);
  }

  // ---------------------------------------------------------------------------
  // Positive integers: employee count and budget
  // ---------------------------------------------------------------------------

  /** `int(text.strip())`, rejected when not positive. */
  function AcceptEmployees(text: string): (r: Option<int>)
    ensures r.Some? <==> ParseInt(text).Some? && ParseInt(text).value > 0
    ensures r.Some? ==> r.value == ParseInt(text).value
  {
    StripIdempotent(text);
    match ParseInt(Strip(text))
    case Some(n) => if n > 0 then Some(n) else None
    case None => None
  }

  /** `strip()` twice is `strip()` once. */
  lemma StripIdempotent(s: string)
    ensures Strip(Strip(s)) == Strip(s)
  {
    if |Strip(s)| > 0 {
      StripUnspaced(Strip(s));
    }
  }

  /** Every positive count is accepted from its own decimal text, and
      nothing else is accepted from the text of a number. */
  lemma AcceptEmployeesOfString(n: int)
    ensures AcceptEmployees(IntToString(n)) == if n > 0 then Some(n) else None
  {
    ParseIntOfString(n);
  }

  /** `int(text.strip().replace(' ', '').replace(',', ''))`, rejected when not
      positive. */
  function AcceptBudget(text: string): (r: Option<int>)
    ensures r.Some? ==> r.value > 0
    ensures r.Some? <==>
      var cleaned := RemoveChar(RemoveChar(Strip(text), ' '), ',');
      ParseInt(cleaned).Some? && ParseInt(cleaned).value > 0
    ensures r.Some? ==> r.value == ParseInt(RemoveChar(RemoveChar(Strip(text), ' '), ',')).value
  {
    var cleaned := RemoveChar(RemoveChar(Strip(text), ' '), ',');
    match ParseInt(cleaned)
    case Some(n) => if n > 0 then Some(n) else None
    case None => None
  }

  /** A budget typed the way the deck shows money, grouped with spaces,
      reads back as the amount. */
  lemma AcceptBudgetOfAmount(n: int)
    requires n > 0
    ensures AcceptBudget(Amount(n)) == Some(n)
  {
    var a := Amount(n);
    assert FormatMoney(n) == a + Suffix;
    assert IsDigit(a[0]);
    assert a[|a| - 1] == NatToString(n)[|NatToString(n)| - 1] by {
      GroupLast(NatToString(n));
    }
    StripUnspaced(a);
    assert RemoveChar(a, ' ') == IntToString(n);
    RemoveAbsentChar(IntToString(n), ',');
    ParseIntOfString(n);
  }

  /** Grouping keeps the last digit last. */
  lemma {:induction false} GroupLast(ds: string)
    requires |ds| > 0
    ensures |GroupDigits(ds, ' ')| > 0 && GroupDigits(ds, ' ')[|GroupDigits(ds, ' ')| - 1] == ds[|ds| - 1]
    decreases |ds|
  {
  }

  /** The budget may be typed with spaces and commas between the digits. */
  lemma BudgetGrouped()
    ensures AcceptBudget("1 000,000") == Some(1000000)
  {
    var t := "1 000,000";
    GroupedBudgetCleaned();
    Million();
    AcceptBudgetOf(t, "1000000", 1000000);
  }

  lemma AcceptBudgetOf(t: string, cleaned: string, n: int)
    requires RemoveChar(RemoveChar(Strip(t), ' '), ',') == cleaned
    requires ParseInt(cleaned) == Some(n) && n > 0
    ensures AcceptBudget(t) == Some(n)
  {
  }

  lemma GroupedBudgetCleaned()
    ensures RemoveChar(RemoveChar(Strip("1 000,000"), ' '), ',') == "1000000"
  {
    StripUnspaced("1 000,000");
    GroupedBudgetSpaces();
    GroupedBudgetCommas();
  }

  lemma GroupedBudgetSpaces()
    ensures RemoveChar("1 000,000", ' ') == "1000,000"
  {
    assert "1 000,000" == "1" + [' '] + "000,000";
    RemoveOneSeparator("1", "000,000", ' ');
  }

  lemma GroupedBudgetCommas()
    ensures RemoveChar("1000,000", ',') == "1000000"
  {
    assert "1000,000" == "1000" + [','] + "000";
    RemoveOneSeparator("1000", "000", ',');
  }

  lemma Million()
    ensures ParseInt("1000000") == Some(1000000)
  {
    assert IntToString(1000000) == "1000000" by {
      assert NatToString(1) == "1";
      assert NatToString(10) == "10";
      assert NatToString(100) == "100";
      assert NatToString(1000) == "1000";
      assert NatToString(10000) == "10000";
      assert NatToString(100000) == "100000";
    }
    ParseIntOfString(1000000);
  }

  /** Zero and negative budgets are rejected. */
  lemma BudgetNotPositive()
    ensures AcceptBudget("0") == None
    ensures AcceptBudget("-5 000") == None
  {
    BudgetZero();
    BudgetNegative();
  }

  lemma BudgetZero()
    ensures AcceptBudget("0") == None
  {
    StripUnspaced("0");
    RemoveAbsentChar("0", ' ');
    RemoveAbsentChar("0", ',');
  }

  lemma BudgetNegative()
    ensures AcceptBudget("-5 000") == None
  {
    var u := "-5 000";
    StripUnspaced(u);
    NegativeBudgetCleaned();
    RemoveAbsentChar("-5000", ',');
    StripUnspaced("-5000");
  }

  lemma NegativeBudgetCleaned()
    ensures RemoveChar("-5 000", ' ') == "-5000"
  {
    assert "-5 000" == "-5" + [' '] + "000";
    RemoveOneSeparator("-5", "000", ' ');
  }

  // ---------------------------------------------------------------------------
  // Callback maps and the template choice
  // ---------------------------------------------------------------------------

  const NotSpecified: string := "Не указано"

  const ServiceLabels: map<string, string> := map[
    "service_hr" := "HR-автоматизация",
    "service_docs" := "Документооборот",
    "service_both" := "HR-автоматизация + Документооборот"]

  const PeriodLabels: map<string, string> := map[
    "period_1" := "1 месяц",
    "period_2_3" := "2-3 месяца",
    "period_4_6" := "4-6 месяцев"]

  /** `m.get(key, 'Не указано')`. */
  function LabelOr(m: map<string, string>, key: string): (r: string)
    ensures key in m ==> r == m[key]
    ensures key !in m ==> r == NotSpecified
  {
    if key in m then m[key] else NotSpecified
  }

  /** The service label: `Не указано` exactly for the unknown callbacks, and
      distinct callbacks give distinct labels. */
  function ServiceLabel(data: string): (r: string)
    ensures r == NotSpecified <==> data !in ServiceLabels
    ensures forall d :: d in ServiceLabels && d != data && data in ServiceLabels ==> ServiceLabels[d] != r
  {
    LabelOr(ServiceLabels, data)
  }

  /** The implementation period label, with the same default. */
  function PeriodLabel(data: string): (r: string)
    ensures r == NotSpecified <==> data !in PeriodLabels
    ensures forall d :: d in PeriodLabels && d != data && data in PeriodLabels ==> PeriodLabels[d] != r
  {
    LabelOr(PeriodLabels, data)
  }

  /** `callback.data.split("_")[1]`: the text between the first and the second
      underscore (or the end), and nothing when there is no underscore, where
      the source raises. */
  function TemplateChoice(data: string): (r: Option<string>)
    ensures r.Some? <==> '_' in data
    ensures r.Some? ==> '_' !in r.value
  {
    var parts := Split(data, '_');
    SplitCount(data, '_');
    if |parts| >= 2 then Some(parts[1]) else None
  }

  /** A text splits into one piece exactly when it has no separator. */
  lemma {:induction false} SplitCount(s: string, sep: char)
    ensures |Split(s, sep)| == 1 <==> sep !in s
    decreases |s|
  {
    if |s| > 0 {
      SplitCount(s[1..], sep);
      assert s == [s[0]] + s[1..];
    }
  }

  /** Splitting a separator-free prefix followed by `s` glues the prefix to
      the first piece of `s`. */
  lemma {:induction false} SplitPrefix(p: string, s: string, sep: char)
    requires sep !in p
    ensures Split(p + s, sep) == [p + Split(s, sep)[0]] + Split(s, sep)[1..]
    decreases |p|
  {
    if |p| > 0 {
      var parts := Split(s, sep);
      assert (p + s)[1..] == p[1..] + s;
      SplitPrefix(p[1..], s, sep);
      var rest := Split(p[1..] + s, sep);
      assert rest[0] == p[1..] + parts[0];
      assert rest[1..] == parts[1..];
      assert (p + s)[0] == p[0] && p[0] != sep;
      assert Split(p + s, sep) == [[p[0]] + rest[0]] + rest[1..];
      assert [p[0]] + (p[1..] + parts[0]) == p + parts[0];
    } else {
      assert p + s == s;
      assert p == [];
      assert p + Split(s, sep)[0] == Split(s, sep)[0];
      assert Split(s, sep) == [Split(s, sep)[0]] + Split(s, sep)[1..];
    }
  }

  /** The chosen type is the field after the first underscore, whatever
      follows it after a further underscore. */
  lemma TemplateChoiceOf(prefix: string, field: string, rest: string)
    requires '_' !in prefix && '_' !in field
    requires rest == [] || rest[0] == '_'
    ensures TemplateChoice(prefix + "_" + field + rest) == Some(field)
  {
    var tail := field + rest;
    SplitPrefix(field, rest, '_');
    if rest == [] {
      assert Split(rest, '_') == [""];
    } else {
      assert Split(rest, '_')[0] == "";
    }
    assert Split(tail, '_')[0] == field;
    var u := "_" + tail;
    assert Split(u, '_') == [""] + Split(tail, '_') by {
      assert u[0] == '_';
      assert u[1..] == tail;
    }
    SplitPrefix(prefix, u, '_');
    var parts := Split(prefix + u, '_');
    assert parts == [prefix + ""] + Split(tail, '_');
    assert parts[1] == field;
    assert prefix + "_" + field + rest == prefix + u;
  }

  /** The two buttons of the template question. */
  lemma TemplateChoiceButtons()
    ensures TemplateChoice("template_long") == Some("long")
    ensures TemplateChoice("template_short") == Some("short")
  {
    TemplateChoiceOf("template", "long", "");
    assert "template" + "_" + "long" + "" == "template_long";
    TemplateChoiceOf("template", "short", "");
    assert "template" + "_" + "short" + "" == "template_short";
  }
}
