// The custom fields of a checkout form: what each type accepts, and the loop that checks them.
module FormFields {

  import opened Options
  import opened TextLines

  datatype FieldType = ShortText | LongText | Radio | Multiselect | Select | Checkbox | DateField | EmailField | Phone

  datatype FieldId = FieldId(text: string)

  datatype Field = Field(id: FieldId, kind: FieldType, required: bool, options: seq<string>)

  datatype FieldProblem = AnswerMissing | AnswerTooLong | AnswerInvalid

  const TEXT_MAX: nat := 200
  const TEXTAREA_MAX: nat := 2000
  const CHECKBOX_YES: string := "\U{306F}\U{3044}"

  // ---- single values ----

  predicate IsDigit(c: char) {
    '0' <= c <= '9'
  }

  // Neither white space nor an at sign.
  predicate Clean(c: char) {
    c != '@' && !IsSpace(c)
  }

  predicate AllClean(s: string) {
    s != "" && forall i :: 0 <= i < |s| ==> Clean(s[i])
  }

  // One at sign, and a dot with something on both sides of it in what follows.
  predicate IsEmail(s: string) {
    exists at, dot :: 0 < at && at + 1 < dot < |s| - 1 && s[at] == '@' && s[dot] == '.' && CleanBut(s, at)
  }

  predicate CleanBut(s: string, at: int) {
    forall i :: 0 <= i < |s| && i != at ==> Clean(s[i])
  }

  predicate IsPhone(s: string) {
    6 <= |s| <= 30 && forall i :: 0 <= i < |s| ==> IsDigit(s[i]) || s[i] in {'+', '-', '(', ')', ' '}
  }

  function DigitAt(s: string, i: nat): (d: nat)
    requires i < |s| && IsDigit(s[i])
    ensures d < 10
  {
    s[i] as int - '0' as int
  }

  predicate DateShape(s: string) {
    && |s| == 10 && s[4] == '-' && s[7] == '-'
    && IsDigit(s[0]) && IsDigit(s[1]) && IsDigit(s[2]) && IsDigit(s[3])
    && IsDigit(s[5]) && IsDigit(s[6]) && IsDigit(s[8]) && IsDigit(s[9])
  }

  predicate IsLeap(year: nat) {
    year % 4 == 0 && (year % 100 != 0 || year % 400 == 0)
  }

  function DaysIn(year: nat, month: nat): nat {
    if month == 2 then if IsLeap(year) then 29 else 28
    else if month in {4, 6, 9, 11} then 30 else 31
  }

  predicate Calendar(year: nat, month: nat, day: nat) {
    year < 10_000 && 1 <= month <= 12 && 1 <= day <= DaysIn(year, month)
  }

  function TwoAt(s: string, i: nat): (n: nat)
    requires i + 1 < |s| && IsDigit(s[i]) && IsDigit(s[i + 1])
    ensures n < 100
  {
    10 * DigitAt(s, i) + DigitAt(s, i + 1)
  }

  // The shape of a date, and a day that exists.
  predicate IsDate(s: string) {
    DateShape(s) && Calendar(100 * TwoAt(s, 0) + TwoAt(s, 2), TwoAt(s, 5), TwoAt(s, 8))
  }

  // ---- an answer ----

  predicate DistinctTexts(ts: seq<string>) {
    forall i, j :: 0 <= i < j < |ts| ==> ts[i] != ts[j]
  }

  // Options picked, each once.
  predicate Known(f: Field, picked: seq<string>) {
    (forall i :: 0 <= i < |picked| ==> picked[i] in f.options) && DistinctTexts(picked)
  }

  predicate AnswerOk(f: Field, v: string) {
    match f.kind
    case Multiselect => Known(f, Lines(v))
    case Radio => v in f.options
    case Select => v in f.options
    case EmailField => IsEmail(v)
    case Phone => IsPhone(v)
    case DateField => IsDate(v)
    case _ => true
  }

  function Normal(f: Field, v: string): string {
    if f.kind.Checkbox? && v != "" then CHECKBOX_YES else v
  }

  function ProblemOf(f: Field, v: string): Option<FieldProblem> {
    if f.required && v == "" then Some(AnswerMissing)
    else if (f.kind.ShortText? && |v| > TEXT_MAX) || (f.kind.LongText? && |v| > TEXTAREA_MAX) then Some(AnswerTooLong)
    else if v != "" && !AnswerOk(f, v) then Some(AnswerInvalid)
    else None
  }

  predicate FieldBad(fields: seq<Field>, values: seq<string>, i: nat)
    requires |fields| == |values| && i < |fields|
  {
    ProblemOf(fields[i], Normal(fields[i], values[i])).Some?
  }

  predicate DistinctFields(fields: seq<Field>) {
    forall i, j :: 0 <= i < j < |fields| ==> fields[i].id != fields[j].id
  }

  ghost predicate CheckedUpTo(fields: seq<Field>, values: seq<string>, errors: map<FieldId, FieldProblem>,
                              answers: map<FieldId, string>, n: nat)
    requires |fields| == |values| && n <= |fields|
  {
    && (forall id <- errors :: exists i :: 0 <= i < n && fields[i].id == id && FieldBad(fields, values, i))
    && (forall i :: 0 <= i < n && FieldBad(fields, values, i) ==> fields[i].id in errors)
    && (forall i :: 0 <= i < n ==> fields[i].id in answers)
    && (DistinctFields(fields) ==> forall i :: 0 <= i < n ==>
          && answers[fields[i].id] == Normal(fields[i], values[i])
          && (FieldBad(fields, values, i)
              ==> errors[fields[i].id] == ProblemOf(fields[i], Normal(fields[i], values[i])).value))
  }

  lemma CheckedStep(fields: seq<Field>, values: seq<string>, errors: map<FieldId, FieldProblem>,
                    answers: map<FieldId, string>, n: nat)
    requires |fields| == |values| && n < |fields| && CheckedUpTo(fields, values, errors, answers, n)
    ensures var v := Normal(fields[n], values[n]);
            var p := ProblemOf(fields[n], v);
            CheckedUpTo(fields, values, if p.Some? then errors[fields[n].id := p.value]
                else errors, answers[fields[n].id := v], n + 1)
  {
    hide ProblemOf, Normal;
  }

  // The loop over the custom fields: one error per bad field, and the answers as they are sent on.
  method CheckFields(fields: seq<Field>, values: seq<string>)
    returns (errors: map<FieldId, FieldProblem>, answers: map<FieldId, string>)
    requires |fields| == |values|
    ensures CheckedUpTo(fields, values, errors, answers, |fields|)
  {
    errors, answers := map[], map[];
    assert CheckedUpTo(fields, values, errors, answers, 0);
    hide CheckedUpTo, AnswerOk;
    for n := 0 to |fields|
      invariant CheckedUpTo(fields, values, errors, answers, n)
    {
      CheckedStep(fields, values, errors, answers, n);
      var f, v := fields[n], values[n];
      if f.kind.Checkbox? {
        v := if v != "" then CHECKBOX_YES else "";
      }
      if f.required && v == "" {
        errors := errors[f.id := AnswerMissing];
      } else if (f.kind.ShortText? && |v| > TEXT_MAX) || (f.kind.LongText? && |v| > TEXTAREA_MAX) {
        errors := errors[f.id := AnswerTooLong];
      } else if v != "" && !AnswerOk(f, v) {
        errors := errors[f.id := AnswerInvalid];
      }
      answers := answers[f.id := v];
    }
  }

  // ---- what the single-value checks accept ----

  predicate IsParts(s: string, user: string, domain: string, tld: string) {
    AllClean(user) && AllClean(domain) && AllClean(tld) && s == user + "@" + domain + "." + tld
  }

  // The e-mail expression accepts exactly user@domain.tld with three clean, non-empty parts.
  lemma EmailShape(s: string)
    ensures IsEmail(s) <==> exists user, domain, tld :: IsParts(s, user, domain, tld)
  {
    if IsEmail(s) {
      var at, dot :| 0 < at && at + 1 < dot < |s| - 1 && s[at] == '@' && s[dot] == '.' && CleanBut(s, at);
      PartsOf(s, at, dot);
      assert IsParts(s, s[..at], s[at + 1..dot], s[dot + 1..]);
    }
    if user, domain, tld :| IsParts(s, user, domain, tld) {
      PartsMakeEmail(user, domain, tld);
    }
  }

  lemma PartsOf(s: string, at: nat, dot: nat)
    requires 0 < at && at + 1 < dot < |s| - 1 && s[at] == '@' && s[dot] == '.' && CleanBut(s, at)
    ensures IsParts(s, s[..at], s[at + 1..dot], s[dot + 1..])
  {
    var user, domain, tld := s[..at], s[at + 1..dot], s[dot + 1..];
    assert AllClean(user) && AllClean(domain) && AllClean(tld);
    CutTwice(s, at, dot);
    hide AllClean, CleanBut;
  }

  lemma CutTwice(s: string, at: nat, dot: nat)
    requires at < dot < |s| && s[at] == '@' && s[dot] == '.'
    ensures s == s[..at] + "@" + s[at + 1..dot] + "." + s[dot + 1..]
  {
  }

  lemma PartsMakeEmail(user: string, domain: string, tld: string)
    requires AllClean(user) && AllClean(domain) && AllClean(tld)
    ensures IsEmail(user + "@" + domain + "." + tld)
  {
    var s := user + "@" + domain + "." + tld;
    var at, dot := |user|, |user| + 1 + |domain|;
    assert s[at] == '@' && s[dot] == '.' && Clean('.');
    forall i | 0 <= i < |s| && i != at ensures Clean(s[i]) {
      if i < at {
        assert s[i] == user[i];
      } else if i < dot {
        assert s[i] == domain[i - at - 1];
      } else if i > dot {
        assert s[i] == tld[i - dot - 1];
      }
    }
    assert CleanBut(s, at);
    hide Clean;
  }

  function Digit(d: nat): char
    requires d < 10
  {
    ('0' as int + d) as char
  }

  function Two(n: nat): (s: string)
    requires n < 100
    ensures |s| == 2
  {
    [Digit(n / 10), Digit(n % 10)]
  }

  function DateText(year: nat, month: nat, day: nat): string
    requires year < 10_000 && month < 100 && day < 100
  {
    Two(year / 100) + Two(year % 100) + "-" + Two(month) + "-" + Two(day)
  }

  lemma TwoBack(s: string, i: nat)
    requires i + 1 < |s| && IsDigit(s[i]) && IsDigit(s[i + 1])
    ensures Two(TwoAt(s, i)) == s[i..i + 2]
  {
    var a, b := DigitAt(s, i), DigitAt(s, i + 1);
    assert (10 * a + b) / 10 == a && (10 * a + b) % 10 == b;
  }

  lemma TwoReads(s: string, i: nat, n: nat)
    requires n < 100 && i + 2 <= |s| && s[i..i + 2] == Two(n)
    ensures IsDigit(s[i]) && IsDigit(s[i + 1]) && TwoAt(s, i) == n
  {
    assert s[i] == s[i..i + 2][0] && s[i + 1] == s[i..i + 2][1];
  }

  lemma DateTextShape(year: nat, month: nat, day: nat)
    requires year < 10_000 && month < 100 && day < 100
    ensures var s := DateText(year, month, day);
            && |s| == 10 && s[4] == '-' && s[7] == '-'
            && s[0..2] == Two(year / 100) && s[2..4] == Two(year % 100) && s[5..7] == Two(month) && s[8..10] == Two(day)
  {
    hide Two;
  }

  // A date is accepted exactly when it is how some calendar day is written: formatting the day
  // it parses to gives it back.
  lemma DateIffWritten(s: string)
    ensures IsDate(s) <==> exists y: nat, m: nat, d: nat :: Calendar(y, m, d) && s == DateText(y, m, d)
  {
    if IsDate(s) {
      WrittenDate(s);
    }
    if y: nat, m: nat, d: nat :| Calendar(y, m, d) && s == DateText(y, m, d) {
      ReadDate(y, m, d);
    }
    hide IsDate, Calendar, DateText;
  }

  lemma WrittenDate(s: string)
    requires IsDate(s)
    ensures exists y: nat, m: nat, d: nat :: Calendar(y, m, d) && s == DateText(y, m, d)
  {
    var h, l, m, d := TwoAt(s, 0), TwoAt(s, 2), TwoAt(s, 5), TwoAt(s, 8);
    TwoBack(s, 0);
    TwoBack(s, 2);
    TwoBack(s, 5);
    TwoBack(s, 8);
    var y := 100 * h + l;
    assert y / 100 == h && y % 100 == l;
    assert s == s[0..2] + s[2..4] + "-" + s[5..7] + "-" + s[8..10];
    assert Calendar(y, m, d) && s == DateText(y, m, d);
    hide Two, TwoAt, Calendar;
  }

  lemma ReadDate(y: nat, m: nat, d: nat)
    requires Calendar(y, m, d)
    ensures m < 100 && d < 100 && IsDate(DateText(y, m, d))
  {
    var s := DateText(y, m, d);
    DateTextShape(y, m, d);
    TwoReads(s, 0, y / 100);
    TwoReads(s, 2, y % 100);
    TwoReads(s, 5, m);
    TwoReads(s, 8, d);
    assert 100 * (y / 100) + y % 100 == y;
    hide Two, TwoAt, DateText;
  }

  // Leap years up to and including this one.
  function LeapYears(year: nat): int {
    year / 4 - year / 100 + year / 400
  }

  lemma Fours(year: nat)
    requires year > 0
    ensures year / 4 == (year - 1) / 4 + if year % 4 == 0 then 1 else 0
  {
  }

  lemma Hundreds(year: nat)
    requires year > 0
    ensures year / 100 == (year - 1) / 100 + if year % 100 == 0 then 1 else 0
  {
  }

  lemma FourHundreds(year: nat)
    requires year > 0
    ensures year / 400 == (year - 1) / 400 + if year % 400 == 0 then 1 else 0
  {
  }

  lemma FourTimes(q: nat)
    ensures (4 * q) % 4 == 0
  {
  }

  lemma HundredTimes(q: nat)
    ensures (100 * q) % 100 == 0
  {
  }

  lemma HundredIsFours(year: nat)
    requires year % 100 == 0
    ensures year % 4 == 0
  {
    FourTimes(25 * (year / 100));
  }

  lemma FourHundredIsHundreds(year: nat)
    requires year % 400 == 0
    ensures year % 100 == 0
  {
    HundredTimes(4 * (year / 400));
  }

  lemma LeapTells(year: nat)
    requires year > 0
    ensures LeapYears(year) == LeapYears(year - 1) + if IsLeap(year) then 1 else 0
  {
    Fours(year);
    Hundreds(year);
    FourHundreds(year);
    if year % 100 == 0 {
      HundredIsFours(year);
    }
    if year % 400 == 0 {
      FourHundredIsHundreds(year);
    }
  }

  // The calendar: a year is a leap year exactly when the count of them goes up, and its months are
  // 31 and 30 days long in turn, starting over in August, with February apart.
  lemma CalendarTells(year: nat, month: nat)
    requires year > 0 && 1 <= month <= 12
    ensures IsLeap(year) <==> LeapYears(year) == LeapYears(year - 1) + 1
    ensures DaysIn(year, month) ==
            if month == 2 then 28 + LeapYears(year) - LeapYears(year - 1) else 30 + (month + month / 8) % 2
  {
    LeapTells(year);
    hide LeapYears, IsLeap;
  }

  // ---- a multiple choice, as it is posted ----

  // What the page posts for a choice: at least one option, none of them empty or of two lines.
  predicate Ticks(ticks: seq<string>) {
    Unbroken(ticks) && forall i :: 0 <= i < |ticks| ==> ticks[i] != ""
  }

  // What is ticked is what is checked: the answer passes exactly when every tick is an option
  // and none is ticked twice.
  lemma MultiselectIff(f: Field, ticks: seq<string>)
    requires f.kind.Multiselect? && Ticks(ticks)
    ensures ProblemOf(f, JoinLines(ticks)).None? <==> Known(f, ticks)
  {
    JoinSplits(ticks);
  }

  // ---- which check a field gets ----

  // What the check of its kind refuses.
  ghost predicate Refused(f: Field, v: string) {
    match f.kind
    case Radio => v !in f.options
    case Select => v !in f.options
    case Multiselect => Repeats(Lines(v)) || exists t <- Lines(v) :: t !in f.options
    case EmailField => !exists user, domain, tld :: IsParts(v, user, domain, tld)
    case Phone => |v| < 6 || |v| > 30 || exists i :: 0 <= i < |v| && !('0' <= v[i] <= '9') && v[i] !in "+-() "
    case DateField => !exists y: nat, m: nat, d: nat :: Calendar(y, m, d) && v == DateText(y, m, d)
    case _ => false
  }

  predicate Repeats(ts: seq<string>) {
    exists i, j :: 0 <= i < j < |ts| && ts[i] == ts[j]
  }

  lemma Signs(c: char)
    ensures c in "+-() " <==> c in {'+', '-', '(', ')', ' '}
  {
    var s := "+-() ";
    assert s[0] == '+' && s[1] == '-' && s[2] == '(' && s[3] == ')' && s[4] == ' ';
  }

  lemma PhoneRefused(v: string)
    ensures IsPhone(v) <==>
            !(|v| < 6 || |v| > 30 || exists i :: 0 <= i < |v| && !('0' <= v[i] <= '9') && v[i] !in "+-() ")
  {
    forall i | 0 <= i < |v| ensures v[i] in "+-() " <==> v[i] in {'+', '-', '(', ')', ' '} {
      Signs(v[i]);
    }
  }

  lemma PickedRefused(f: Field, picked: seq<string>)
    ensures Known(f, picked) <==> !(Repeats(picked) || exists t <- picked :: t !in f.options)
  {
    if !Repeats(picked) && forall t <- picked :: t in f.options {
      assert forall i :: 0 <= i < |picked| ==> picked[i] in picked;
    }
  }

  lemma OkIsNotRefused(f: Field, v: string)
    ensures AnswerOk(f, v) <==> !Refused(f, v)
  {
    match f.kind
    case Multiselect => PickedRefused(f, Lines(v));
    case EmailField => EmailShape(v);
    case Phone => PhoneRefused(v);
    case DateField => DateIffWritten(v);
    case _ =>
    hide IsEmail, IsDate, IsPhone, Known;
  }

  // A field is missing exactly when it is required and empty; too long above 200 characters on one
  // line and 2000 on several; invalid exactly when its kind refuses what was filled in.
  lemma FieldTells(f: Field, v: string)
    ensures var p := ProblemOf(f, Normal(f, v));
            && (p == Some(AnswerMissing) <==> f.required && v == "")
            && (p == Some(AnswerTooLong) <==> (f.kind.ShortText? && |v| > 200) || (f.kind.LongText? && |v| > 2000))
            && (p == Some(AnswerInvalid) <==> v != "" && Refused(f, v))
  {
    OkIsNotRefused(f, v);
    assert f.kind.Checkbox? ==> AnswerOk(f, CHECKBOX_YES) && !Refused(f, v);
    if !f.kind.Checkbox? {
      hide AnswerOk, Refused;
    }
  }

  // What is sent on: a ticked box as one fixed text, everything else as it came.
  lemma NormalTells(f: Field, v: string)
    ensures Normal(f, v) == if f.kind == Checkbox && v != "" then "\U{306F}\U{3044}" else v
  {
  }
}
