/** The page-side logic of the content script: reading the current company from a
    profile page, the page count of the connections list, classifying the date headings
    of a conversation, filling in a message template, the outcome of a send, and the
    request dispatcher. The page itself enters as parameters: the buttons' aria-labels,
    the pagination texts, and boolean observations of what the page shows. */
module ContentScript {
  import opened Strings
  import opened Sequences
  import opened Messages
  import Background

  // ---------------------------------------------------------------------------
  // getCompanyName

  const CompanyPrefix: string := "Current company:"
  const SkipMarker: string := ". Click to skip to experience card"

  /** A button's aria-label (`None` when it has none) that names the current company. */
  predicate IsCompanyLabel(ariaLabel: Option<string>) {
    ariaLabel.Some? && StartsWith(ariaLabel.value, CompanyPrefix)
  }

  /** The company named by such a label: the prefix removed and the rest trimmed, then cut
      before the first skip marker and trimmed again when the marker is there. */
  function ExtractCompany(ariaLabel: string): (r: string)
    requires StartsWith(ariaLabel, CompanyPrefix)
  {
    CutBefore(Trim(ReplaceFirst(ariaLabel, CompanyPrefix, "")), SkipMarker)
  }

  /** The extracted name is trimmed and never contains the skip marker. */
  lemma ExtractCompanyClean(ariaLabel: string)
    requires StartsWith(ariaLabel, CompanyPrefix)
    ensures Trimmed(ExtractCompany(ariaLabel))
    ensures forall j :: !Occurs(ExtractCompany(ariaLabel), SkipMarker, j)
  {
    CutBeforeClean(Trim(ReplaceFirst(ariaLabel, CompanyPrefix, "")), SkipMarker);
  }

  /** Label = prefix, whitespace, name, whitespace, and possibly marker and more:
      what extraction does for any prefix and marker. */
  lemma ExtractFrom(prefix: string, a: string, core: string, c: string)
    requires AllWhitespace(a) && AllWhitespace(c) && Trimmed(core)
    ensures Trim(ReplaceFirst(prefix + a + core + c, prefix, "")) == core
  {
    var rest := a + core + c;
    LeadingOf(prefix, a, core, c);
    ReplaceLeading(prefix + rest, prefix);
    assert (prefix + rest)[|prefix|..] == rest;
    TrimOf(a, core, c);
  }

  lemma LeadingOf(prefix: string, a: string, core: string, c: string)
    ensures prefix + a + core + c == prefix + (a + core + c)
  {
  }

  /** A label holding the company between whitespace, without a marker, gives the company. */
  lemma ExtractCompanyPlain(a: string, company: string, b: string)
    requires AllWhitespace(a) && AllWhitespace(b) && Trimmed(company)
    requires forall j :: !Occurs(company, SkipMarker, j)
    ensures ExtractCompany(CompanyPrefix + a + company + b) == company
  {
    ExtractFrom(CompanyPrefix, a, company, b);
    CutBeforeAbsent(company, SkipMarker);
  }

  /** A label holding the company, then the skip marker and any trailing text, gives the
      company, provided the marker first occurs where the company (and the whitespace
      after it) ends. */
  lemma ExtractCompanyCut(a: string, company: string, b: string, tail: string, c: string)
    requires AllWhitespace(a) && AllWhitespace(b) && AllWhitespace(c)
    requires company != [] && Trimmed(company) && Trimmed(SkipMarker + tail)
    requires forall j :: 0 <= j < |company + b| ==> !Occurs(company + b + SkipMarker + tail, SkipMarker, j)
    ensures ExtractCompany(CompanyPrefix + a + company + b + SkipMarker + tail + c) == company
  {
    var core := company + b + SkipMarker + tail;
    assert CompanyPrefix + a + company + b + SkipMarker + tail + c == CompanyPrefix + a + core + c;
    TrimmedJoin(company, b, SkipMarker + tail);
    assert core == company + b + (SkipMarker + tail);
    ExtractFrom(CompanyPrefix, a, core, c);
    CutBeforeAt(company, b, SkipMarker, tail);
  }

  /** `getCompanyName`: the buttons are scanned in document order and the first label
      naming the current company decides; with no such ariaLabel the result is "". */
  method GetCompanyName(labels: seq<Option<string>>) returns (company: string)
    ensures (forall i :: 0 <= i < |labels| ==> !IsCompanyLabel(labels[i])) ==> company == ""
    ensures forall k ::
      (0 <= k < |labels| && IsCompanyLabel(labels[k]) && forall i :: 0 <= i < k ==> !IsCompanyLabel(labels[i]))
      ==> company == ExtractCompany(labels[k].value)
  {
    for k := 0 to |labels|
      invariant forall i :: 0 <= i < k ==> !IsCompanyLabel(labels[i])
    {
      if IsCompanyLabel(labels[k]) {
        company := ExtractCompany(labels[k].value);
        return;
      }
    }
    company := "";
  }

  // ---------------------------------------------------------------------------
  // The page count in loadConnections

  /** `lastPage`: `Number` of the last pagination indicator's text, or 1 without any. */
  function LastPage(indicators: seq<string>): (r: JsNumber)
    ensures indicators == [] ==> r == Finite(1)
  {
    if |indicators| > 0 then ParseNumber(indicators[|indicators| - 1]) else Finite(1)
  }

  /** When the last indicator shows a number, that number is the page count; the
      indicators before it do not matter. */
  lemma LastPageReads(indicators: seq<string>, a: string, n: nat, b: string)
    requires |indicators| > 0 && indicators[|indicators| - 1] == a + Decimal(n) + b
    requires AllWhitespace(a) && AllWhitespace(b)
    ensures LastPage(indicators) == Finite(n)
  {
    ParseDecimal(a, n, b);
  }

  // ---------------------------------------------------------------------------
  // parseLinkedInDate

  const Weekdays: seq<string> := ["Sunday", "Monday", "Tuesday", "Wednesday", "Thursday", "Friday", "Saturday"]
  const Months: seq<string> := ["Jan", "Feb", "Mar", "Apr", "May", "Jun", "Jul", "Aug", "Sep", "Oct", "Nov", "Dec"]

  /** What a date heading denotes. The clock enters as parameters (today's weekday and the
      current year); a `Date` is not built. */
  datatype Heading =
    | Today
    | Yesterday
    | DaysAgo(days: nat)
    | ClockTime(hours: JsNumber, minutes: JsNumber)
    | CalendarDate(month: int, day: JsNumber, year: JsNumber)

  /** `weekdays.findIndex(day => heading.includes(day))`, looking from `from` on. */
  function FindWeekday(heading: string, from: nat): (r: int)
    requires from <= |Weekdays|
    ensures r == -1 || (from <= r < |Weekdays| && Contains(heading, Weekdays[r]))
    ensures forall j :: from <= j < |Weekdays| && (r == -1 || j < r) ==> !Contains(heading, Weekdays[j])
    decreases |Weekdays| - from
  {
    if from == |Weekdays| then -1
    else if Contains(heading, Weekdays[from]) then from
    else FindWeekday(heading, from + 1)
  }

  /** `months.indexOf(name)` */
  function MonthIndex(name: string): (r: int)
    ensures r == -1 <==> name !in Months
    ensures r != -1 ==> 0 <= r < |Months| && Months[r] == name
  {
    if name in Months then FirstIndex(Months, name) else -1
  }

  /** The weekday `d` days after weekday `day`. */
  function Shift(day: nat, d: nat): nat {
    (day + d) % 7
  }

  /** `(today + 7 - dayIndex) % 7`; both operands are weekdays, so the operand of `%` is
      positive and JavaScript's remainder agrees with Dafny's. */
  function DaysBack(today: nat, dayIndex: nat): int
    requires today < 7 && dayIndex < 7
  {
    (today + 7 - dayIndex) % 7
  }

  /** The days to go back from today to reach the named weekday: 0 to 6, 0 exactly when it
      is today, and the fewest days that land on that weekday. */
  lemma DaysBackSpec(today: nat, dayIndex: nat)
    requires today < 7 && dayIndex < 7
    ensures 0 <= DaysBack(today, dayIndex) <= 6
    ensures DaysBack(today, dayIndex) == 0 <==> dayIndex == today
    ensures Shift(dayIndex, DaysBack(today, dayIndex)) == today
    ensures forall d: nat :: d < DaysBack(today, dayIndex) ==> Shift(dayIndex, d) != today
  {
    var r := DaysBack(today, dayIndex);
    if dayIndex <= today {
      assert r == today - dayIndex;
    } else {
      assert r == today + 7 - dayIndex;
    }
  }

  /** The branches of `parseLinkedInDate`, tried in order. */
  function Classify(heading: string, today: nat, currentYear: int): (r: Heading)
    requires today < 7
  {
    var lower := AsciiLower(heading);
    if Contains(lower, "today") then Today
    else if Contains(lower, "yesterday") then Yesterday
    else if FindWeekday(heading, 0) != -1 then DaysAgo(DaysBack(today, FindWeekday(heading, 0)))
    else if ':' in heading then
      var parts := Split(heading, ':');
      ClockTime(ParseNumber(parts[0]), ParseNumber(parts[1]))
    else CalendarOf(heading, currentYear)
  }

  /** The last branch: "Mon D [YYYY]" split at spaces; a missing or empty year is the
      current year. */
  function CalendarOf(heading: string, currentYear: int): Heading {
    var parts := Split(heading, ' ');
    CalendarDate(
      MonthIndex(parts[0]),
      if |parts| > 1 then ParseInt(parts[1]) else NaN,
      if |parts| > 2 && parts[2] != "" then ParseInt(parts[2]) else Finite(currentYear))
  }

  /** The priority of the branches: "today" and "yesterday" in any letter case first, then
      any weekday name, then a time with ':', and a calendar date otherwise. */
  lemma ClassifyOrder(heading: string, today: nat, currentYear: int)
    requires today < 7
    ensures Classify(heading, today, currentYear).Today? <==> Contains(AsciiLower(heading), "today")
    ensures Classify(heading, today, currentYear).Yesterday?
      <==> !Contains(AsciiLower(heading), "today") && Contains(AsciiLower(heading), "yesterday")
    ensures Classify(heading, today, currentYear).DaysAgo? <==> (
      !Contains(AsciiLower(heading), "today") && !Contains(AsciiLower(heading), "yesterday")
      && exists j :: 0 <= j < |Weekdays| && Contains(heading, Weekdays[j]))
    ensures Classify(heading, today, currentYear).ClockTime? <==> (
      !Contains(AsciiLower(heading), "today") && !Contains(AsciiLower(heading), "yesterday")
      && (forall j :: 0 <= j < |Weekdays| ==> !Contains(heading, Weekdays[j]))
      && ':' in heading)
  {
  }

  /** A weekday heading counts back to the first weekday it names (Sunday first), and to
      no earlier day with that name. */
  lemma ClassifyWeekday(heading: string, today: nat, currentYear: int, j: nat)
    requires today < 7 && j < |Weekdays|
    requires !Contains(AsciiLower(heading), "today") && !Contains(AsciiLower(heading), "yesterday")
    requires Contains(heading, Weekdays[j]) && forall i :: 0 <= i < j ==> !Contains(heading, Weekdays[i])
    ensures Classify(heading, today, currentYear).DaysAgo?
    ensures Shift(j, Classify(heading, today, currentYear).days) == today
    ensures Classify(heading, today, currentYear).days == 0 <==> j == today
    ensures forall d: nat :: d < Classify(heading, today, currentYear).days ==> Shift(j, d) != today
  {
    assert FindWeekday(heading, 0) == j;
    DaysBackSpec(today, j);
  }

  /** A heading "Mon D YYYY" (or "Mon D", in the current year) with no other branch
      matching reads as that calendar date. */
  lemma ClassifyCalendar(heading: string, today: nat, currentYear: int, m: nat, d: string, y: string)
    requires today < 7 && m < |Months|
    requires d != [] && AllDigits(d)
    requires y == [] || AllDigits(y)
    requires heading == Months[m] + " " + d + (if y == [] then "" else " " + y)
    requires !Contains(AsciiLower(heading), "today") && !Contains(AsciiLower(heading), "yesterday")
    requires forall j :: 0 <= j < |Weekdays| ==> !Contains(heading, Weekdays[j])
    requires ':' !in heading
    ensures Classify(heading, today, currentYear)
      == CalendarDate(m, Finite(DigitsValue(d)), if y == [] then Finite(currentYear) else Finite(DigitsValue(y)))
  {
    assert FindWeekday(heading, 0) == -1;
    CalendarOfWords(m, d, y, currentYear);
  }

  /** "Mon D YYYY" reads as month `m`, day D and year YYYY; without a year, the current one. */
  lemma CalendarOfWords(m: nat, d: string, y: string, currentYear: int)
    requires m < |Months|
    requires d != [] && AllDigits(d)
    requires y == [] || AllDigits(y)
    ensures CalendarOf(Months[m] + " " + d + (if y == [] then "" else " " + y), currentYear)
      == CalendarDate(m, Finite(DigitsValue(d)), if y == [] then Finite(currentYear) else Finite(DigitsValue(y)))
  {
    MonthAt(m);
    DigitsSpaceless(d);
    DigitsSpaceless(y);
    SplitWords(Months[m], d, y);
    ParseIntAllDigits(d);
    if y != [] {
      ParseIntAllDigits(y);
    }
  }

  /** Splitting two or three space-free words joined by single spaces gives them back. */
  lemma SplitWords(a: string, b: string, c: string)
    requires ' ' !in a && ' ' !in b && ' ' !in c
    ensures Split(a + " " + b + (if c == [] then "" else " " + c), ' ')
      == if c == [] then [a, b] else [a, b, c]
  {
    var parts := if c == [] then [a, b] else [a, b, c];
    if c == [] {
      assert Join(parts, ' ') == a + [' '] + Join(parts[1..], ' ');
      assert a + " " + b + "" == a + [' '] + b;
    } else {
      assert Join(parts[1..], ' ') == b + [' '] + Join(parts[2..], ' ');
      assert Join(parts, ' ') == a + [' '] + Join(parts[1..], ' ');
      assert a + " " + b + (" " + c) == a + [' '] + (b + [' '] + c);
    }
    SplitJoin(parts, ' ');
  }

  lemma MonthAt(m: nat)
    requires m < |Months|
    ensures ' ' !in Months[m] && MonthIndex(Months[m]) == m
  {
    MonthsWellFormed();
  }

  lemma DigitsSpaceless(d: string)
    requires AllDigits(d)
    ensures ' ' !in d
  {
    assert forall i :: 0 <= i < |d| ==> IsDigit(d[i]);
  }

  /** The month abbreviations hold no space, and `indexOf` finds each at its own place. */
  lemma MonthsWellFormed()
    ensures forall j :: 0 <= j < |Months| ==> ' ' !in Months[j] && MonthIndex(Months[j]) == j
  {
    assert Distinct(Months);
    assert forall j :: 0 <= j < |Months| ==> ' ' !in Months[j];
    forall j | 0 <= j < |Months| ensures MonthIndex(Months[j]) == j {
      assert Months[j] !in Months[..j];
      FirstIndexUnique(Months, Months[j], j);
    }
  }

  // ---------------------------------------------------------------------------
  // Filling in a message template

  /** `{name}` */
  function Placeholder(name: string): string {
    "{" + name + "}"
  }

  /** The names of the seven placeholders, in the order `sendMessage` replaces them. */
  const PlaceholderNames: seq<string> := [
    "originConnectionName", "originLinkedInUrl", "profileName", "fullName",
    "companyName", "jobTitle", "connectionLinkedInUrl"]

  const Placeholders: seq<string> := [
    Placeholder(PlaceholderNames[0]), Placeholder(PlaceholderNames[1]), Placeholder(PlaceholderNames[2]),
    Placeholder(PlaceholderNames[3]), Placeholder(PlaceholderNames[4]), Placeholder(PlaceholderNames[5]),
    Placeholder(PlaceholderNames[6])]

  /** `data.originLinkedInUrl || ' '`: a missing or empty URL becomes one space. */
  function OrSpace(v: Option<string>): (r: string)
    ensures r != []
    ensures v.Some? && v.value != "" ==> r == v.value
  {
    if v.Some? && v.value != "" then v.value else " "
  }

  /** The text that replaces each placeholder, in the same order. A missing origin name
      is turned into the text "undefined" by `replace`. */
  function Fillers(data: MessageData): (r: seq<string>)
    ensures |r| == |Placeholders|
  {
    [Render(data.originFullName), OrSpace(data.originLinkedInUrl), data.firstName, data.fullName,
     data.companyName, data.jobTitle, data.connectionLinkedInUrl]
  }

  /** A chain of `replace` calls with string patterns, applied left to right. */
  function ReplaceChain(s: string, patterns: seq<string>, values: seq<string>): string
    requires |patterns| == |values|
    decreases |patterns|
  {
    if patterns == [] then s
    else ReplaceChain(ReplaceFirst(s, patterns[0], values[0]), patterns[1..], values[1..])
  }

  /** The message typed into the editor, for a template that is there. */
  function MessageContent(data: MessageData): string
    requires data.messageTemplate.Some?
  {
    ReplaceChain(data.messageTemplate.value, Placeholders, Fillers(data))
  }

  /** A chain leaves a text without any of its patterns unchanged. */
  lemma {:induction false} ReplaceChainAbsent(s: string, patterns: seq<string>, values: seq<string>)
    requires |patterns| == |values|
    requires forall j, i :: 0 <= j < |patterns| ==> !Occurs(s, patterns[j], i)
    ensures ReplaceChain(s, patterns, values) == s
    decreases |patterns|
  {
    if patterns != [] {
      assert forall i :: !Occurs(s, patterns[0], i);
      assert ReplaceFirst(s, patterns[0], values[0]) == s;
      assert forall j, i :: 0 <= j < |patterns[1..]| ==> !Occurs(s, patterns[1..][j], i) by {
        forall j, i | 0 <= j < |patterns[1..]| ensures !Occurs(s, patterns[1..][j], i) {
          assert patterns[1..][j] == patterns[j + 1];
        }
      }
      ReplaceChainAbsent(s, patterns[1..], values[1..]);
    }
  }

  /** A template with none of the placeholders is sent as it is. */
  lemma MessageContentUnchanged(data: MessageData)
    requires data.messageTemplate.Some?
    requires forall j, i :: 0 <= j < |Placeholders| ==> !Occurs(data.messageTemplate.value, Placeholders[j], i)
    ensures MessageContent(data) == data.messageTemplate.value
  {
    ReplaceChainAbsent(data.messageTemplate.value, Placeholders, Fillers(data));
  }

  /** A placeholder: braces around a name that holds neither brace. */
  predicate IsPlaceholder(p: string) {
    |p| >= 2 && p[0] == '{' && p[|p| - 1] == '}' && '{' !in p[1..] && '}' !in p[..|p| - 1]
  }

  predicate Braceless(s: string) {
    '{' !in s && '}' !in s
  }

  lemma PlaceholderOf(name: string)
    requires Braceless(name)
    ensures IsPlaceholder(Placeholder(name))
  {
    var p := Placeholder(name);
    assert p[1..] == name + "}";
    assert p[..|p| - 1] == "{" + name;
  }

  lemma PlaceholderInjective(a: string, b: string)
    requires Placeholder(a) == Placeholder(b)
    ensures a == b
  {
    assert a == Placeholder(a)[1..|a| + 1];
  }

  lemma NameBraceless0() ensures Braceless(PlaceholderNames[0]) {}
  lemma NameBraceless1() ensures Braceless(PlaceholderNames[1]) {}
  lemma NameBraceless2() ensures Braceless(PlaceholderNames[2]) {}
  lemma NameBraceless3() ensures Braceless(PlaceholderNames[3]) {}
  lemma NameBraceless4() ensures Braceless(PlaceholderNames[4]) {}
  lemma NameBraceless5() ensures Braceless(PlaceholderNames[5]) {}
  lemma NameBraceless6() ensures Braceless(PlaceholderNames[6]) {}

  /** The seven placeholders are distinct and each is a brace-free name in braces. */
  lemma PlaceholdersWellFormed()
    ensures forall j :: 0 <= j < |Placeholders| ==> IsPlaceholder(Placeholders[j])
    ensures Distinct(Placeholders)
  {
    NameBraceless0(); NameBraceless1(); NameBraceless2(); NameBraceless3();
    NameBraceless4(); NameBraceless5(); NameBraceless6();
    forall j | 0 <= j < |Placeholders| ensures IsPlaceholder(Placeholders[j]) {
      PlaceholderOf(PlaceholderNames[j]);
    }
    assert Distinct(PlaceholderNames);
    forall i, j | 0 <= i < j < |Placeholders| ensures Placeholders[i] != Placeholders[j] {
      if Placeholders[i] == Placeholders[j] {
        PlaceholderInjective(PlaceholderNames[i], PlaceholderNames[j]);
      }
    }
  }

  /** Two placeholders occurring at the same place have the same length: each ends at the
      first '}' from there. */
  lemma PlaceholderLength(s: string, p: string, q: string, i: int)
    requires IsPlaceholder(p) && IsPlaceholder(q) && Occurs(s, p, i) && Occurs(s, q, i)
    ensures |p| == |q|
  {
    assert forall t :: i <= t < i + |p| - 1 ==> s[t] != '}' by {
      forall t | i <= t < i + |p| - 1 ensures s[t] != '}' {
        assert s[t] == p[..|p| - 1][t - i];
      }
    }
    assert forall t :: i <= t < i + |q| - 1 ==> s[t] != '}' by {
      forall t | i <= t < i + |q| - 1 ensures s[t] != '}' {
        assert s[t] == q[..|q| - 1][t - i];
      }
    }
    assert s[i + |p| - 1] == p[|p| - 1] && s[i + |q| - 1] == q[|q| - 1];
  }

  /** A template cut at its placeholders: `segs[0] + texts[0] + segs[1] + ... + segs[n]`. */
  function Assemble(segs: seq<string>, texts: seq<string>): string
    requires |segs| == |texts| + 1
    decreases |texts|
  {
    if texts == [] then segs[0] else segs[0] + texts[0] + Assemble(segs[1..], texts[1..])
  }

  /** `replace(p, v)` on the pieces of a template: the first piece equal to `p` becomes `v`. */
  function FillFirst(texts: seq<string>, p: string, v: string): (r: seq<string>)
    ensures |r| == |texts|
    decreases |texts|
  {
    if texts == [] then []
    else if texts[0] == p then [v] + texts[1..]
    else [texts[0]] + FillFirst(texts[1..], p, v)
  }

  /** Exactly the first piece equal to `p` is replaced; every other piece is kept. */
  lemma {:induction false} FillFirstAt(texts: seq<string>, p: string, v: string)
    ensures forall i :: 0 <= i < |texts| ==>
      FillFirst(texts, p, v)[i] == if texts[i] == p && p !in texts[..i] then v else texts[i]
    decreases |texts|
  {
    if texts != [] {
      if texts[0] == p {
        assert forall i :: 0 < i < |texts| ==> texts[..i][0] == p;
      } else {
        FillFirstAt(texts[1..], p, v);
        assert forall i :: 0 < i <= |texts| ==> texts[..i] == [texts[0]] + texts[1..][..i - 1];
      }
    }
  }

  /** The chain of `replace` calls on the pieces of a template. */
  function FillChain(texts: seq<string>, patterns: seq<string>, values: seq<string>): (r: seq<string>)
    requires |patterns| == |values|
    ensures |r| == |texts|
    decreases |patterns|
  {
    if patterns == [] then texts
    else FillChain(FillFirst(texts, patterns[0], values[0]), patterns[1..], values[1..])
  }

  /** No piece holds a '{'. */
  predicate NoBraces(segs: seq<string>) {
    forall i :: 0 <= i < |segs| ==> '{' !in segs[i]
  }

  /** Each piece is a placeholder or holds no '{'. */
  predicate Tokens(texts: seq<string>) {
    forall i :: 0 <= i < |texts| ==> IsPlaceholder(texts[i]) || '{' !in texts[i]
  }

  /** No occurrence of a placeholder starts in brace-free text followed by a different
      token. */
  lemma NoEarlyMatch(seg: string, x: string, rest: string, p: string)
    requires '{' !in seg && IsPlaceholder(p) && x != p && (IsPlaceholder(x) || '{' !in x)
    ensures forall i :: 0 <= i < |seg + x| ==> !Occurs(seg + x + rest, p, i)
  {
    var s := seg + x + rest;
    forall i | 0 <= i < |seg + x| && i + |p| <= |s| ensures !Occurs(s, p, i) {
      assert s[i..i + |p|][0] == s[i];
      if i < |seg| {
        assert s[i] == seg[i];
      } else {
        var o := i - |seg|;
        assert s[i] == x[o];
        if IsPlaceholder(x) && o > 0 {
          assert x[o] == x[1..][o - 1];
        } else if IsPlaceholder(x) {
          assert Occurs(s, x, i) by {
            assert s[i..i + |x|] == x;
          }
          if Occurs(s, p, i) {
            PlaceholderLength(s, p, x, i);
          }
        }
      }
    }
  }

  /** One `replace` on a template made of brace-free text and tokens acts on the pieces. */
  lemma {:induction false} ReplaceFirstAssembled(segs: seq<string>, texts: seq<string>, p: string, v: string)
    requires |segs| == |texts| + 1 && NoBraces(segs) && Tokens(texts) && IsPlaceholder(p)
    ensures ReplaceFirst(Assemble(segs, texts), p, v) == Assemble(segs, FillFirst(texts, p, v))
    decreases |texts|
  {
    if texts == [] {
      forall i | 0 <= i && i + |p| <= |segs[0]| ensures !Occurs(segs[0], p, i) {
        assert segs[0][i..i + |p|][0] == segs[0][i];
      }
      ReplaceFirstAbsent(segs[0], p, v);
    } else {
      var rest := Assemble(segs[1..], texts[1..]);
      var filled := FillFirst(texts, p, v);
      if texts[0] == p {
        var whole := segs[0] + p + rest;
        forall i | 0 <= i < |segs[0]| && i + |p| <= |whole| ensures !Occurs(whole, p, i) {
          assert whole[i..i + |p|][0] == whole[i] == segs[0][i];
        }
        ReplaceFirstAt(segs[0], p, rest, v);
        assert filled == [v] + texts[1..];
      } else {
        NoEarlyMatch(segs[0], texts[0], rest, p);
        ReplaceFirstPast(segs[0] + texts[0], rest, p, v);
        ReplaceFirstAssembled(segs[1..], texts[1..], p, v);
        assert filled == [texts[0]] + FillFirst(texts[1..], p, v);
      }
    }
  }

  /** A chain of placeholder `replace` calls acts on the pieces, as long as no value that
      gets inserted brings a '{' of its own. */
  lemma {:induction false} ReplaceChainAssembled(segs: seq<string>, texts: seq<string>, patterns: seq<string>, values: seq<string>)
    requires |segs| == |texts| + 1 && NoBraces(segs) && Tokens(texts)
    requires |patterns| == |values| && forall j :: 0 <= j < |patterns| ==> IsPlaceholder(patterns[j])
    requires forall j :: 0 <= j < |patterns| && patterns[j] in texts ==> '{' !in values[j]
    ensures ReplaceChain(Assemble(segs, texts), patterns, values) == Assemble(segs, FillChain(texts, patterns, values))
    decreases |patterns|
  {
    if patterns != [] {
      var p, v := patterns[0], values[0];
      var next := FillFirst(texts, p, v);
      ReplaceFirstAssembled(segs, texts, p, v);
      FillFirstAt(texts, p, v);
      forall i | 0 <= i < |next| && next[i] != texts[i] ensures '{' !in next[i] {
        assert texts[i] == p;
      }
      forall j | 1 <= j < |patterns| && patterns[j] in next ensures patterns[j] in texts {
        var i :| 0 <= i < |next| && next[i] == patterns[j];
        assert next[i][0] == '{';
        assert texts[i] == next[i];
      }
      forall j | 0 <= j < |patterns| - 1 ensures patterns[1..][j] == patterns[j + 1] && values[1..][j] == values[j + 1] {
      }
      ReplaceChainAssembled(segs, next, patterns[1..], values[1..]);
    }
  }

  lemma Assemble2(s0: string, s1: string, s2: string, a: string, b: string)
    ensures Assemble([s0, s1, s2], [a, b]) == s0 + a + s1 + b + s2
  {
    assert [s0, s1, s2][1..] == [s1, s2] && [a, b][1..] == [b];
    assert [s1, s2][1..] == [s2] && [b][1..] == [];
    assert Assemble([s2], []) == s2;
    assert Assemble([s1, s2], [b]) == s1 + b + s2;
    assert s0 + a + (s1 + b + s2) == s0 + a + s1 + b + s2;
  }

  lemma Assemble3(s0: string, s1: string, s2: string, s3: string, a: string, b: string, c: string)
    ensures Assemble([s0, s1, s2, s3], [a, b, c]) == s0 + a + s1 + b + s2 + c + s3
  {
    assert [s0, s1, s2, s3][1..] == [s1, s2, s3] && [a, b, c][1..] == [b, c];
    Assemble2(s1, s2, s3, b, c);
    assert s0 + a + (s1 + b + s2 + c + s3) == s0 + a + s1 + b + s2 + c + s3;
  }

  /** The pieces a list of placeholder numbers stands for. */
  function Slotted(slots: seq<nat>, patterns: seq<string>): (r: seq<string>)
    requires forall i :: 0 <= i < |slots| ==> slots[i] < |patterns|
    ensures |r| == |slots| && forall i :: 0 <= i < |slots| ==> r[i] == patterns[slots[i]]
  {
    seq(|slots|, i requires 0 <= i < |slots| => patterns[slots[i]])
  }

  /** The pieces after the first `j` replacements: the first occurrence of each of the
      first `j` placeholders holds its value, every other piece is still a placeholder. */
  function Stage(slots: seq<nat>, patterns: seq<string>, values: seq<string>, j: nat): (r: seq<string>)
    requires |patterns| == |values| && forall i :: 0 <= i < |slots| ==> slots[i] < |patterns|
    ensures |r| == |slots|
  {
    seq(|slots|, i requires 0 <= i < |slots| =>
      if slots[i] < j && slots[i] !in slots[..i] then values[slots[i]] else patterns[slots[i]])
  }

  /** The `j`-th replacement takes one stage to the next. */
  lemma StageStep(slots: seq<nat>, patterns: seq<string>, values: seq<string>, j: nat)
    requires |patterns| == |values| && j < |patterns| && Distinct(patterns)
    requires forall k :: 0 <= k < |patterns| ==> IsPlaceholder(patterns[k])
    requires forall i :: 0 <= i < |slots| ==> slots[i] < |patterns| && '{' !in values[slots[i]]
    ensures FillFirst(Stage(slots, patterns, values, j), patterns[j], values[j]) == Stage(slots, patterns, values, j + 1)
  {
    var s := Stage(slots, patterns, values, j);
    var p := patterns[j];
    FillFirstAt(s, p, values[j]);
    assert forall i :: 0 <= i < |slots| ==> (s[i] == p <==> slots[i] == j) by {
      forall i | 0 <= i < |slots| ensures s[i] == p <==> slots[i] == j {
        if s[i] == values[slots[i]] && s[i] != patterns[slots[i]] {
          assert p[0] == '{';
        }
      }
    }
    forall i | 0 <= i < |slots| ensures p in s[..i] <==> j in slots[..i] {
      if p in s[..i] {
        var k :| 0 <= k < i && s[..i][k] == p;
        assert slots[..i][k] == j;
      }
      if j in slots[..i] {
        var k :| 0 <= k < i && slots[..i][k] == j;
        assert s[..i][k] == p;
      }
    }
  }

  /** From stage `j` the rest of the chain reaches the last stage. */
  lemma {:induction false} FillChainStage(slots: seq<nat>, patterns: seq<string>, values: seq<string>, j: nat)
    requires |patterns| == |values| && j <= |patterns| && Distinct(patterns)
    requires forall k :: 0 <= k < |patterns| ==> IsPlaceholder(patterns[k])
    requires forall i :: 0 <= i < |slots| ==> slots[i] < |patterns| && '{' !in values[slots[i]]
    ensures FillChain(Stage(slots, patterns, values, j), patterns[j..], values[j..]) == Stage(slots, patterns, values, |patterns|)
    decreases |patterns| - j
  {
    if j < |patterns| {
      StageStep(slots, patterns, values, j);
      assert patterns[j..][1..] == patterns[j + 1..] && values[j..][1..] == values[j + 1..];
      FillChainStage(slots, patterns, values, j + 1);
    }
  }

  /** A template of brace-free text and distinct placeholders, placeholders repeated or
      not, filled by a chain of `replace` calls: the first occurrence of each placeholder
      gets its value, later ones stay. */
  lemma ChainOnSlots(segs: seq<string>, slots: seq<nat>, patterns: seq<string>, values: seq<string>)
    requires |segs| == |slots| + 1 && NoBraces(segs)
    requires |patterns| == |values| && Distinct(patterns)
    requires forall k :: 0 <= k < |patterns| ==> IsPlaceholder(patterns[k])
    requires forall i :: 0 <= i < |slots| ==> slots[i] < |patterns| && '{' !in values[slots[i]]
    ensures ReplaceChain(Assemble(segs, Slotted(slots, patterns)), patterns, values)
      == Assemble(segs, Stage(slots, patterns, values, |patterns|))
  {
    var texts := Slotted(slots, patterns);
    assert texts == Stage(slots, patterns, values, 0);
    forall j | 0 <= j < |patterns| && patterns[j] in texts ensures '{' !in values[j] {
      var i :| 0 <= i < |texts| && texts[i] == patterns[j];
      assert patterns[slots[i]] == patterns[j];
    }
    ReplaceChainAssembled(segs, texts, patterns, values);
    assert patterns[0..] == patterns && values[0..] == values;
    FillChainStage(slots, patterns, values, 0);
  }

  /** What `sendMessage` types for any template of brace-free text and placeholders: each
      placeholder's first occurrence gets its text and a repeated placeholder stays as it
      is after the first time. */
  lemma MessageContentAssembled(data: MessageData, segs: seq<string>, slots: seq<nat>)
    requires |segs| == |slots| + 1 && NoBraces(segs)
    requires forall i :: 0 <= i < |slots| ==> slots[i] < |Placeholders| && '{' !in Fillers(data)[slots[i]]
    requires data.messageTemplate == Some(Assemble(segs, Slotted(slots, Placeholders)))
    ensures forall i :: 0 <= i < |slots| && slots[i] in slots[..i] ==> Stage(slots, Placeholders, Fillers(data), |Placeholders|)[i] == Placeholders[slots[i]]
    ensures MessageContent(data) == Assemble(segs, Stage(slots, Placeholders, Fillers(data), |Placeholders|))
  {
    PlaceholdersWellFormed();
    ChainOnSlots(segs, slots, Placeholders, Fillers(data));
  }

  /** With no slot repeated, the last stage holds every slot's value. */
  lemma StageDistinct(slots: seq<nat>, patterns: seq<string>, values: seq<string>)
    requires |patterns| == |values| && Distinct(slots)
    requires forall i :: 0 <= i < |slots| ==> slots[i] < |patterns|
    ensures Stage(slots, patterns, values, |patterns|) == Slotted(slots, values)
  {
    var filled := Stage(slots, patterns, values, |patterns|);
    forall i | 0 <= i < |slots| ensures filled[i] == values[slots[i]] {
      forall k | 0 <= k < i ensures slots[..i][k] != slots[i] {
      }
    }
  }

  /** With each placeholder written at most once, every one of them is filled:
      `s0 + P[k1] + s1 + ... + sn` becomes `s0 + F[k1] + s1 + ... + sn`. */
  lemma MessageContentDistinct(data: MessageData, segs: seq<string>, slots: seq<nat>)
    requires |segs| == |slots| + 1 && NoBraces(segs) && Distinct(slots)
    requires forall i :: 0 <= i < |slots| ==> slots[i] < |Placeholders| && '{' !in Fillers(data)[slots[i]]
    requires data.messageTemplate == Some(Assemble(segs, Slotted(slots, Placeholders)))
    ensures MessageContent(data) == Assemble(segs, Slotted(slots, Fillers(data)))
  {
    PlaceholdersWellFormed();
    ChainOnSlots(segs, slots, Placeholders, Fillers(data));
    StageDistinct(slots, Placeholders, Fillers(data));
  }

  /** A chain meeting a placeholder written twice fills the first copy only. */
  lemma ChainTwice(patterns: seq<string>, values: seq<string>, k: nat)
    requires |patterns| == |values| && k < |patterns| && Distinct(patterns)
    requires forall j :: 0 <= j < |patterns| ==> IsPlaceholder(patterns[j])
    requires '{' !in values[k]
    ensures ReplaceChain(patterns[k] + " " + patterns[k], patterns, values) == values[k] + " " + patterns[k]
  {
    TwiceSlots(patterns, values, k);
    ChainOnSlots(["", " ", ""], [k, k], patterns, values);
  }

  lemma TwiceSlots(patterns: seq<string>, values: seq<string>, k: nat)
    requires |patterns| == |values| && k < |patterns|
    ensures Assemble(["", " ", ""], Slotted([k, k], patterns)) == patterns[k] + " " + patterns[k]
    ensures Assemble(["", " ", ""], Stage([k, k], patterns, values, |patterns|)) == values[k] + " " + patterns[k]
  {
    var p := patterns[k];
    assert Slotted([k, k], patterns) == [p, p];
    Assemble2("", " ", "", p, p);
    assert "" + p + " " + p + "" == p + " " + p;
    var st := Stage([k, k], patterns, values, |patterns|);
    assert [k, k][..0] == [] && [k, k][..1] == [k];
    assert st == [values[k], p];
    Assemble2("", " ", "", values[k], p);
    assert "" + values[k] + " " + p + "" == values[k] + " " + p;
  }

  /** The replacements happen in the fixed order: an origin name that itself reads
      "{profileName}" is inserted before "{profileName}" is replaced, so its copy is filled
      with the first name and the template's own "{profileName}" stays. */
  lemma MessageContentOrder(data: MessageData)
    requires data.messageTemplate == Some(Placeholders[0] + " " + Placeholders[2])
    requires data.originFullName == Some(Placeholders[2]) && '{' !in data.firstName
    ensures MessageContent(data) == data.firstName + " " + Placeholders[2]
  {
    PlaceholdersWellFormed();
    var values := Fillers(data);
    var p0, p2 := Placeholders[0], Placeholders[2];
    assert ReplaceFirst(p0 + " " + p2, p0, values[0]) == p2 + " " + p2 by {
      ReplaceFirstAt([], p0, " " + p2, p2);
      assert [] + p0 + (" " + p2) == p0 + " " + p2;
      assert [] + p2 + (" " + p2) == p2 + " " + p2;
    }
    var patterns := Placeholders[1..];
    forall j | 0 <= j < |patterns| ensures IsPlaceholder(patterns[j]) {
    }
    ChainTwice(patterns, values[1..], 1);
  }

  /** The shape of every built-in template: "{profileName}", then
      "{originConnectionName}", then "{originLinkedInUrl}", with brace-free text around. */
  function BuiltInShape(s0: string, s1: string, s2: string, s3: string): string {
    s0 + Placeholders[2] + s1 + Placeholders[0] + s2 + Placeholders[1] + s3
  }

  /** A built-in-shaped template as `Assemble` pieces. */
  lemma BuiltInAssembled(data: MessageData, s0: string, s1: string, s2: string, s3: string)
    requires '{' !in s0 && '{' !in s1 && '{' !in s2 && '{' !in s3
    requires '{' !in data.firstName && '{' !in Render(data.originFullName) && '{' !in OrSpace(data.originLinkedInUrl)
    requires data.messageTemplate == Some(BuiltInShape(s0, s1, s2, s3))
    ensures MessageContent(data)
      == s0 + data.firstName + s1 + Render(data.originFullName) + s2 + OrSpace(data.originLinkedInUrl) + s3
  {
    var segs, slots := [s0, s1, s2, s3], [2, 0, 1];
    assert Slotted(slots, Placeholders) == [Placeholders[2], Placeholders[0], Placeholders[1]];
    Assemble3(s0, s1, s2, s3, Placeholders[2], Placeholders[0], Placeholders[1]);
    assert Distinct(slots);
    MessageContentDistinct(data, segs, slots);
    assert Slotted(slots, Fillers(data)) == [data.firstName, Render(data.originFullName), OrSpace(data.originLinkedInUrl)];
    Assemble3(s0, s1, s2, s3, data.firstName, Render(data.originFullName), OrSpace(data.originLinkedInUrl));
  }

  /** A first name holds only characters of the full name. */
  lemma FirstNameBraceless(name: string)
    requires '{' !in name
    ensures '{' !in Background.FirstName(name)
  {
    var f := Background.FirstName(name);
    forall k | 0 <= k < |f| ensures f[k] != '{' {
      assert f[k] == name[k];
    }
  }

  /** As written, the background script sends no origin URL, so in every template of the
      built-in shape "{originLinkedInUrl}" becomes a single space, while the name
      placeholders are filled. */
  lemma OriginUrlAlwaysBlank(t: Target, s0: string, s1: string, s2: string, s3: string)
    requires '{' !in s0 && '{' !in s1 && '{' !in s2 && '{' !in s3
    requires '{' !in t.connection.name && (t.origin.None? || '{' !in t.origin.value)
    ensures MessageContent(Background.MessageDataAsWritten(t, Some(BuiltInShape(s0, s1, s2, s3))))
      == s0 + Background.FirstName(t.connection.name) + s1 + Render(t.origin) + s2 + " " + s3
  {
    FirstNameBraceless(t.connection.name);
    BuiltInAssembled(Background.MessageDataAsWritten(t, Some(BuiltInShape(s0, s1, s2, s3))), s0, s1, s2, s3);
  }

  /** With the origin URL passed along, the same templates get the seed profile's URL. */
  lemma OriginUrlFilled(t: Target, s0: string, s1: string, s2: string, s3: string)
    requires '{' !in s0 && '{' !in s1 && '{' !in s2 && '{' !in s3
    requires '{' !in t.connection.name && (t.origin.None? || '{' !in t.origin.value)
    requires t.connection.originUrl != "" && '{' !in t.connection.originUrl
    ensures MessageContent(Background.MessageDataFor(t, Some(BuiltInShape(s0, s1, s2, s3))))
      == s0 + Background.FirstName(t.connection.name) + s1 + Render(t.origin) + s2 + t.connection.originUrl + s3
  {
    FirstNameBraceless(t.connection.name);
    BuiltInAssembled(Background.MessageDataFor(t, Some(BuiltInShape(s0, s1, s2, s3))), s0, s1, s2, s3);
  }

  // ---------------------------------------------------------------------------
  // The outcome of sendMessage

  /** How often the send button is polled. */
  const SendPolls: nat := 40

  /** What the page shows during one send: whether the Message button appears, whether
      a recent message is found before typing, whether the editor appears, whether the
      `i`-th poll finds the send button enabled, and whether the sent message is found
      afterwards. `sendEnabledAt(SendPolls)` is the re-read after the last wait: whether
      the button the 40th poll found (if any) is enabled by then. */
  datatype SendObservations = SendObservations(
    messageButton: bool,
    recentBefore: bool,
    inputFound: bool,
    sendEnabledAt: nat -> bool,
    recentAfter: bool)

  /** Some poll finds the send button enabled, or the button the last poll found is
      enabled when it is read again after the final wait. */
  predicate SendEnabled(obs: SendObservations) {
    (exists i :: 0 <= i < SendPolls && obs.sendEnabledAt(i)) || obs.sendEnabledAt(SendPolls)
  }

  /** The message gets typed: the button and the editor were there and nothing recent. */
  predicate Types(obs: SendObservations) {
    obs.messageButton && !obs.recentBefore && obs.inputFound
  }

  /** The send button is clicked. */
  predicate Clicks(obs: SendObservations) {
    Types(obs) && SendEnabled(obs)
  }

  /** The outcome as written: the final check calls the async `wasMessageRecentlySent`
      without `await`, and the Promise it gets is always truthy. */
  function OutcomeAsWritten(obs: SendObservations): string {
    if !obs.messageButton then "Failed"
    else if obs.recentBefore then "Skipped"
    else if !obs.inputFound then "Failed"
    else if !SendEnabled(obs) then "Failed"
    else "Done"
  }

  /** The outcome with the final check awaited. */
  function Outcome(obs: SendObservations): string {
    if !obs.messageButton then "Failed"
    else if obs.recentBefore then "Skipped"
    else if !obs.inputFound then "Failed"
    else if !SendEnabled(obs) then "Failed"
    else if obs.recentAfter then "Done" else "Failed"
  }

  /** "Done" only for a message clicked and then found; "Skipped" only for a recent
      conversation; "Failed" in every other case. */
  lemma OutcomeSpec(obs: SendObservations)
    ensures Outcome(obs) == "Done" <==> Clicks(obs) && obs.recentAfter
    ensures Outcome(obs) == "Skipped" <==> obs.messageButton && obs.recentBefore
    ensures Outcome(obs) == "Failed" <==> !(Clicks(obs) && obs.recentAfter) && !(obs.messageButton && obs.recentBefore)
  {
  }

  /** As written, every click reports "Done", found or not; the two outcomes differ
      exactly when the sent message is not found. */
  lemma UnawaitedCheck(obs: SendObservations)
    ensures OutcomeAsWritten(obs) == "Done" <==> Clicks(obs)
    ensures OutcomeAsWritten(obs) != Outcome(obs) <==> Clicks(obs) && !obs.recentAfter
  {
  }

  /** The 40-iteration loop waiting for the send button, then the check after it: enabled
      when some poll sees it enabled, or when the button the last poll found is enabled
      after the final wait; `polls` is how many polls were made. */
  method PollSendButton(enabledAt: nat -> bool) returns (enabled: bool, polls: nat)
    ensures enabled <==> (exists i :: 0 <= i < SendPolls && enabledAt(i)) || enabledAt(SendPolls)
    ensures 1 <= polls <= SendPolls
    ensures forall i :: 0 <= i < polls - 1 ==> !enabledAt(i)
    ensures polls < SendPolls ==> enabled && enabledAt(polls - 1)
    ensures polls == SendPolls && !enabledAt(SendPolls - 1) ==> (enabled <==> enabledAt(SendPolls))
  {
    polls := 0;
    while polls < SendPolls
      invariant polls <= SendPolls
      invariant forall i :: 0 <= i < polls ==> !enabledAt(i)
    {
      polls := polls + 1;
      if enabledAt(polls - 1) {
        return true, polls;
      }
    }
    enabled := enabledAt(SendPolls);
  }

  /** What `sendMessage` settles to: the outcome text, or `None` when it throws. The one
      throw modelled is `data.messageTemplate.replace(...)` on a missing template, which
      is reached once the editor has been found. */
  function SendResult(data: MessageData, obs: SendObservations): Option<string> {
    if Types(obs) && data.messageTemplate.None? then None else Some(Outcome(obs))
  }

  /** `sendMessage`, with the final check awaited: what it settles to, and the text typed
      into the editor ("" when it never gets that far or has no template to fill). */
  method SendMessage(data: MessageData, obs: SendObservations) returns (outcome: Option<string>, typed: string)
    ensures outcome == SendResult(data, obs)
    ensures outcome.None? <==> Types(obs) && data.messageTemplate.None?
    ensures typed == if Types(obs) && data.messageTemplate.Some? then MessageContent(data) else ""
  {
    typed := "";
    if !obs.messageButton {
      return Some("Failed"), typed;
    }
    if obs.recentBefore {
      return Some("Skipped"), typed;
    }
    if !obs.inputFound {
      return Some("Failed"), typed;
    }
    if data.messageTemplate.None? {
      return None, typed;
    }
    typed := MessageContent(data);
    var enabled, _ := PollSendButton(obs.sendEnabledAt);
    if !enabled {
      return Some("Failed"), typed;
    }
    outcome := Some(if obs.recentAfter then "Done" else "Failed");
  }

  // ---------------------------------------------------------------------------
  // The request dispatcher

  /** The request types the listener handles, in its order. */
  const HandledTypes: seq<string> := [
    "get-connections-url", "load-connections", "load-connections-ajax", "send-message", "verify-message-sent"]

  const UnknownRequest: string := "Unknown request type"

  /** The reply to a request, given what a send would settle to: `{ result }` for a send
      that returns, `{ error, stack }` for one that throws, page data for the other
      handled types, `{ error }` for any other type. */
  function Respond(requestType: string, sent: Option<string>): (r: Reply)
    ensures r == ErrorObject(UnknownRequest) <==> requestType !in HandledTypes
    ensures requestType == "send-message" && sent.Some? ==> r == ResultObject(sent.value)
    ensures r == ThrownError <==> requestType == "send-message" && sent.None?
  {
    if requestType == "send-message" then
      if sent.Some? then ResultObject(sent.value) else ThrownError
    else if requestType in HandledTypes then PageData
    else ErrorObject(UnknownRequest)
  }

  /** End to end, as written: the background script compares the whole `{ result }` object
      with "Done" and "Skipped", so every send is recorded as "Failed" and none leaves
      the queue. With the outcome read from `result`, a confirmed send becomes `Sent` and
      a recent conversation `Skipped`, and exactly those leave the queue. */
  lemma SendReplyStatus(obs: SendObservations)
    ensures Background.StatusAsWritten(Respond("send-message", Some(OutcomeAsWritten(obs)))) == Failed
    ensures !Background.RemovesAsWritten(Respond("send-message", Some(OutcomeAsWritten(obs))))
    ensures Background.ReplyStatus(Respond("send-message", Some(Outcome(obs)))) == Sent
      <==> Clicks(obs) && obs.recentAfter
    ensures Background.ReplyStatus(Respond("send-message", Some(Outcome(obs)))) == Skipped
      <==> obs.messageButton && obs.recentBefore
    ensures Background.Removes(Respond("send-message", Some(Outcome(obs))))
      <==> (Clicks(obs) && obs.recentAfter) || (obs.messageButton && obs.recentBefore)
  {
    Background.ResultObjectAlwaysFails(OutcomeAsWritten(obs));
    OutcomeSpec(obs);
    Background.ReplyStatusOnResult(Outcome(obs));
  }

  /** A send without a template throws once it reaches the editor: the listener answers
      `{ error, stack }`, and the background script, as written and corrected alike,
      records "Failed" and keeps the target queued. Before the editor it returns as
      usual. */
  lemma MissingTemplateThrows(data: MessageData, obs: SendObservations)
    requires data.messageTemplate.None?
    ensures SendResult(data, obs).None? <==> Types(obs)
    ensures !Types(obs) ==> SendResult(data, obs) == Some(Outcome(obs))
    ensures Types(obs) ==> Respond("send-message", SendResult(data, obs)) == ThrownError
    ensures Types(obs) ==> Background.StatusAsWritten(Respond("send-message", SendResult(data, obs))) == Failed
    ensures Types(obs) ==> Background.ReplyStatus(Respond("send-message", SendResult(data, obs))) == Failed
    ensures Types(obs) ==> !Background.Removes(Respond("send-message", SendResult(data, obs)))
  {
  }
}
