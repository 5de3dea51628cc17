/**
 * The accounts processor of jassist/voice_diary/accounts/accounts_processor.py:
 * it reads an income-or-expense entry from a voice note — whether it is
 * income, the amount and its currency, the transaction date — and saves one
 * accounts row that points back at the transcription.
 *
 * The regular expressions of the source are written out as scanners over
 * the text. Each scanner returns what `re.search` returns: the leftmost
 * position where the pattern matches and the groups of that match.
 */
module Accounts {
  import opened Wrappers
  import opened Text
  import opened Dates
  import opened Collaborators

  // ---------------------------------------------------------------------
  // Income or expense (detect_entry_type).

  datatype EntryType = Income | Expense

  const IncomeKeywords: seq<string> := [
    "received", "earned", "income", "salary", "wage", "payment", "paid me",
    "deposit", "revenue", "profit", "bonus", "dividend", "interest",
    "refund", "reimbursement", "credit", "gain", "earning"
  ]

  /** `\bw\b` matches at `i`, for a word `w` that begins and ends with a word character. */
  predicate WholeWordAt(s: string, w: string, i: int) {
    && OccursAt(s, w, i)
    && (i == 0 || !IsWordChar(s[i - 1]))
    && (i + |w| == |s| || !IsWordChar(s[i + |w|]))
  }

  /** The leftmost whole-word occurrence of `w` at or after `i`. */
  function FindWholeWord(s: string, w: string, i: nat): (r: Option<nat>)
    requires i <= |s|
    ensures r.Some? ==> i <= r.value && WholeWordAt(s, w, r.value)
    ensures forall j :: i <= j && (r.None? || j < r.value) ==> !WholeWordAt(s, w, j)
    decreases |s| - i
  {
    if WholeWordAt(s, w, i) then Some(i)
    else if i == |s| then None
    else FindWholeWord(s, w, i + 1)
  }

  /** `re.search(r'\b' + w + r'\b', s)` finds a match. */
  predicate HasWholeWord(s: string, w: string) {
    FindWholeWord(s, w, 0).Some?
  }

  lemma HasWholeWordIff(s: string, w: string)
    ensures HasWholeWord(s, w) <==> exists i :: WholeWordAt(s, w, i)
  {
  }

  /** The position in `kws` of the first keyword found as a whole word. */
  function FirstKeyword(s: string, kws: seq<string>): (r: Option<nat>)
    ensures r.Some? ==> r.value < |kws| && HasWholeWord(s, kws[r.value])
    ensures forall k :: 0 <= k < |kws| && (r.None? || k < r.value) ==> !HasWholeWord(s, kws[k])
  {
    if kws == [] then None
    else if HasWholeWord(s, kws[0]) then Some(0)
    else match FirstKeyword(s, kws[1..])
      case None => None
      case Some(k) => Some(k + 1)
  }

  /** `detect_entry_type`: income when some income keyword is a whole word
      of the lower-cased text, otherwise expense. */
  function DetectEntryType(text: string): (t: EntryType)
    ensures t == Income <==> exists k :: 0 <= k < |IncomeKeywords| && HasWholeWord(Lower(text), IncomeKeywords[k])
  {
    if FirstKeyword(Lower(text), IncomeKeywords).Some? then Income else Expense
  }

  /** An entry is income exactly when some income keyword occurs as a whole
      word in the lower-cased text. */
  lemma DetectEntryTypeIff(text: string)
    ensures DetectEntryType(text) == Income
        <==> exists k, i :: 0 <= k < |IncomeKeywords| && WholeWordAt(Lower(text), IncomeKeywords[k], i)
  {
    var s := Lower(text);
    if DetectEntryType(text) == Income {
      var k := FirstKeyword(s, IncomeKeywords).value;
      var i := FindWholeWord(s, IncomeKeywords[k], 0).value;
      assert WholeWordAt(s, IncomeKeywords[k], i);
    }
    if exists k, i :: 0 <= k < |IncomeKeywords| && WholeWordAt(s, IncomeKeywords[k], i) {
      var k, i :| 0 <= k < |IncomeKeywords| && WholeWordAt(s, IncomeKeywords[k], i);
      HasWholeWordIff(s, IncomeKeywords[k]);
    }
  }

  // ---------------------------------------------------------------------
  // Amount and currency (extract_amount_and_currency).

  datatype Currency = EUR | USD | GBP | JPY | CHF

  /** The number pattern `\d+(?:[.,]\d+)?` read greedily from a digit at `i`.
      Every pattern below follows the number with a space, a currency symbol,
      a currency code or nothing, none of which is a digit, `.` or `,`; so the
      greedy reading is the one the backtracking matcher settles on. */
  function NumberEnd(s: string, i: nat): (e: nat)
    requires i < |s| && IsDigit(s[i])
    ensures i < e <= |s|
    ensures e == |s| || !IsDigit(s[e])
  {
    var d := SkipDigits(s, i);
    if d + 1 < |s| && (s[d] == '.' || s[d] == ',') && IsDigit(s[d + 1]) then SkipDigits(s, d + 1) else d
  }

  lemma DigitRun(s: string, i: nat, j: nat)
    requires i <= j <= |s|
    requires forall k :: i <= k < j ==> IsDigit(s[k])
    ensures AllDigits(s[i..j])
  {
    forall k | 0 <= k < j - i ensures IsDigit(s[i..j][k]) {
      assert s[i..j][k] == s[i + k];
    }
  }

  /** What the number pattern reads is a numeral. */
  lemma NumberIsNumeral(s: string, i: nat)
    requires i < |s| && IsDigit(s[i])
    ensures IsNumeral(s[i..NumberEnd(s, i)])
  {
    var d := SkipDigits(s, i);
    var e := NumberEnd(s, i);
    var x := s[i..e];
    DigitRun(s, i, d);
    assert x[..d - i] == s[i..d];
    if e != d {
      DigitRun(s, d + 1, e);
      assert x[d - i + 1..] == s[d + 1..e];
    }
    assert IsNumeralSplit(x, d - i);
  }

  /** `x` splits at `d` into digits, optionally followed by `.` or `,` and more digits. */
  predicate IsNumeralSplit(x: string, d: int) {
    && 0 < d <= |x|
    && AllDigits(x[..d])
    && (d == |x| || (d + 1 < |x| && (x[d] == '.' || x[d] == ',') && AllDigits(x[d + 1..])))
  }

  /** A string the number pattern matches as a whole. */
  predicate IsNumeral(x: string) {
    exists d :: 0 < d <= |x| && IsNumeralSplit(x, d)
  }

  /** `amount_str.replace(',', '.')`. */
  function Normalise(x: string): (r: string)
    ensures |r| == |x| && ',' !in r
    ensures forall k :: 0 <= k < |x| ==> r[k] == if x[k] == ',' then '.' else x[k]
  {
    seq(|x|, k requires 0 <= k < |x| => if x[k] == ',' then '.' else x[k])
  }

  /** A decimal numeral: digits, then at most one `.` followed by digits. */
  predicate IsDecimal(x: string) {
    exists d :: 0 < d <= |x| && IsDecimalSplit(x, d)
  }

  predicate IsDecimalSplit(x: string, d: int) {
    && 0 < d <= |x|
    && AllDigits(x[..d])
    && (d == |x| || (d + 1 < |x| && x[d] == '.' && AllDigits(x[d + 1..])))
  }

  lemma NormaliseNumeral(x: string)
    requires IsNumeral(x)
    ensures IsDecimal(Normalise(x))
  {
    var d :| 0 < d <= |x| && IsNumeralSplit(x, d);
    var r := Normalise(x);
    assert r[..d] == x[..d];
    if d < |x| {
      assert r[d + 1..] == x[d + 1..];
    }
    assert IsDecimalSplit(r, d);
  }

  /** The currency patterns, in the order the source tries them. */
  datatype Pattern =
    | SymbolThenNumber(symbol: char)   // `€\s*(\d+(?:[.,]\d+)?)`
    | NumberThenSymbol(symbol: char)   // `(\d+(?:[.,]\d+)?)\s*€`
    | NumberThenCode(code: string)     // `(\d+(?:[.,]\d+)?)\s*EUR`, ignoring case
    | CodeThenNumber(code: string)     // `EUR\s*(\d+(?:[.,]\d+)?)`, ignoring case
    | BareNumber                       // `(\d+(?:[.,]\d+)?)`

  const Euro: char := '\U{20AC}'
  const Pound: char := '\U{00A3}'
  const Yen: char := '\U{00A5}'

  /** The symbols are tried first, each before and after the number; then the
      codes, each after and before the number; then a bare number in euros. */
  const Patterns: seq<(Pattern, Currency)> := [
    (SymbolThenNumber(Euro), EUR), (NumberThenSymbol(Euro), EUR),
    (SymbolThenNumber('$'), USD), (NumberThenSymbol('$'), USD),
    (SymbolThenNumber(Pound), GBP), (NumberThenSymbol(Pound), GBP),
    (SymbolThenNumber(Yen), JPY), (NumberThenSymbol(Yen), JPY),
    (NumberThenCode("EUR"), EUR), (CodeThenNumber("EUR"), EUR),
    (NumberThenCode("USD"), USD), (CodeThenNumber("USD"), USD),
    (NumberThenCode("GBP"), GBP), (CodeThenNumber("GBP"), GBP),
    (NumberThenCode("JPY"), JPY), (CodeThenNumber("JPY"), JPY),
    (NumberThenCode("CHF"), CHF), (CodeThenNumber("CHF"), CHF),
    (BareNumber, EUR)
  ]

  /** `code` occurs at `i`, letters compared without case (`re.IGNORECASE`). */
  predicate CodeAt(s: string, code: string, i: int) {
    0 <= i && i + |code| <= |s| && Lower(s[i..i + |code|]) == Lower(code)
  }

  /** The number starting at `j`, when one does. */
  function NumberFrom(s: string, j: nat): (g: Option<string>)
    requires j <= |s|
    ensures g.Some? ==> j < |s| && IsDigit(s[j]) && g.value == s[j..NumberEnd(s, j)]
  {
    if j < |s| && IsDigit(s[j]) then Some(s[j..NumberEnd(s, j)]) else None
  }

  /** The amount group when pattern `p` matches at position `i`. */
  function MatchAt(p: Pattern, s: string, i: nat): (g: Option<string>)
  {
    if i >= |s| then None
    else match p
      case SymbolThenNumber(c) =>
        if s[i] == c then NumberFrom(s, SkipSpaces(s, i + 1)) else None
      case CodeThenNumber(code) =>
        if CodeAt(s, code, i) then NumberFrom(s, SkipSpaces(s, i + |code|)) else None
      case NumberThenSymbol(c) =>
        if IsDigit(s[i]) then
          var e := NumberEnd(s, i);
          var k := SkipSpaces(s, e);
          if k < |s| && s[k] == c then Some(s[i..e]) else None
        else None
      case NumberThenCode(code) =>
        if IsDigit(s[i]) then
          var e := NumberEnd(s, i);
          if CodeAt(s, code, SkipSpaces(s, e)) then Some(s[i..e]) else None
        else None
      case BareNumber =>
        NumberFrom(s, i)
  }

  /** The leftmost position at or after `i` where `p` matches. */
  function SearchFrom(p: Pattern, s: string, i: nat): (r: Option<nat>)
    requires i <= |s|
    ensures r.Some? ==> i <= r.value < |s| && MatchAt(p, s, r.value).Some?
    ensures forall j :: i <= j && (r.None? || j < r.value) ==> MatchAt(p, s, j).None?
    decreases |s| - i
  {
    if i == |s| then None
    else if MatchAt(p, s, i).Some? then Some(i)
    else SearchFrom(p, s, i + 1)
  }

  /** The amount group of `re.search(p, s)`. */
  function Search(p: Pattern, s: string): (g: Option<string>)
    ensures g.Some? <==> exists i :: MatchAt(p, s, i).Some?
  {
    match SearchFrom(p, s, 0)
    case None => None
    case Some(i) => MatchAt(p, s, i)
  }

  /** Every match reads its amount from a digit of the text. */
  lemma MatchedNumber(p: Pattern, s: string, i: nat) returns (j: nat)
    requires MatchAt(p, s, i).Some?
    ensures j < |s| && IsDigit(s[j]) && MatchAt(p, s, i).value == s[j..NumberEnd(s, j)]
  {
    match p
    case SymbolThenNumber(c) =>
      j := SkipSpaces(s, i + 1);
      assert MatchAt(p, s, i) == NumberFrom(s, j);
    case CodeThenNumber(code) =>
      j := SkipSpaces(s, i + |code|);
      assert MatchAt(p, s, i) == NumberFrom(s, j);
    case NumberThenSymbol(c) =>
      j := i;
      assert IsDigit(s[i]);
    case NumberThenCode(code) =>
      j := i;
      assert IsDigit(s[i]);
    case BareNumber =>
      j := i;
      assert MatchAt(p, s, i) == NumberFrom(s, i);
  }

  lemma SearchedNumeral(p: Pattern, s: string)
    requires Search(p, s).Some?
    ensures IsNumeral(Search(p, s).value)
  {
    var i := SearchFrom(p, s, 0).value;
    var j := MatchedNumber(p, s, i);
    NumberIsNumeral(s, j);
  }

  /** The first pattern of `ps` that matches, with its normalised amount. */
  function FirstMatch(s: string, ps: seq<(Pattern, Currency)>): (r: Option<(string, Currency)>)
    ensures r.Some? ==> IsDecimal(r.value.0)
  {
    if ps == [] then None
    else match Search(ps[0].0, s)
      case Some(g) =>
        SearchedNumeral(ps[0].0, s);
        NormaliseNumeral(g);
        Some((Normalise(g), ps[0].1))
      case None => FirstMatch(s, ps[1..])
  }

  /** `extract_amount_and_currency(text)`: the amount (as the decimal numeral
      `float` is given) and the currency; no amount leaves the currency EUR. */
  function ExtractAmountAndCurrency(text: string): (r: (Option<string>, Currency))
    ensures r.0.None? ==> r.1 == EUR
    ensures r.0.Some? ==> IsDecimal(r.0.value) && ',' !in r.0.value
  {
    match FirstMatch(text, Patterns)
    case Some((amount, currency)) => (Some(amount), currency)
    case None => (None, EUR)
  }

  /** `FirstMatch` picks pattern `k` when it matches and no earlier one does. */
  lemma {:induction false} FirstMatchPicks(s: string, ps: seq<(Pattern, Currency)>, k: nat, g: string)
    requires k < |ps|
    requires Search(ps[k].0, s) == Some(g)
    requires forall j :: 0 <= j < k ==> Search(ps[j].0, s).None?
    ensures FirstMatch(s, ps) == Some((Normalise(g), ps[k].1))
  {
    if k > 0 {
      var rest := ps[1..];
      assert Search(ps[0].0, s).None?;
      assert rest[k - 1] == ps[k];
      forall j | 0 <= j < k - 1 ensures Search(rest[j].0, s).None? {
        assert rest[j] == ps[j + 1];
      }
      FirstMatchPicks(s, rest, k - 1, g);
    }
  }

  lemma {:induction false} FirstMatchFound(s: string, ps: seq<(Pattern, Currency)>) returns (k: nat)
    requires FirstMatch(s, ps).Some?
    ensures k < |ps| && Search(ps[k].0, s).Some?
    ensures forall j :: 0 <= j < k ==> Search(ps[j].0, s).None?
    ensures FirstMatch(s, ps) == Some((Normalise(Search(ps[k].0, s).value), ps[k].1))
  {
    if Search(ps[0].0, s).Some? {
      k := 0;
    } else {
      var k' := FirstMatchFound(s, ps[1..]);
      k := k' + 1;
      forall j | 0 <= j < k ensures Search(ps[j].0, s).None? {
        if j > 0 {
          assert ps[j] == ps[1..][j - 1];
        }
      }
    }
  }

  /** The currency patterns take precedence in their order: the result comes
      from the first pattern that matches anywhere in the text, and there is
      an amount only when some pattern matches. */
  lemma AmountPrecedence(text: string, k: nat)
    requires k < |Patterns|
    ensures (Search(Patterns[k].0, text).Some? && forall j :: 0 <= j < k ==> Search(Patterns[j].0, text).None?)
        ==> ExtractAmountAndCurrency(text) == (Some(Normalise(Search(Patterns[k].0, text).value)), Patterns[k].1)
    ensures ExtractAmountAndCurrency(text).0.Some?
        <==> exists j :: 0 <= j < |Patterns| && Search(Patterns[j].0, text).Some?
  {
    if Search(Patterns[k].0, text).Some? && forall j :: 0 <= j < k ==> Search(Patterns[j].0, text).None? {
      FirstMatchPicks(text, Patterns, k, Search(Patterns[k].0, text).value);
    }
    if ExtractAmountAndCurrency(text).0.Some? {
      var j := FirstMatchFound(text, Patterns);
    }
    if exists j :: 0 <= j < |Patterns| && Search(Patterns[j].0, text).Some? {
      FirstMatchSome(text, Patterns);
    }
  }

  lemma {:induction false} FirstMatchSome(s: string, ps: seq<(Pattern, Currency)>)
    requires exists j :: 0 <= j < |ps| && Search(ps[j].0, s).Some?
    ensures FirstMatch(s, ps).Some?
  {
    if Search(ps[0].0, s).None? {
      var j :| 0 <= j < |ps| && Search(ps[j].0, s).Some?;
      assert ps[1..][j - 1] == ps[j];
      FirstMatchSome(s, ps[1..]);
    }
  }

  /** There is an amount exactly when the text holds a digit. */
  lemma AmountIffDigit(text: string)
    ensures ExtractAmountAndCurrency(text).0.Some? <==> exists i :: 0 <= i < |text| && IsDigit(text[i])
  {
    if exists i :: 0 <= i < |text| && IsDigit(text[i]) {
      var i :| 0 <= i < |text| && IsDigit(text[i]);
      DigitGivesAmount(text, i);
    }
    if ExtractAmountAndCurrency(text).0.Some? {
      var i := AmountHasDigit(text);
    }
  }

  lemma DigitGivesAmount(text: string, i: nat)
    requires i < |text| && IsDigit(text[i])
    ensures ExtractAmountAndCurrency(text).0.Some?
  {
    var bare := |Patterns| - 1;
    assert MatchAt(BareNumber, text, i).Some?;
    assert Search(Patterns[bare].0, text).Some?;
    AmountPrecedence(text, bare);
  }

  lemma AmountHasDigit(text: string) returns (i: nat)
    requires ExtractAmountAndCurrency(text).0.Some?
    ensures i < |text| && IsDigit(text[i])
  {
    AmountPrecedence(text, 0);
    var j :| 0 <= j < |Patterns| && Search(Patterns[j].0, text).Some?;
    var p := Patterns[j].0;
    var m :| MatchAt(p, text, m).Some?;
    i := MatchedNumber(p, text, m);
  }

  /** The symbol or code a pattern looks for belongs to the currency it reports. */
  predicate Announces(p: Pattern, c: Currency) {
    match p
    case SymbolThenNumber(x) => SymbolOf(c) == Some(x)
    case NumberThenSymbol(x) => SymbolOf(c) == Some(x)
    case NumberThenCode(code) => code == CodeOf(c)
    case CodeThenNumber(code) => code == CodeOf(c)
    case BareNumber => c == EUR
  }

  lemma PatternsAnnounce(k: nat)
    requires k < |Patterns|
    ensures Announces(Patterns[k].0, Patterns[k].1)
  {
  }

  /** Where a pattern other than the bare number matches, its symbol or code is in the text. */
  lemma MatchNames(p: Pattern, s: string, i: nat) returns (j: nat)
    requires MatchAt(p, s, i).Some? && !p.BareNumber?
    ensures (p.SymbolThenNumber? || p.NumberThenSymbol?) ==> j < |s| && s[j] == p.symbol
    ensures (p.CodeThenNumber? || p.NumberThenCode?) ==> CodeAt(s, p.code, j)
  {
    match p
    case SymbolThenNumber(c) => j := i;
    case CodeThenNumber(code) => j := i;
    case NumberThenSymbol(c) => j := SkipSpaces(s, NumberEnd(s, i));
    case NumberThenCode(code) => j := SkipSpaces(s, NumberEnd(s, i));
  }

  /** A currency other than the euro is named in the text: by its symbol, or
      by its code in any case; the franc, which has no symbol, by its code. */
  lemma CurrencyIsNamed(text: string)
    requires ExtractAmountAndCurrency(text).1 != EUR
    ensures var c := ExtractAmountAndCurrency(text).1;
      exists i :: 0 <= i < |text| && (CodeAt(text, CodeOf(c), i) || SymbolOf(c) == Some(text[i]))
    ensures ExtractAmountAndCurrency(text).1 == CHF ==> exists i :: CodeAt(text, "CHF", i)
  {
    var k := FirstMatchFound(text, Patterns);
    var p, c := Patterns[k].0, Patterns[k].1;
    PatternsAnnounce(k);
    var i := SearchFrom(p, text, 0).value;
    var j := MatchNames(p, text, i);
  }

  function CodeOf(c: Currency): string {
    match c
    case EUR => "EUR"
    case USD => "USD"
    case GBP => "GBP"
    case JPY => "JPY"
    case CHF => "CHF"
  }

  /** The symbol of a currency; the franc has none. */
  function SymbolOf(c: Currency): Option<char> {
    match c
    case EUR => Some(Euro)
    case USD => Some('$')
    case GBP => Some(Pound)
    case JPY => Some(Yen)
    case CHF => None
  }

  // ---------------------------------------------------------------------
  // Transaction date (extract_date).

  /** The groups of one date match. */
  datatype DateMatch = DateMatch(g1: string, g2: string, g3: string)

  /** `(\d{1,2})[/.-](\d{1,2})[/.-](\d{2,4})` and `(\d{4})[/.-](\d{1,2})[/.-](\d{1,2})`. */
  datatype DatePattern = MonthDayYear | YearMonthDay

  predicate IsDateSeparator(c: char) {
    c == '/' || c == '.' || c == '-'
  }

  /** The end of at most `max` digits read from `i` (`\d{1,max}` taken greedily). */
  function DigitsUpTo(s: string, i: nat, max: nat): (e: nat)
    requires i <= |s|
    ensures i <= e <= |s| && e - i <= max
    ensures AllDigits(s[i..e])
    ensures e - i < max ==> e == |s| || !IsDigit(s[e])
    decreases max
  {
    if max == 0 || i == |s| || !IsDigit(s[i]) then i
    else
      var e := DigitsUpTo(s, i + 1, max - 1);
      assert s[i..e] == [s[i]] + s[i + 1..e];
      e
  }

  /** A group of one or two digits followed by a separator; a shorter group
      would leave a digit where the separator must be, so the greedy reading
      is the only one. Returns the end of the group. */
  function ShortGroup(s: string, i: nat): (e: Option<nat>)
    requires i <= |s|
    ensures e.Some? ==> i < e.value < |s| && e.value - i <= 2 && AllDigits(s[i..e.value])
  {
    var e := DigitsUpTo(s, i, 2);
    if e > i && e < |s| && IsDateSeparator(s[e]) then Some(e) else None
  }

  /** The groups of `pattern` when it matches at `i`. */
  function DateMatchAt(pattern: DatePattern, s: string, i: nat): (m: Option<DateMatch>)
    requires i <= |s|
    ensures m.Some? ==> AllDigits(m.value.g1) && AllDigits(m.value.g2) && AllDigits(m.value.g3)
  {
    match pattern
    case MonthDayYear =>
      var e1 := ShortGroup(s, i);
      var e2 := if e1.Some? then ShortGroup(s, e1.value + 1) else None;
      if e2.None? then None
      else
        var e3 := DigitsUpTo(s, e2.value + 1, 4);
        if e3 - (e2.value + 1) >= 2 then Some(DateMatch(s[i..e1.value], s[e1.value + 1..e2.value], s[e2.value + 1..e3]))
        else None
    case YearMonthDay =>
      var e2 := if DigitsUpTo(s, i, 4) == i + 4 && i + 4 < |s| && IsDateSeparator(s[i + 4]) then ShortGroup(s, i + 5) else None;
      if e2.None? then None
      else
        var e3 := DigitsUpTo(s, e2.value + 1, 2);
        if e3 > e2.value + 1 then Some(DateMatch(s[i..i + 4], s[i + 5..e2.value], s[e2.value + 1..e3])) else None
  }

  /** The leftmost position at or after `i` where `pattern` matches. */
  function DateSearchFrom(pattern: DatePattern, s: string, i: nat): (r: Option<nat>)
    requires i <= |s|
    ensures r.Some? ==> i <= r.value <= |s| && DateMatchAt(pattern, s, r.value).Some?
    ensures forall j :: i <= j <= |s| && (r.None? || j < r.value) ==> DateMatchAt(pattern, s, j).None?
    decreases |s| - i
  {
    if DateMatchAt(pattern, s, i).Some? then Some(i)
    else if i == |s| then None
    else DateSearchFrom(pattern, s, i + 1)
  }

  /** `re.search(pattern, s)`: the groups of the leftmost match at or after `i`. */
  function SearchDate(pattern: DatePattern, s: string, i: nat): (m: Option<DateMatch>)
    requires i <= |s|
    ensures m.Some? ==>
      exists j :: i <= j <= |s| && DateMatchAt(pattern, s, j) == m && forall k :: i <= k < j ==> DateMatchAt(pattern, s, k).None?
    ensures m.None? ==> forall j :: i <= j <= |s| ==> DateMatchAt(pattern, s, j).None?
  {
    match DateSearchFrom(pattern, s, i)
    case Some(j) => DateMatchAt(pattern, s, j)
    case None => None
  }

  /** The date the groups name: year first when the first group has four
      digits, otherwise month, day, year with two-digit years in 2000-2099.
      The result need not be a valid date. */
  function DateOf(m: DateMatch): Date
    requires AllDigits(m.g1) && AllDigits(m.g2) && AllDigits(m.g3)
  {
    if |m.g1| == 4 then Date(DigitsValue(m.g1), DigitsValue(m.g2), DigitsValue(m.g3))
    else
      var year := DigitsValue(m.g3);
      Date(if year < 100 then year + 2000 else year, DigitsValue(m.g1), DigitsValue(m.g2))
  }

  /** The date `pattern` yields: the one its leftmost match names, when that
      is a valid date; an invalid one is the `ValueError` of `datetime(...)`. */
  function PatternDate(pattern: DatePattern, s: string): (d: Option<Date>)
    ensures d.Some? ==> IsValid(d.value)
  {
    match SearchDate(pattern, s, 0)
    case Some(m) => if IsValid(DateOf(m)) then Some(DateOf(m)) else None
    case None => None
  }

  /** The date of the first pattern that yields one; a pattern that yields
      none is passed over. */
  function DateFromPatterns(s: string, patterns: seq<DatePattern>): (d: Option<Date>)
    ensures d.Some? ==> IsValid(d.value)
  {
    if patterns == [] then None
    else if PatternDate(patterns[0], s).Some? then PatternDate(patterns[0], s)
    else DateFromPatterns(s, patterns[1..])
  }

  /** The pattern order of lines 183-186. */
  const SourceDatePatterns: seq<DatePattern> := [MonthDayYear, YearMonthDay]

  /** The order the year-first pattern needs to be reachable on year-first dates. */
  const DatePatternOrder: seq<DatePattern> := [YearMonthDay, MonthDayYear]

  /** `extract_date(text)` as written, with `today` standing for `datetime.now().date()`. */
  function ExtractDateAsWritten(text: string, today: Date): (d: Option<Date>)
    requires IsValid(today)
    ensures d.Some? ==> IsValid(d.value)
    ensures HasWholeWord(Lower(text), "today") ==> d == Some(today)
    ensures !HasWholeWord(Lower(text), "today") ==> d == DateFromPatterns(text, SourceDatePatterns)
  {
    if HasWholeWord(Lower(text), "today") then Some(today)
    else DateFromPatterns(text, SourceDatePatterns)
  }

  /** `extract_date(text)` with the year-first pattern tried first. */
  function ExtractDate(text: string, today: Date): (d: Option<Date>)
    requires IsValid(today)
    ensures d.Some? ==> IsValid(d.value)
    ensures HasWholeWord(Lower(text), "today") ==> d == Some(today)
    ensures !HasWholeWord(Lower(text), "today") ==> d == DateFromPatterns(text, DatePatternOrder)
  {
    if HasWholeWord(Lower(text), "today") then Some(today)
    else DateFromPatterns(text, DatePatternOrder)
  }

  /** A date read month first takes its month and day from the first two
      groups, and a two-digit year lands in 2000-2099. */
  lemma MonthFirstReading(m: DateMatch)
    requires AllDigits(m.g1) && AllDigits(m.g2) && AllDigits(m.g3)
    requires |m.g1| < 4
    ensures DateOf(m).month == DigitsValue(m.g1) && DateOf(m).day == DigitsValue(m.g2)
    ensures |m.g3| == 2 ==> 2000 <= DateOf(m).year < 2100
  {
    if |m.g3| == 2 {
      TwoDigitsValue(m.g3);
    }
  }

  /** A numeral date is the one the first yielding pattern yields. */
  lemma {:induction false} DateFromPatternsFound(s: string, patterns: seq<DatePattern>, d: Date) returns (k: nat)
    requires DateFromPatterns(s, patterns) == Some(d)
    ensures k < |patterns| && PatternDate(patterns[k], s) == Some(d)
    ensures forall j :: 0 <= j < k ==> PatternDate(patterns[j], s).None?
  {
    if PatternDate(patterns[0], s).Some? {
      k := 0;
    } else {
      var k' := DateFromPatternsFound(s, patterns[1..], d);
      k := k' + 1;
      forall j | 0 <= j < k ensures PatternDate(patterns[j], s).None? {
        if j > 0 {
          assert patterns[j] == patterns[1..][j - 1];
        }
      }
    }
  }

  /** No numeral date is found exactly when no pattern yields one. */
  lemma {:induction false} DateFromPatternsNone(s: string, patterns: seq<DatePattern>)
    ensures DateFromPatterns(s, patterns).None? <==> forall j :: 0 <= j < |patterns| ==> PatternDate(patterns[j], s).None?
  {
    if patterns != [] {
      DateFromPatternsNone(s, patterns[1..]);
      forall j | 0 < j < |patterns| ensures patterns[j] == patterns[1..][j - 1] { }
    }
  }

  // ---------------------------------------------------------------------
  // A year-first date (the reading of line 185 that line 184 shadows).

  lemma TwoDigitsValue(r: string)
    requires |r| == 2 && AllDigits(r)
    ensures DigitsValue(r) == 10 * (r[0] as int - '0' as int) + (r[1] as int - '0' as int)
  {
    var front := r[..1];
    assert front == [r[0]] && front[..0] == [];
    assert DigitsValue(front) == 10 * DigitsValue([]) + (r[0] as int - '0' as int);
    assert DigitsValue(r) == 10 * DigitsValue(front) + (r[1] as int - '0' as int);
  }

  function Pad2(n: nat): (r: string)
    requires n < 100
    ensures |r| == 2 && AllDigits(r) && DigitsValue(r) == n
  {
    var r := [DigitChar(n / 10), DigitChar(n % 10)];
    TwoDigitsValue(r);
    r
  }

  function Pad4(n: nat): (r: string)
    requires n < 10000
    ensures |r| == 4 && AllDigits(r) && DigitsValue(r) == n
  {
    var hi, lo := Pad2(n / 100), Pad2(n % 100);
    var r := hi + lo;
    assert r[..3] == hi + lo[..1] && r[..3][..2] == hi;
    assert lo[..1][..0] == [];
    r
  }

  /** `YYYY-MM-DD`. */
  function IsoDate(d: Date): (r: string)
    requires IsValid(d)
    ensures |r| == 10
  {
    Pad4(d.year) + "-" + Pad2(d.month) + "-" + Pad2(d.day)
  }

  lemma IsoDateHasNoToday(d: Date)
    requires IsValid(d)
    ensures !HasWholeWord(Lower(IsoDate(d)), "today")
  {
    var s := IsoDate(d);
    forall k | 0 <= k < |s| ensures s[k] != 't' {
      if k < 4 {
        assert s[k] == Pad4(d.year)[k];
      } else if 4 < k < 7 {
        assert s[k] == Pad2(d.month)[k - 5];
      } else if 7 < k {
        assert s[k] == Pad2(d.day)[k - 8];
      }
    }
    LowerOfLower(s);
    forall i | 0 <= i ensures !OccursAt(s, "today", i) {
      if i < |s| {
        MismatchAt(s, "today", i, 0);
      }
    }
  }

  lemma IsoDateMatches(d: Date)
    requires IsValid(d)
    ensures var s := IsoDate(d);
      DateMatchAt(YearMonthDay, s, 0) == Some(DateMatch(Pad4(d.year), Pad2(d.month), Pad2(d.day)))
  {
    var s := IsoDate(d);
    assert s[..4] == Pad4(d.year) && s[5..7] == Pad2(d.month) && s[8..10] == Pad2(d.day);
    assert s[4] == '-' && s[7] == '-';
    assert forall k :: 0 <= k < 4 ==> s[k] == Pad4(d.year)[k];
    assert s[0..4] == s[..4];
    assert forall k :: 5 <= k < 7 ==> s[k] == Pad2(d.month)[k - 5];
    assert forall k :: 8 <= k < 10 ==> s[k] == Pad2(d.day)[k - 8];
    assert DigitsUpTo(s, 0, 4) == 4;
    assert DigitsUpTo(s, 5, 2) == 7;
    assert DigitsUpTo(s, 8, 2) == 10;
  }

  /** With the year-first pattern first, a date written `YYYY-MM-DD` is read
      as that date, for every valid date (years below 1000 zero-padded). */
  lemma IsoDateIsRead(d: Date, today: Date)
    requires IsValid(d) && IsValid(today)
    ensures ExtractDate(IsoDate(d), today) == Some(d)
  {
    IsoDateHasNoToday(d);
    IsoDateMatches(d);
    assert SearchDate(YearMonthDay, IsoDate(d), 0) == DateMatchAt(YearMonthDay, IsoDate(d), 0);
  }

  lemma IsoExample()
    ensures IsoDate(Date(2001, 2, 3)) == "2001-02-03"
  {
    assert Pad2(20) == "20" && Pad2(1) == "01";
    assert Pad4(2001) == "2001";
    assert Pad2(2) == "02" && Pad2(3) == "03";
  }

  const Misread: string := "2001-02-03"

  lemma MisreadNotAt0()
    ensures DateMatchAt(MonthDayYear, Misread, 0).None?
  {
    assert DigitsUpTo(Misread, 0, 2) == 2;
  }

  lemma MisreadNotAt1()
    ensures DateMatchAt(MonthDayYear, Misread, 1).None?
  {
    assert DigitsUpTo(Misread, 1, 2) == 3;
  }

  lemma MisreadAt2()
    ensures DateMatchAt(MonthDayYear, Misread, 2) == Some(DateMatch("01", "02", "03"))
  {
    var s := Misread;
    assert DigitsUpTo(s, 2, 2) == 4;
    assert DigitsUpTo(s, 5, 2) == 7;
    assert DigitsUpTo(s, 8, 4) == 10;
    assert s[2..4] == "01" && s[5..7] == "02" && s[8..10] == "03";
  }

  lemma MisreadMatch()
    ensures SearchDate(MonthDayYear, Misread, 0) == Some(DateMatch("01", "02", "03"))
  {
    MisreadNotAt0();
    MisreadNotAt1();
    MisreadAt2();
    assert DateSearchFrom(MonthDayYear, Misread, 2) == Some(2);
    assert DateSearchFrom(MonthDayYear, Misread, 1) == Some(2);
    assert DateSearchFrom(MonthDayYear, Misread, 0) == Some(2);
  }

  /** As written, "2001-02-03" is read as 2 January 2003. */
  lemma MisreadAsWritten(today: Date)
    requires IsValid(today)
    ensures ExtractDateAsWritten(Misread, today) == Some(Date(2003, 1, 2))
  {
    IsoExample();
    IsoDateHasNoToday(Date(2001, 2, 3));
    MisreadMatch();
    var m := DateMatch("01", "02", "03");
    TwoDigitsValue("01");
    TwoDigitsValue("02");
    TwoDigitsValue("03");
    assert DateOf(m) == Date(2003, 1, 2);
  }

  /** As written, the month-first pattern shadows the year-first one: inside
      `2001-02-03` it matches `01-02-03` and yields 2 January 2003, where
      trying the year-first pattern first yields 3 February 2001. */
  lemma YearFirstDateMisread(today: Date)
    requires IsValid(today)
    ensures ExtractDateAsWritten("2001-02-03", today) == Some(Date(2003, 1, 2))
    ensures ExtractDate("2001-02-03", today) == Some(Date(2001, 2, 3))
  {
    IsoExample();
    IsoDateIsRead(Date(2001, 2, 3), today);
    MisreadAsWritten(today);
    assert Misread == "2001-02-03";
  }

  // ---------------------------------------------------------------------
  // Processing an entry (process_accounts_entry).

  /** The arguments of one `save_accounts_entry` call. */
  datatype AccountsRow = AccountsRow(
    entryType: EntryType, amount: string, currency: Currency, note: string,
    date: Option<Date>, sourceTranscriptionId: Option<int>)

  /** The entry data returned on success. */
  datatype AccountsEntry = AccountsEntry(
    id: int, entryType: EntryType, amount: string, currency: Currency, note: string, date: Option<Date>)

  /** The row `process_accounts_entry(text, db_id)` saves, or None when the
      text holds no amount and nothing is saved. The date is the one line 42
      computes, with the pattern order as written. */
  function AccountsRowFor(text: string, dbId: Option<int>, today: Date): (r: Option<AccountsRow>)
    requires IsValid(today)
    ensures r.Some? <==> ExtractAmountAndCurrency(text).0.Some?
    ensures r.Some? ==> r.value.note == text && r.value.sourceTranscriptionId == dbId
    ensures r.Some? ==> r.value.date == ExtractDateAsWritten(text, today)
    ensures r.Some? ==>
      && r.value.entryType == DetectEntryType(text)
      && r.value.amount == ExtractAmountAndCurrency(text).0.value
      && r.value.currency == ExtractAmountAndCurrency(text).1
    ensures r.Some? ==> r.value.date.None? || IsValid(r.value.date.value)
  {
    var (amount, currency) := ExtractAmountAndCurrency(text);
    if amount.None? then None
    else Some(AccountsRow(DetectEntryType(text), amount.value, currency, text, ExtractDateAsWritten(text, today), dbId))
  }

  /** The source saves an ISO-dated expense under the misread date: the
      note "2001-02-03" holds the amount 2001 and is stored as dated
      2 January 2003, where the corrected order would date it 3 February 2001. */
  lemma IsoDatedRowMisdated(today: Date)
    requires IsValid(today)
    ensures AccountsRowFor("2001-02-03", None, today).Some?
    ensures AccountsRowFor("2001-02-03", None, today).value.date == Some(Date(2003, 1, 2))
    ensures ExtractDate("2001-02-03", today) == Some(Date(2001, 2, 3))
  {
    YearFirstDateMisread(today);
    AmountIffDigit("2001-02-03");
    assert IsDigit("2001-02-03"[0]);
  }

  /** `process_accounts_entry(text, db_id)`, where `save` answers the one
      `save_accounts_entry` call; a save that raises or returns a falsy id
      makes the entry fail. */
  function ProcessAccountsEntry(text: string, dbId: Option<int>, today: Date, save: AccountsRow -> SaveOutcome)
    : (r: (bool, Option<AccountsEntry>))
    requires IsValid(today)
    ensures r.0 <==> r.1.Some?
    ensures r.0 ==> AccountsRowFor(text, dbId, today).Some?
    ensures r.1.Some? ==>
      var row := AccountsRowFor(text, dbId, today).value;
      && save(row) == Saved(r.1.value.id) && r.1.value.id != 0
      && r.1.value == AccountsEntry(r.1.value.id, row.entryType, row.amount, row.currency, text, row.date)
  {
    match AccountsRowFor(text, dbId, today)
    case None => (false, None)
    case Some(row) =>
      match save(row)
      case Saved(id) =>
        if id == 0 then (false, None)
        else (true, Some(AccountsEntry(id, row.entryType, row.amount, row.currency, row.note, row.date)))
      case _ => (false, None)
  }

  /** A text without a digit is refused before anything is saved, whatever the store would answer. */
  lemma NoAmountNoSave(text: string, dbId: Option<int>, today: Date, save: AccountsRow -> SaveOutcome)
    requires IsValid(today)
    requires forall i :: 0 <= i < |text| ==> !IsDigit(text[i])
    ensures AccountsRowFor(text, dbId, today).None?
    ensures ProcessAccountsEntry(text, dbId, today, save) == (false, None)
  {
    AmountIffDigit(text);
  }

  /** The entry succeeds exactly when the text holds a digit and the save
      returns a truthy id. */
  lemma AccountsSuccessIff(text: string, dbId: Option<int>, today: Date, save: AccountsRow -> SaveOutcome)
    requires IsValid(today)
    ensures AccountsRowFor(text, dbId, today).Some? <==> exists i :: 0 <= i < |text| && IsDigit(text[i])
    ensures ProcessAccountsEntry(text, dbId, today, save).0
        <==> match AccountsRowFor(text, dbId, today)
             case None => false
             case Some(row) => save(row).Saved? && save(row).id != 0
  {
    AmountIffDigit(text);
  }
}
