/** The `exchange` command protocol: recognising the directive in an inbound
    chat line, and the validators that pick its day count and currency set. */
module Protocol {
  import opened Py

  /** The currencies reported by default, and those selected by `all`. */
  const BASE_CURRENCIES: seq<string> := ["EUR", "USD"]
  const ALL_CURRENCIES: seq<string> := ["EUR", "USD", "CHF", "CZK", "GBP", "PLN"]

  /** How many days before today an `exchange` directive may reach back. */
  const MAX_ARCHIVE_DAYS: int := 10

  /** The parse of one inbound line: is it a directive, how many archive days,
      which currencies. */
  datatype Command = Command(isExchange: bool, days: int, currencies: seq<string>)

  /** The answer for every line that is not a directive. */
  const NotADirective := Command(false, 0, BASE_CURRENCIES)

  /** `check_all_currencies`: the extended set for `all` in any letter case,
      the base pair for anything else. */
  function CheckAllCurrencies(param: string): (r: seq<string>)
    ensures r == ALL_CURRENCIES <==> SpellsAll(param)
    ensures r == BASE_CURRENCIES <==> !SpellsAll(param)
  {
    AllInAnyCase(param);
    if Lower(param) == "all" then ALL_CURRENCIES else BASE_CURRENCIES
  }

  /** `w` is the word `all`, each letter in either case. */
  predicate SpellsAll(w: string) {
    && |w| == 3
    && (w[0] == 'a' || w[0] == 'A')
    && (w[1] == 'l' || w[1] == 'L')
    && (w[2] == 'l' || w[2] == 'L')
  }

  /** `w.lower() == "all"` exactly for the eight spellings of `all`. */
  lemma AllInAnyCase(w: string)
    ensures Lower(w) == "all" <==> SpellsAll(w)
  {
    if Lower(w) == "all" {
      assert LowerChar(w[0]) == 'a' && LowerChar(w[1]) == 'l' && LowerChar(w[2]) == 'l';
    }
    if SpellsAll(w) {
      LowerOf(w, "all");
    }
  }

  /** `check_day_range`: the nearest day count in `[0, MAX_ARCHIVE_DAYS]`. */
  function CheckDayRange(day: int): (r: int)
    ensures 0 <= r <= MAX_ARCHIVE_DAYS
    ensures 0 <= day <= MAX_ARCHIVE_DAYS ==> r == day
    ensures day < 0 ==> r == 0
    ensures day > MAX_ARCHIVE_DAYS ==> r == MAX_ARCHIVE_DAYS
  {
    var atLeastZero := if day < 0 then 0 else day;
    if atLeastZero < MAX_ARCHIVE_DAYS then atLeastZero else MAX_ARCHIVE_DAYS
  }

  /** Clamping twice is clamping once. */
  lemma CheckDayRangeIdempotent(day: int)
    ensures CheckDayRange(CheckDayRange(day)) == CheckDayRange(day)
  {
  }

  /** `check_days`: the day count a string asks for, clamped into
      `[0, MAX_ARCHIVE_DAYS]`; 0 when `int()` rejects the string. */
  function CheckDays(days: string): (r: int)
    ensures 0 <= r <= MAX_ARCHIVE_DAYS
    ensures PyInt(days) == None ==> r == 0
    ensures PyInt(days) != None ==> r == CheckDayRange(PyInt(days).value)
  {
    match PyInt(days)
    case None => 0
    case Some(n) =>
      var atLeastZero := if n < 0 then 0 else n;
      if atLeastZero < MAX_ARCHIVE_DAYS then atLeastZero else MAX_ARCHIVE_DAYS
  }

  /** The numeral of any integer is read back and clamped to the nearest
      bound: negative counts become 0, counts above the maximum become it;
      a numeral too long for `int()` makes the call raise, which gives 0. */
  lemma CheckDaysOfNumeral(n: int)
    ensures n < 0 ==> CheckDays(Show(n)) == 0
    ensures 0 <= n <= MAX_ARCHIVE_DAYS ==> CheckDays(Show(n)) == n
    ensures n > MAX_ARCHIVE_DAYS ==>
      CheckDays(Show(n)) == if DigitCount(n) <= MAX_STR_DIGITS then MAX_ARCHIVE_DAYS else 0
  {
    ShowRoundTrip(n);
    if 0 <= n <= MAX_ARCHIVE_DAYS {
      ShortNumeral(n);
    }
  }

  /** A day count has at most two digits. */
  lemma ShortNumeral(n: nat)
    requires n <= MAX_ARCHIVE_DAYS
    ensures |NatDigits(n)| <= 2
  {
    if n >= 10 {
      assert NatDigits(n) == NatDigits(n / 10) + [DigitChar(n % 10)];
    }
  }

  /** More than `MAX_STR_DIGITS` digits: `int()` raises and the count is 0. */
  lemma CheckDaysTooManyDigits(days: string)
    requires IsDecimalString(days) && |days| > MAX_STR_DIGITS
    ensures CheckDays(days) == 0
  {
    DecimalStringValue(days);
  }

  /** Worked examples: "-5" gives 0, "999" gives the maximum, "abc" gives 0. */
  lemma CheckDaysNegative()
    ensures CheckDays("-5") == 0
  {
    assert Show(-5) == "-5";
    CheckDaysOfNumeral(-5);
  }

  lemma CheckDaysTooLarge()
    ensures CheckDays("999") == MAX_ARCHIVE_DAYS
  {
    assert NatDigits(9) == "9";
    assert NatDigits(99) == "99";
    assert Show(999) == "999";
    CheckDaysOfNumeral(999);
  }

  lemma CheckDaysNotANumber()
    ensures CheckDays("abc") == 0
  {
    assert StripLeft("abc") == "abc";
    assert Strip("abc") == "abc";
    assert !IsDigitRun("abc");
  }

  /** The day count and currency set picked by the parameters after
      `exchange`, before clamping; `int()` raising on a digit string that is
      not decimal propagates as `ValueError`. */
  function ExchangeParams(params: seq<string>): (r: Result<(int, seq<string>)>)
    ensures r.Err? ==> r.error == ValueError && |params| >= 1
    ensures r.Ok? ==> r.value.1 == BASE_CURRENCIES || r.value.1 == ALL_CURRENCIES
  {
    var first: Result<(int, seq<string>)> :=
      if params == [] then Ok((0, BASE_CURRENCIES))
      else if IsDigitString(params[0]) then
        match PyInt(params[0])
        case None => Err(ValueError)
        case Some(n) => Ok((n, BASE_CURRENCIES))
      else if Lower(params[0]) == "all" then Ok((0, ALL_CURRENCIES))
      else Ok((0, BASE_CURRENCIES));
    match first
    case Err(e) => Err(e)
    case Ok((days, currencies)) =>
      if |params| >= 2 && Lower(params[1]) == "all" then Ok((days, ALL_CURRENCIES))
      else Ok((days, currencies))
  }

  /** `check_exchange_message`: split the line on whitespace; a first token
      that lower-cases to `exchange` makes it a directive whose parameters
      give the day count and currencies. A line with no token at all fails
      the unpacking of the split and raises `ValueError`. */
  function CheckExchangeMessage(message: string): (r: Result<Command>)
    ensures Split(message) == [] <==> r == Err(ValueError) && AllSpace(message)
    ensures r.Ok? ==> 0 <= r.value.days <= MAX_ARCHIVE_DAYS
    ensures r.Ok? ==> r.value.currencies == BASE_CURRENCIES || r.value.currencies == ALL_CURRENCIES
    ensures r.Ok? && !r.value.isExchange ==> r.value == NotADirective
  {
    ParseWords(Split(message))
  }

  /** What `check_exchange_message` makes of the tokens of a line. */
  function ParseWords(words: seq<string>): (r: Result<Command>)
    ensures r.Err? ==> r.error == ValueError
    ensures words == [] ==> r.Err?
    ensures r.Ok? ==> 0 <= r.value.days <= MAX_ARCHIVE_DAYS
    ensures r.Ok? && !r.value.isExchange ==> r.value == NotADirective
  {
    if words == [] then Err(ValueError)
    else
      var command, params := words[0], words[1..];
      if Lower(command) == "exchange" then
        match ExchangeParams(params)
        case Err(e) => Err(e)
        case Ok((days, currencies)) => Ok(Command(true, CheckDayRange(days), currencies))
      else Ok(NotADirective)
  }

  /** A digit string never reads as `all`. */
  lemma DigitsAreNotAll(w: string)
    requires IsDigitString(w)
    ensures Lower(w) != "all"
  {
    assert Lower(w)[0] == LowerChar(w[0]) != 'a';
  }

  /** A line whose first token is not `exchange` is plain chat. */
  lemma PlainChat(message: string)
    requires Split(message) != [] && Lower(Split(message)[0]) != "exchange"
    ensures CheckExchangeMessage(message) == Ok(NotADirective)
  {
  }

  /** A directive, declaratively: it fails only when its first parameter is a
      digit string `int()` rejects; the extended set is chosen exactly when the
      first or the second parameter reads `all`; the day count is the first
      parameter when that is a decimal numeral, clamped, and 0 otherwise. */
  lemma Directive(message: string)
    requires Split(message) != [] && Lower(Split(message)[0]) == "exchange"
    ensures var params := Split(message)[1..];
      var r := CheckExchangeMessage(message);
      && (r.Err? <==> |params| >= 1 && Refused(params[0]))
      && (r.Ok? ==>
          && r.value.isExchange
          && (r.value.currencies == ALL_CURRENCIES <==> ReadsAll(params, 0) || ReadsAll(params, 1))
          && r.value.days ==
               if |params| >= 1 && IsDecimalString(params[0])
               then CheckDayRange(DigitsValue(params[0]))
               else 0)
  {
    var words := Split(message);
    ByWords(message, words);
    ParamsMeaning(words[1..]);
  }

  /** `ExchangeParams` declaratively, before the day count is clamped. */
  lemma ParamsMeaning(params: seq<string>)
    ensures var r := ExchangeParams(params);
      && (r.Err? <==> |params| >= 1 && Refused(params[0]))
      && (r.Err? ==> r.error == ValueError)
      && (r.Ok? ==>
          && (r.value.1 == ALL_CURRENCIES <==> ReadsAll(params, 0) || ReadsAll(params, 1))
          && r.value.0 ==
               if |params| >= 1 && IsDecimalString(params[0]) then DigitsValue(params[0]) else 0)
  {
    ParamsFailure(params);
    ParamsCurrencies(params);
  }

  /** Only a digit string that `int()` rejects makes the parameters fail;
      otherwise a decimal first parameter is the day count. */
  lemma ParamsFailure(params: seq<string>)
    ensures var r := ExchangeParams(params);
      && (r.Err? <==> |params| >= 1 && Refused(params[0]))
      && (r.Err? ==> r.error == ValueError)
      && (r.Ok? ==>
            r.value.0 == if |params| >= 1 && IsDecimalString(params[0]) then DigitsValue(params[0]) else 0)
  {
    if |params| >= 1 && IsDigitString(params[0]) {
      if IsDecimalString(params[0]) {
        DecimalStringValue(params[0]);
      } else {
        NonDecimalDigitsRejected(params[0]);
      }
    } else if |params| >= 1 {
      assert !IsDecimalString(params[0]);
    }
  }

  /** A word `isdigit()` accepts but `int()` refuses: it holds a digit that
      is not an ASCII digit, or more than `MAX_STR_DIGITS` digits. */
  predicate Refused(w: string) {
    IsDigitString(w) && (!IsDecimalString(w) || |w| > MAX_STR_DIGITS)
  }

  /** Parameter `k` is present and reads `all` in any letter case. */
  predicate ReadsAll(params: seq<string>, k: nat) {
    k < |params| && Lower(params[k]) == "all"
  }

  /** The extended set exactly when the first or second parameter reads
      `all`. */
  lemma ParamsCurrencies(params: seq<string>)
    ensures var r := ExchangeParams(params);
      r.Ok? ==> (r.value.1 == ALL_CURRENCIES <==> ReadsAll(params, 0) || ReadsAll(params, 1))
  {
    if |params| >= 1 && IsDigitString(params[0]) {
      DigitsAreNotAll(params[0]);
    }
  }

  /** The command a directive's words make, given what its parameters say. */
  lemma DirectiveOf(command: string, params: seq<string>, days: int, currencies: seq<string>)
    requires Lower(command) == "exchange"
    requires !(|params| >= 1 && Refused(params[0]))
    requires days == if |params| >= 1 && IsDecimalString(params[0]) then CheckDayRange(DigitsValue(params[0])) else 0
    requires currencies == if ReadsAll(params, 0) || ReadsAll(params, 1) then ALL_CURRENCIES else BASE_CURRENCIES
    ensures ParseWords([command] + params) == Ok(Command(true, days, currencies))
  {
    ParamsMeaning(params);
    assert ([command] + params)[0] == command && ([command] + params)[1..] == params;
  }

  /** How `str.split()` tokenises three words joined by single spaces. */
  lemma SplitThree(a: string, b: string, c: string)
    requires IsWord(a) && IsWord(b) && IsWord(c)
    ensures Split(a + " " + b + " " + c) == [a, b, c]
  {
    SplitWord(a);
    SplitWord(b);
    SplitWord(c);
    SplitAtSpace(b, ' ', c);
    assert a + " " + b + " " + c == a + [' '] + (b + [' '] + c);
    SplitAtSpace(a, ' ', b + [' '] + c);
  }

  /** How `str.split()` tokenises two words joined by a single space. */
  lemma SplitTwo(a: string, b: string)
    requires IsWord(a) && IsWord(b)
    ensures Split(a + " " + b) == [a, b]
  {
    SplitWord(a);
    SplitWord(b);
    assert a + " " + b == a + [' '] + b;
    SplitAtSpace(a, ' ', b);
  }

  lemma ByWords(message: string, words: seq<string>)
    requires Split(message) == words
    ensures CheckExchangeMessage(message) == ParseWords(words)
  {
  }

  // Worked examples of the protocol. Each states what one line makes, and
  // is proved from the tokens of the line and from the meaning of its words;
  // every fact about a literal is a lemma of its own.

  /** The keywords read as themselves in any letter case. */
  lemma LowerExchange()
    ensures Lower("exchange") == "exchange"
  {
    LowerOfLower("exchange");
  }

  lemma UpperExchange()
    ensures Lower("EXCHANGE") == "exchange"
  {
    LowerOf("EXCHANGE", "exchange");
  }

  lemma LowerAll()
    ensures Lower("all") == "all"
  {
    LowerOfLower("all");
  }

  lemma NumeralThree()
    ensures IsDecimalString("3") && DigitsValue("3") == 3
  {
  }

  lemma NumeralFifteen()
    ensures IsDecimalString("15") && DigitsValue("15") == 15
  {
  }

  lemma ExampleDaysAndAll()
    ensures CheckExchangeMessage("exchange 3 all") == Ok(Command(true, 3, ALL_CURRENCIES))
  {
    TokensOfDaysAndAll();
    ParseOfDaysAndAll();
    ByWords("exchange 3 all", ["exchange", "3", "all"]);
  }

  lemma TokensOfDaysAndAll()
    ensures Split("exchange 3 all") == ["exchange", "3", "all"]
  {
    SplitThree("exchange", "3", "all");
    TextOfDaysAndAll();
  }

  lemma TextOfDaysAndAll()
    ensures "exchange 3 all" == "exchange" + " " + "3" + " " + "all"
  {
  }

  lemma ParseOfDaysAndAll()
    ensures ParseWords(["exchange", "3", "all"]) == Ok(Command(true, 3, ALL_CURRENCIES))
  {
    LowerExchange();
    LowerAll();
    NumeralThree();
    DirectiveOf("exchange", ["3", "all"], 3, ALL_CURRENCIES);
    WordsOfDaysAndAll();
  }

  lemma WordsOfDaysAndAll()
    ensures ["exchange"] + ["3", "all"] == ["exchange", "3", "all"]
  {
  }

  lemma ExampleAll()
    ensures CheckExchangeMessage("exchange all") == Ok(Command(true, 0, ALL_CURRENCIES))
  {
    TokensOfAll();
    ParseOfAll();
    ByWords("exchange all", ["exchange", "all"]);
  }

  lemma TokensOfAll()
    ensures Split("exchange all") == ["exchange", "all"]
  {
    SplitTwo("exchange", "all");
    TextOfAll();
  }

  lemma TextOfAll()
    ensures "exchange all" == "exchange" + " " + "all"
  {
  }

  lemma ParseOfAll()
    ensures ParseWords(["exchange", "all"]) == Ok(Command(true, 0, ALL_CURRENCIES))
  {
    LowerExchange();
    LowerAll();
    assert !IsDigitChar('a');
    DirectiveOf("exchange", ["all"], 0, ALL_CURRENCIES);
    WordsOfAll();
  }

  lemma WordsOfAll()
    ensures ["exchange"] + ["all"] == ["exchange", "all"]
  {
  }

  lemma ExampleTooManyDays()
    ensures CheckExchangeMessage("exchange 15") == Ok(Command(true, 10, BASE_CURRENCIES))
  {
    TokensOfTooManyDays();
    ParseOfTooManyDays();
    ByWords("exchange 15", ["exchange", "15"]);
  }

  lemma TokensOfTooManyDays()
    ensures Split("exchange 15") == ["exchange", "15"]
  {
    SplitTwo("exchange", "15");
    TextOfTooManyDays();
  }

  lemma TextOfTooManyDays()
    ensures "exchange 15" == "exchange" + " " + "15"
  {
  }

  lemma ParseOfTooManyDays()
    ensures ParseWords(["exchange", "15"]) == Ok(Command(true, 10, BASE_CURRENCIES))
  {
    LowerExchange();
    NumeralFifteen();
    DirectiveOf("exchange", ["15"], 10, BASE_CURRENCIES);
    WordsOfTooManyDays();
  }

  lemma WordsOfTooManyDays()
    ensures ["exchange"] + ["15"] == ["exchange", "15"]
  {
  }

  lemma ExampleNegativeDays()
    ensures CheckExchangeMessage("exchange -5") == Ok(Command(true, 0, BASE_CURRENCIES))
  {
    TokensOfNegativeDays();
    ParseOfNegativeDays();
    ByWords("exchange -5", ["exchange", "-5"]);
  }

  lemma TokensOfNegativeDays()
    ensures Split("exchange -5") == ["exchange", "-5"]
  {
    SplitTwo("exchange", "-5");
    TextOfNegativeDays();
  }

  lemma TextOfNegativeDays()
    ensures "exchange -5" == "exchange" + " " + "-5"
  {
  }

  lemma ParseOfNegativeDays()
    ensures ParseWords(["exchange", "-5"]) == Ok(Command(true, 0, BASE_CURRENCIES))
  {
    LowerExchange();
    SignedNumeral();
    DirectiveOf("exchange", ["-5"], 0, BASE_CURRENCIES);
    WordsOfNegativeDays();
  }

  /** A sign is not a digit: `"-5".isdigit()` is false. */
  lemma SignedNumeral()
    ensures !IsDigitString("-5") && Lower("-5") != "all"
  {
    assert !IsDigitChar("-5"[0]);
    assert |Lower("-5")| == 2;
  }

  lemma WordsOfNegativeDays()
    ensures ["exchange"] + ["-5"] == ["exchange", "-5"]
  {
  }

  lemma ExampleUpperCase()
    ensures CheckExchangeMessage("EXCHANGE 3") == Ok(Command(true, 3, BASE_CURRENCIES))
  {
    TokensOfUpperCase();
    ParseOfUpperCase();
    ByWords("EXCHANGE 3", ["EXCHANGE", "3"]);
  }

  lemma TokensOfUpperCase()
    ensures Split("EXCHANGE 3") == ["EXCHANGE", "3"]
  {
    SplitTwo("EXCHANGE", "3");
    TextOfUpperCase();
  }

  lemma TextOfUpperCase()
    ensures "EXCHANGE 3" == "EXCHANGE" + " " + "3"
  {
  }

  lemma ParseOfUpperCase()
    ensures ParseWords(["EXCHANGE", "3"]) == Ok(Command(true, 3, BASE_CURRENCIES))
  {
    UpperExchange();
    NumeralThree();
    DirectiveOf("EXCHANGE", ["3"], 3, BASE_CURRENCIES);
    WordsOfUpperCase();
  }

  lemma WordsOfUpperCase()
    ensures ["EXCHANGE"] + ["3"] == ["EXCHANGE", "3"]
  {
  }

  lemma ExampleChat()
    ensures CheckExchangeMessage("hello world") == Ok(NotADirective)
  {
    TokensOfChat();
    ParseOfChat();
    ByWords("hello world", ["hello", "world"]);
  }

  lemma TokensOfChat()
    ensures Split("hello world") == ["hello", "world"]
  {
    SplitTwo("hello", "world");
    TextOfChat();
  }

  lemma TextOfChat()
    ensures "hello world" == "hello" + " " + "world"
  {
  }

  lemma ParseOfChat()
    ensures ParseWords(["hello", "world"]) == Ok(NotADirective)
  {
    assert Lower("hello") != "exchange";
  }

  /** A superscript two passes `isdigit` but not `int()`: the call raises. */
  lemma ExampleSuperscript()
    ensures CheckExchangeMessage("exchange \U{b2}") == Err(ValueError)
  {
    TokensOfSuperscript();
    ParseOfSuperscript();
    ByWords("exchange \U{b2}", ["exchange", "\U{b2}"]);
  }

  lemma TokensOfSuperscript()
    ensures Split("exchange \U{b2}") == ["exchange", "\U{b2}"]
  {
    SplitTwo("exchange", "\U{b2}");
    TextOfSuperscript();
  }

  lemma TextOfSuperscript()
    ensures "exchange \U{b2}" == "exchange" + " " + "\U{b2}"
  {
  }

  lemma ParseOfSuperscript()
    ensures ParseWords(["exchange", "\U{b2}"]) == Err(ValueError)
  {
    LowerExchange();
    SuperscriptRejected();
    assert ExchangeParams(["\U{b2}"]) == Err(ValueError);
  }

  lemma SuperscriptRejected()
    ensures PyInt("\U{b2}") == None && IsDigitString("\U{b2}")
  {
    assert !IsDecimal("\U{b2}"[0]) && IsDigitString("\U{b2}");
    NonDecimalDigitsRejected("\U{b2}");
  }

  /** A blank line has no command token: the unpacking raises. */
  lemma ExampleBlank()
    ensures CheckExchangeMessage(" \t ") == Err(ValueError)
  {
    assert AllSpace(" \t ");
  }
}
