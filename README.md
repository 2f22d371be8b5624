# Exchange-rate chat relay, modelled in Dafny

The system is a websocket chat relay. Every connection is given a random
full name when it registers, and joins one membership set shared by all
`Server` instances. Each line a connection sends is echoed as
`"<name>: <line>"` to every member. A line whose first word is `exchange`
(in any letter case) is also a directive: `exchange [days] [all]`. For a
directive the server:

1. appends an audit line to the exchange log;
2. announces the request to every member;
3. walks today and up to ten archive days, fetches each day's PrivatBank
   record and keeps the requested currencies;
4. broadcasts a heading and the rendered rates table.

The model has six modules:

- `Py`: the Python builtins the core relies on. These are exceptions as
  values, `str.isspace`, `str.split()`, `str.lower()`, `str.isdigit()`,
  `int(str)` and `str(int)`.
- `Protocol`: `check_all_currencies`, `check_days`, `check_day_range` and
  `check_exchange_message`, with the constants.
- `Calendar`: the proleptic Gregorian dates of Python's `datetime`. It covers
  stepping one day back and forth, day numbers, and
  `strftime("%d.%m.%Y")` with the parse back.
- `DateHandler`: `dates_list_sync` as a function and the generator
  `dates_list` as a method with a loop.
- `Rates`: `process_response_data` on a decoded bank record, and `get_data`
  as a method with a loop, proved against a specification function.
- `Relay`: the `Server` class, with `register`, `unregister`,
  `send_to_clients`, `distribute` and `ws_handler`. The shared class
  attribute `clients` is a `Registry` object. Each connection's `name`
  attribute, and what each transport and the exchange log received, live in
  a `Network` object.

The outside world is an input to the model:

- today's date, as a day number;
- the outcome of fetching each date key;
- the iteration order of the membership set;
- which members' `send` raises;
- each of these as it stands when a line arrives: every inbound line comes
  with its own world (an `Arrival`);
- the name picked for a connection;
- the HTML renderer.

### Behaviour worth knowing

- `unregister` of a connection that is not a member raises `KeyError`, since
  `set.remove` is used, not `discard`.
- A `send` that raises inside `send_to_clients` propagates at once. The
  members after it receive nothing, and the turn and `distribute` end with
  that exception. The sender's `ws_handler` then unregisters the sender. It
  swallows `ConnectionClosedOK`, which is what a send to a cleanly closed
  peer raises, and re-raises any other exception.
- A blank line fails the unpacking `command, *params = message.split()` and
  raises `ValueError`.
- A first parameter that `str.isdigit()` accepts but `int()` rejects makes
  `int()` raise `ValueError`. Superscript `²` is such a parameter, and so is
  a run of more than 4300 ASCII digits: `int()` refuses to convert more
  digits than `sys.get_int_max_str_digits()`, 4300 by default. `check_days`
  catches that error and gives 0.
- A bank record without `date` or `exchangeRate` raises `KeyError`. So does a
  record with an entry without `currency`, or a requested currency entry
  without a rate. Only `HttpGetError` is caught per day, so the `KeyError`
  ends `get_data`. A failed fetch is skipped.
- Stepping back past 1 January of year 1 raises `OverflowError` in
  `dates_list`. This happens after the keys down to that day have been
  yielded and processed.

## Model

Some definitions carry no contract of their own; the rows of the lemmas
about them state what they mean. `Py.PyInt` (`int()`) and `Py.IsDigitString`
(`str.isdigit()`) are covered by `Py.DecimalStringValue`,
`Py.UnderscoreBetweenDigits`, `Py.NonDecimalDigitsRejected` and
`Py.ShowRoundTrip`. `Calendar.Strftime` is covered by
`Calendar.ParseStrftime`, `Calendar.StrftimeInjective` and
`Calendar.StrftimeExample`. The texts `Relay.Echo`, `Relay.AuditLine`,
`Relay.Announcement` and `Relay.TupleRepr` are covered by `Relay.EchoText`,
`Relay.AuditText`, `Relay.AnnouncementText`, `Relay.TupleReprOfBase` and
`Relay.TupleReprOfAll`. `Relay.Conversation` and `Relay.Session` are covered
by `Relay.ConversationStops`, `Relay.Server.Distribute` and
`Relay.Server.WsHandler`.

| member | source | states |
|---|---|---|
| Py.Split | utils.py:158 | `message.split()` yields only non-empty tokens without whitespace, and no token exactly when the line is all whitespace |
| Py.SplitKeepsText | utils.py:158 | the tokens, joined, are exactly the line with its whitespace removed |
| Py.SplitAtSpace | utils.py:158 | splitting at a whitespace character splits the two sides independently |
| Py.SplitWord | utils.py:158 | a single word splits to itself |
| Py.Lower | utils.py:19 | `lower()` keeps the length and maps each character on its own |
| Py.LowerOf | utils.py:160 | a string is the `lower()` of another when their characters correspond one by one |
| Py.UnderscoreBetweenDigits | utils.py:168 | an underscore between two runs of ASCII digits does not change what `int()` gives |
| Py.DecimalStringValue | utils.py:168 | `int()` of a string of ASCII digits is the number those digits denote when there are at most 4300 of them, and fails beyond |
| Py.NonDecimalDigitsRejected | utils.py:167-168 | a string that passes `isdigit()` but is not all ASCII digits makes `int()` fail |
| Py.NatDigits | Server.py:47 | `str(n)` of a natural number is a decimal numeral denoting `n` |
| Py.Show | Server.py:47-50 | `str(n)` is never empty and starts with `-` exactly for a negative number |
| Py.ShowRoundTrip | Server.py:47-50 | `int(str(n)) == n` for every integer of at most 4300 digits, negative included; for a longer one `int()` fails |
| Protocol.CheckAllCurrencies | utils.py:18-24 | the extended tuple exactly when the parameter spells `all` in any mix of letter cases, and the base pair exactly otherwise |
| Protocol.AllInAnyCase | utils.py:19 | a word lower-cases to `all` exactly when its three letters are `a`, `l`, `l`, each in either case |
| Protocol.CheckDayRange | utils.py:150-154 | the result lies in 0..10; it is the day itself inside that range, 0 below it and 10 above it |
| Protocol.CheckDayRangeIdempotent | utils.py:150-154 | clamping a clamped count changes nothing |
| Protocol.CheckDays | utils.py:27-41 | a text `int()` rejects gives 0; otherwise the clamped value; always within 0..10 |
| Protocol.CheckDaysOfNumeral | utils.py:27-41 | the numeral of any integer gives 0 for a negative, itself up to 10, and 10 above, except 0 for a numeral of more than 4300 digits |
| Protocol.CheckDaysTooManyDigits | utils.py:27-41 | a run of more than 4300 ASCII digits gives 0, since `int()` raises |
| Protocol.CheckDaysNegative | utils.py:27-41 | `"-5"` gives 0 |
| Protocol.CheckDaysTooLarge | utils.py:27-41 | `"999"` gives 10 |
| Protocol.CheckDaysNotANumber | utils.py:27-41 | `"abc"` gives 0 |
| Protocol.CheckExchangeMessage | utils.py:157-180 | a line with no token raises `ValueError`; a parse gives days in 0..10 and either the base pair or the extended tuple; a non-directive is `[False, 0, BASE_CURRENCIES]` |
| Protocol.ParseWords | utils.py:157-180 | no tokens raise; `ValueError` is the only failure; a parse gives days in 0..10, and a non-directive is `[False, 0, BASE_CURRENCIES]` |
| Protocol.PlainChat | utils.py:160-180 | a line whose first token does not lower-case to `exchange` is plain chat |
| Protocol.ExchangeParams | utils.py:163-175 | only `ValueError` can be raised, and only when there is a first parameter; the currencies are the base pair or the extended tuple |
| Protocol.Directive | utils.py:157-178 | for a directive: it fails exactly when the first parameter is a digit string `int()` rejects (one with a digit that is not ASCII, or with more than 4300 digits); the extended tuple exactly when the first or second parameter reads `all`; the day count is the clamped numeral of the first parameter when it is one, else 0 |
| Protocol.ParamsMeaning | utils.py:163-175 | the same reading of the parameters before clamping: `ValueError` exactly when the first parameter is an `isdigit()` string with a non-ASCII digit or more than 4300 digits |
| Protocol.ParamsFailure | utils.py:166-168 | only an `isdigit()` string with a non-ASCII digit or more than 4300 digits fails; otherwise a decimal first parameter is the day count |
| Protocol.ParamsCurrencies | utils.py:166-175 | the extended tuple exactly when parameter one or two reads `all`, since a digit string never reads `all` |
| Protocol.DigitsAreNotAll | utils.py:167-171 | a parameter that passes `isdigit()` never lower-cases to `all` |
| Protocol.DirectiveOf | utils.py:157-178 | `exchange` followed by parameters whose first one `int()` does not refuse makes the directive with the day count and currencies those parameters mean |
| Protocol.SplitThree | utils.py:158 | three words joined by single spaces split back into those three words |
| Protocol.ExampleDaysAndAll | utils.py:157-178 | `"exchange 3 all"` asks for 3 days of all six currencies |
| Protocol.ExampleAll | utils.py:166-171 | `"exchange all"` asks for today only, all six currencies |
| Protocol.ExampleTooManyDays | utils.py:177 | `"exchange 15"` is clamped to 10 days |
| Protocol.ExampleNegativeDays | utils.py:166-171 | `"exchange -5"` is not a digit string, so it asks for 0 days |
| Protocol.ExampleUpperCase | utils.py:160 | `"EXCHANGE 3"` is a directive: the command is case-insensitive |
| Protocol.ExampleChat | utils.py:180 | `"hello world"` is plain chat |
| Protocol.ExampleSuperscript | utils.py:167-168 | `"exchange ²"` raises `ValueError` |
| Protocol.ExampleBlank | utils.py:158 | a line of whitespace raises `ValueError` |
| Calendar.ToOrdinal | DateHandler.py:11 | every valid date has a day number of at least 1 |
| Calendar.NextDay | DateHandler.py:11 | the day after a valid date is a valid, later date |
| Calendar.NextDayOrdinal | DateHandler.py:11 | the next day has the next day number |
| Calendar.FromOrdinal | DateHandler.py:11 | every day number from 1 names a valid date |
| Calendar.OrdinalRoundTrip | DateHandler.py:11 | the day number of the date of `n` is `n` |
| Calendar.FromOrdinalOfToOrdinal | DateHandler.py:11 | the date of a valid date's day number is that date |
| Calendar.OrdinalMonotone | DateHandler.py:11 | an earlier date has a smaller day number |
| Calendar.OrdinalOrder | DateHandler.py:11 | a smaller day number belongs to an earlier date |
| Calendar.FromOrdinalMonotone | DateHandler.py:11 | a smaller day number names an earlier date |
| Calendar.MaxOrdinalIsLastDay | DateHandler.py:11 | 31 December 9999 is valid and is the last day number |
| Calendar.YearBound | DateHandler.py:11 | every day number up to the last names a year of at most four digits |
| Calendar.DateOf | DateHandler.py:11 | a day number in range names a valid date of a four-digit year |
| Calendar.DateOfOrdinal | DateHandler.py:11 | the day number of that date is the one it came from |
| Calendar.YearLength | DateHandler.py:11 | the days before year `y + 1` are those before `y` plus the length of `y`, 366 in a leap year |
| Calendar.MonthsFillYear | DateHandler.py:11 | a month ends before the next begins, and December ends the year |
| Calendar.ParseStrftime | DateHandler.py:12 | reading `DD.MM.YYYY` back gives the formatted date |
| Calendar.StrftimeInjective | DateHandler.py:12 | two different dates never share a key |
| Calendar.StrftimeExample | DateHandler.py:12 | 5 March 2024 is `"05.03.2024"` |
| Calendar.TwoDigitsValue | DateHandler.py:12 | a two-digit zero-padded field reads back as its number |
| Calendar.FourDigitsValue | DateHandler.py:12 | a four-digit zero-padded year reads back as its number |
| DateHandler.DateKeys | DateHandler.py:11-12 | `n` keys for `n` days |
| DateHandler.DatesListSync | DateHandler.py:9-12 | raises `OverflowError` exactly when the range reaches before day 1; otherwise `len(range(days + 1))` keys |
| DateHandler.DatesListDayNumbers | DateHandler.py:11-12 | element `i` is a `DD.MM.YYYY` key that reads back as the date `i` days before today |
| DateHandler.DatesListConsecutive | DateHandler.py:11-12 | each key's date is the day after the next key's date |
| DateHandler.DatesListDescending | DateHandler.py:11-12 | the keys run strictly from most recent to oldest, with no repeats |
| DateHandler.DateKeysDescending | DateHandler.py:11-12 | the same, for any prefix of the calendar before today |
| DateHandler.KeyOrder | DateHandler.py:12 | the key of a smaller day number reads back as an earlier date and differs from the later key |
| DateHandler.DatesListNegative | DateHandler.py:11 | a negative count gives no key at all |
| DateHandler.DatesListSyncOverflow | DateHandler.py:11 | a count reaching day 0 or earlier raises `OverflowError` |
| DateHandler.DatesList | DateHandler.py:14-18 | the generator yields the same keys as `dates_list_sync`; on overflow it has yielded every key back to day 1 and then raises |
| Rates.Keys | utils.py:210-217 | a dict has one key per item |
| Rates.Lookup | utils.py:210-217 | a key is found exactly when the dict holds it |
| Rates.Put | utils.py:210-217 | a stored key keeps its place and a new key goes last; the key maps to the new quote and no other key changes |
| Rates.Gather | utils.py:210-217 | the comprehension either raises `KeyError` or gives a dict of distinct keys, all among the requested currencies |
| Rates.GatherFails | utils.py:210-217 | `KeyError` exactly when some entry lacks `currency`, or a requested entry lacks a rate |
| Rates.GatherKeys | utils.py:215-216 | a currency is in the dict exactly when some entry carries it and it is requested |
| Rates.GatherLast | utils.py:210-217 | a repeated currency takes the quote of its last entry |
| Rates.ProcessResponseData | utils.py:208-225 | a result is keyed by the record's own date and holds a non-empty dict of distinct requested currencies; the only error is `KeyError` |
| Rates.ProcessFails | utils.py:208-217 | `KeyError` exactly when `date` or `exchangeRate` is missing or an entry is faulty |
| Rates.ProcessNothing | utils.py:220-222 | `None` exactly when no entry of a well-formed record carries a requested currency |
| Rates.Collect | utils.py:195-205 | the results are at most one per key, each non-empty; the only error is `KeyError` |
| Rates.CollectStopsAtError | utils.py:201 | once a key raises, the later keys change nothing |
| Rates.CollectAppend | utils.py:195-205 | processing two runs of keys one after the other concatenates their results |
| Rates.SkipFailedFetch | utils.py:203-204 | a date whose fetch fails is absent from the result, and the later dates are still processed |
| Rates.CollectOne | utils.py:199-204 | a single date gives its record, nothing, or the error |
| Rates.GetDataBound | utils.py:191-205 | at most one result per requested day, and none for a negative count |
| Rates.GetDataInRange | utils.py:191-205 | with room in the calendar, the result is the processing of exactly the requested days' keys, most recent first |
| Rates.GetDataResult | utils.py:191-205 | `get_data` raises only `KeyError` or the generator's `OverflowError`; every day it returns has a non-empty rates dict |
| Rates.GetData | utils.py:191-205 | the loop returns what the specification of `get_data` gives |
| Relay.ThenAssociative | Server.py:41-62 | running three steps one after another gives the same events and exception however the steps are grouped |
| Relay.ThenUnit | Server.py:41-62 | a step that does nothing and raises nothing, before or after another, changes nothing |
| Relay.EnumeratesNothing | Server.py:28 | the iteration order is empty exactly when the set is empty |
| Relay.Broadcast | Server.py:27-29 | the members are sent the message one by one in iteration order; the i-th delivery goes to the i-th member, who is not broken; it raises exactly when some member is broken, with the exception of the first broken one, and nobody after that member is sent anything |
| Relay.BroadcastReaches | Server.py:27-29 | exactly the members before the first broken one get the message, in order, and that member's exception is raised |
| Relay.BroadcastStops | Server.py:29 | after a send raises, nobody later receives anything |
| Relay.BroadcastWhole | Server.py:27-29 | with nobody broken, every member gets the message and nothing is raised |
| Relay.DeliveredOnce | Server.py:27-29 | every member receives the message exactly once and non-members receive nothing |
| Relay.BroadcastToAll | Server.py:27-29 | with nobody broken the broadcast completes and each member's inbox holds the message once |
| Relay.OutboxAppend | Server.py:41-62 | a connection's inbox over two stretches of events is the two inboxes in order |
| Relay.React | Server.py:42-62 | a line the check rejects raises before anything is sent; a turn causes at most four broadcasts and one audit line |
| Relay.Turn | Server.py:43-62 | a chat line costs at most one broadcast; a directive at most four broadcasts and one audit line |
| Relay.ExchangeReply | Server.py:46-62 | the reply to a directive starts with its audit line, and everything after it is a delivery: at most three broadcasts |
| Relay.RatesReply | Server.py:52-62 | a `get_data` error is raised before anything is sent; otherwise at most the heading and the table, both deliveries |
| Relay.TupleReprOfBase | Server.py:47-50 | the base pair is rendered `('EUR', 'USD')` |
| Relay.TupleReprOfAll | Server.py:47-50 | the extended tuple is rendered as its six codes quoted, comma-separated and in order, `('EUR', 'USD', 'CHF', 'CZK', 'GBP', 'PLN')` |
| Relay.EchoText | Server.py:43 | Bob's line `hello` is echoed as `Bob: hello` |
| Relay.AuditText | Server.py:46-47 | Bob's `exchange 3` is logged as `Bob: exchange 3; Request handled for current day and 3 archive days and ('EUR', 'USD')` |
| Relay.AnnouncementText | Server.py:49-50 | three archive days of the base pair are announced as `Server: getting rates from Privat Bank for current day and 3 archive days for ('EUR', 'USD')` |
| Relay.ChatIsOneBroadcast | Server.py:41-44 | a line that is not a directive costs exactly one broadcast, its echo |
| Relay.BlankLineRaises | Server.py:42 | a blank line raises `ValueError` before anything is sent |
| Relay.ExchangeSequence | Server.py:41-62 | a directive with nobody broken sends the echo, writes the audit line, then the announcement, heading and table to every member, in that order |
| Relay.TurnAnswered | Server.py:43-62 | the same order for a checked directive, whatever its texts |
| Relay.ReplyAnswered | Server.py:46-62 | after the echo: the audit line, then three complete broadcasts |
| Relay.RetrievalFails | Server.py:43-52 | when `get_data` raises for a directive with nobody broken: the echo, the audit line and the announcement, then that exception, with no heading and no table |
| Relay.ConversationStops | Server.py:41-62 | after a line's turn raises, no later line is handled |
| Relay.Registry.constructor | Server.py:16 | the shared set starts empty |
| Relay.Network.constructor | Server.py:18-19 | no names are assigned and nothing has been sent yet |
| Relay.Server.constructor | Server.py:15-16 | the server holds the membership set and the network it is given, so servers given the one `Registry` see the one set |
| Relay.Server.Register | Server.py:18-21 | the connection is named and added; nothing is sent |
| Relay.Server.Unregister | Server.py:23-25 | a member is removed; a non-member raises `KeyError` and the set is unchanged |
| Relay.Server.SendToClients | Server.py:27-29 | the events and the exception are those of the broadcast specification; names are untouched |
| Relay.Server.HandleExchange | utils.py:183-188 | exactly one audit line is appended to the log |
| Relay.Server.HandleMessage | Server.py:42-62 | one turn does what the turn specification says, for the line's check result |
| Relay.Server.Answer | Server.py:42-62 | a check error propagates before any send; otherwise the turn of the checked line |
| Relay.Server.HandleTurn | Server.py:43-62 | the echo, then for a directive its reply, unless the echo raised |
| Relay.Server.HandleDirective | Server.py:46-62 | audit, announcement, then the rates; each step only if the one before raised nothing |
| Relay.Server.SendRates | Server.py:52-62 | a `get_data` error is raised before anything is sent; otherwise the heading, then the table |
| Relay.Server.Distribute | Server.py:40-62 | one turn per inbound line, in order, stopping at the first exception; a non-clean close raises at the end |
| Relay.Server.WsHandler | Server.py:31-38 | the connection is registered for the session and removed afterwards; `ConnectionClosedOK` is swallowed and any other exception propagates |
| Relay.LeaveThenChat | Server.py:16-29 | after one of two clients leaves, a broadcast reaches only the other, and every server sees the same membership |

## Left out

- The network fetch `get_exchange_rate` is an input: each date key's fetch
  outcome, a decoded record or `HttpGetError`. The URL, aiohttp, the status
  check and JSON decoding are not modelled.
- `handle_exchange` is modelled as appending an `Audited` event. The file
  I/O, the `datetime.now()` timestamp prefix and the `logging` calls are
  left out. A failure of the log file is not modelled.
- `generate_html_table` is the uninterpreted `render` input. The other
  renderers (`generate_html_table_1`, `generate_text_table*`) are not called
  by the core. `create_storage_dir`, `save_data_to_file` and `main.py` are
  left out for the same reason.
- `names.get_full_name()` is the `name` argument of `Register` and
  `WsHandler`.
- `datetime.now()` is the `now` day number. The time of day is dropped,
  since only the date reaches the keys.
- Concurrency is left out: handlers run one after another. Two connections
  interleaving, and a set changing during iteration, are not modelled.
- The set's iteration order is the `order` input. It enumerates the members
  exactly once.
- `send` failures are the `broken` input. Receiving is a finite list of
  lines plus how the stream closed.
- `str.isspace`, `str.lower` and `str.isdigit` cover ASCII, plus the
  superscript and subscript digits for `isdigit`. Other Unicode characters
  are treated as non-space, non-digit and unchanged by `lower()`. `int()`
  accepts only ASCII digits, underscores and a sign.
- Rates are `real`. Floating-point rounding is not modelled.
- Relay.TupleRepr: the `str()` of a currency tuple is written without
  `repr` escaping. The codes are plain letters, so this is exact for them.
- The `current_day` counter and the `self.days` field of `DateHandler` only
  feed log messages, so they are left out.
- Calendar.DateOf: day numbers beyond 31 December 9999 are excluded.
  Python's `datetime` cannot reach them either; they would raise when
  `now` is built.
- Py.Show: `str()` of an integer of more than 4300 digits raises
  `ValueError` in Python; `Show` always gives the numeral. The core formats
  only day counts of 0 to 10 with it, which are far below the limit.
- Py.PyInt: the digit limit is the interpreter's default of 4300. A limit
  changed through `PYTHONINTMAXSTRDIGITS` or `sys.set_int_max_str_digits` is
  not modelled.
- Calendar.Strftime: the year is always padded to four digits, while
  glibc's `%Y` writes a year below 1000 without padding. Date keys are
  today and at most ten days before it, so this differs only for a `now`
  before the year 1000.
- Relay.Server.constructor: in Python `clients` is a class attribute, so
  every instance shares it by construction. Dafny has no mutable state at
  class level, so whoever creates the servers gives each the one
  `Registry`; the constructor promises only to keep the set it is given.
- The world of a turn is fixed for the whole turn. The
  members whose `send` fails, and the bank's answers, do not change between
  the broadcasts of one turn. A peer that closes between the echo and the
  table of the same turn is not modelled.
