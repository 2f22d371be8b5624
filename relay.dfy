/** `Relay`: the websocket chat server. Every connection is registered in
    one membership set shared by all `Server` instances; each inbound line
    is echoed to every member, and an `exchange` directive is followed by an
    audit record, an announcement, a heading and the rendered rates table.

    What the transport and the rest of the world decide is an input:
    - the order in which the membership set is iterated (`order`);
    - which members' `send` raises, and what (`broken`);
    - the day number of today and each date key's fetch outcome;
    - the HTML renderer of the rates (`render`), left uninterpreted.
    Each inbound line arrives with its own such world (`Arrival`). */
module Relay {
  import opened Py
  import opened Protocol
  import opened Calendar
  import opened DateHandler
  import opened Rates

  /** A websocket connection, by identity. */
  type ConnId = nat

  /** Something the server did to the outside world: a message handed to a
      connection's transport, or a line appended to the exchange log. */
  datatype Event = Delivered(to: ConnId, text: string) | Audited(line: string)

  /** What a run of actions did: the events in order, and the exception that
      stopped it, if one did. */
  datatype Outcome = Outcome(events: seq<Event>, failure: Option<Exc>)

  /** Events recorded in three stretches, however the stretches are grouped. */
  lemma Regroup(a: seq<Event>, b: seq<Event>, c: seq<Event>)
    ensures a + b + c == a + (b + c)
  {
  }

  /** Run `next` only if `first` finished without raising. */
  function Then(first: Outcome, next: Outcome): (o: Outcome)
    ensures first.failure.Some? ==> o == first
    ensures first.failure.None? ==> o.events == first.events + next.events && o.failure == next.failure
  {
    if first.failure.Some? then first else Outcome(first.events + next.events, next.failure)
  }

  /** Doing nothing and raising nothing. */
  const Nothing := Outcome([], None)

  /** Steps run in sequence however they are grouped. */
  lemma ThenAssociative(a: Outcome, b: Outcome, c: Outcome)
    ensures Then(Then(a, b), c) == Then(a, Then(b, c))
  {
    if a.failure.None? && b.failure.None? {
      Regroup(a.events, b.events, c.events);
    }
  }

  /** Doing nothing before or after a step changes nothing. */
  lemma ThenUnit(x: Outcome)
    ensures Then(Nothing, x) == x && Then(x, Nothing) == x
  {
    assert [] + x.events == x.events;
    assert x.events + [] == x.events;
  }

  /** The world a turn runs in, and the two functions of `utils` a turn
      calls, as values (`Wired` pins them to the model's own). */
  datatype Env = Env(
    order: seq<ConnId>,                          // iteration order of the shared set
    broken: map<ConnId, Exc>,                    // members whose `send` raises
    now: int,                                    // today's day number
    fetch: string -> Fetch,                      // what fetching each date key gives
    render: seq<DayRates> -> string,             // `generate_html_table`
    check: string -> Result<Command>,            // `check_exchange_message`
    retrieve: Command -> Result<seq<DayRates>>)  // `get_data(days, currencies)`

  /** `check` is `check_exchange_message` and `retrieve` is `get_data` on
      today's date and the fetch outcomes. */
  ghost predicate Wired(env: Env) {
    && 1 <= env.now <= MAX_ORDINAL
    && (forall m :: Checks(env, m))
    && (forall c :: Retrieves(env, c))
  }

  /** `check` answers for `m` as `check_exchange_message(m)` does. */
  ghost predicate Checks(env: Env, m: string) {
    env.check(m) == CheckExchangeMessage(m)
  }

  /** `retrieve` answers for `c` as `get_data` does for its day count and
      currencies. */
  ghost predicate Retrieves(env: Env, c: Command)
    requires 1 <= env.now <= MAX_ORDINAL
  {
    env.retrieve(c) == GetDataResult(env.now, c.days, c.currencies, env.fetch)
  }

  /** `order` lists every member of `members` once. */
  ghost predicate Enumerates(order: seq<ConnId>, members: set<ConnId>) {
    Distinct(order) && (forall c :: c in order <==> c in members)
  }

  /** An empty set is enumerated by the empty order, and only by it. */
  lemma EnumeratesNothing(order: seq<ConnId>, members: set<ConnId>)
    requires Enumerates(order, members)
    ensures order == [] <==> members == {}
  {
    assert order != [] ==> order[0] in members;
    if members != {} {
      var c :| c in members;
      assert c in order;
    }
  }

  // ---------------------------------------------------------------------
  // send_to_clients

  /** `send_to_clients(message)` over the members in `order`: each send in
      turn, and the first send that raises stops the rest. */
  function Broadcast(order: seq<ConnId>, message: string, broken: map<ConnId, Exc>): (o: Outcome)
    ensures |o.events| <= |order|
    ensures forall i :: 0 <= i < |o.events| ==> o.events[i] == Delivered(order[i], message) && order[i] !in broken
    ensures o.failure.None? <==> |o.events| == |order|
    ensures o.failure.Some? ==>
      && |o.events| < |order|
      && order[|o.events|] in broken
      && o.failure == Some(broken[order[|o.events|]])
    decreases |order|
  {
    if order == [] then Outcome([], None)
    else
      var prev := Broadcast(order[..|order| - 1], message, broken);
      var c := order[|order| - 1];
      if prev.failure.Some? then prev
      else if c in broken then Outcome(prev.events, Some(broken[c]))
      else Outcome(prev.events + [Delivered(c, message)], None)
  }

  /** How many members come before the first broken one. */
  function FirstBroken(order: seq<ConnId>, broken: map<ConnId, Exc>): (k: nat)
    ensures k <= |order|
    ensures forall i :: 0 <= i < k ==> order[i] !in broken
    ensures k < |order| ==> order[k] in broken
  {
    if order == [] then 0
    else if order[0] in broken then 0
    else 1 + FirstBroken(order[1..], broken)
  }

  /** `message` handed to each of `cs`, in order. */
  function Deliveries(cs: seq<ConnId>, message: string): (es: seq<Event>)
    ensures |es| == |cs|
  {
    if cs == [] then [] else [Delivered(cs[0], message)] + Deliveries(cs[1..], message)
  }

  /** A broadcast delivers to exactly the members before the first broken
      one, and raises that member's exception; with no broken member it
      delivers to all and raises nothing. */
  lemma {:induction false} BroadcastReaches(order: seq<ConnId>, message: string, broken: map<ConnId, Exc>)
    ensures var k := FirstBroken(order, broken);
      Broadcast(order, message, broken)
        == Outcome(Deliveries(order[..k], message), if k < |order| then Some(broken[order[k]]) else None)
    decreases |order|
  {
    if order != [] {
      var m := |order| - 1;
      BroadcastReaches(order[..m], message, broken);
      var k, k' := FirstBroken(order[..m], broken), FirstBroken(order, broken);
      FirstBrokenOfPrefix(order, broken);
      assert order[..m][..k] == order[..k];
      if k == m && order[m] !in broken {
        DeliveriesAppend(order[..m], order[m], message);
        assert order[..m] + [order[m]] == order[..m + 1];
      }
    }
  }

  lemma {:induction false} FirstBrokenOfPrefix(order: seq<ConnId>, broken: map<ConnId, Exc>)
    requires order != []
    ensures var m := |order| - 1; var k := FirstBroken(order[..m], broken);
      if k < m then FirstBroken(order, broken) == k
      else FirstBroken(order, broken) == (if order[m] in broken then m else m + 1)
  {
    var m := |order| - 1;
    var k := FirstBroken(order[..m], broken);
    var k' := FirstBroken(order, broken);
    if k < m {
      assert forall i :: 0 <= i <= k ==> order[..m][i] == order[i];
    } else {
      forall i | 0 <= i < m
        ensures order[i] !in broken
      {
        assert order[..m][i] == order[i];
      }
    }
  }

  lemma {:induction false} DeliveriesAppend(cs: seq<ConnId>, c: ConnId, message: string)
    ensures Deliveries(cs + [c], message) == Deliveries(cs, message) + [Delivered(c, message)]
    decreases |cs|
  {
    if cs == [] {
      assert cs + [c] == [c];
    } else {
      assert (cs + [c])[0] == cs[0];
      assert (cs + [c])[1..] == cs[1..] + [c];
      DeliveriesAppend(cs[1..], c, message);
    }
  }

  /** The texts delivered to connection `c`, in order. */
  function Outbox(events: seq<Event>, c: ConnId): (box: seq<string>)
    ensures |box| <= |events|
  {
    if events == [] then []
    else
      var rest := Outbox(events[1..], c);
      match events[0]
      case Delivered(to, text) => if to == c then [text] + rest else rest
      case Audited(_) => rest
  }

  lemma {:induction false} OutboxAppend(a: seq<Event>, b: seq<Event>, c: ConnId)
    ensures Outbox(a + b, c) == Outbox(a, c) + Outbox(b, c)
    decreases |a|
  {
    if a == [] {
      assert a + b == b;
    } else {
      assert (a + b)[0] == a[0];
      assert (a + b)[1..] == a[1..] + b;
      OutboxAppend(a[1..], b, c);
    }
  }

  /** Every member receives the message exactly once, and nobody else
      receives anything. */
  lemma {:induction false} DeliveredOnce(order: seq<ConnId>, message: string, c: ConnId)
    requires Distinct(order)
    ensures Outbox(Deliveries(order, message), c) == if c in order then [message] else []
    decreases |order|
  {
    if order != [] {
      var es := Deliveries(order, message);
      assert es[1..] == Deliveries(order[1..], message);
      assert Distinct(order[1..]) by {
        forall i, j | 0 <= i < j < |order[1..]|
          ensures order[1..][i] != order[1..][j]
        {
          assert order[1..][i] == order[i + 1] && order[1..][j] == order[j + 1];
        }
      }
      DeliveredOnce(order[1..], message, c);
      if c == order[0] {
        assert c !in order[1..] by {
          forall i | 0 <= i < |order[1..]|
            ensures order[1..][i] != c
          {
            assert order[1..][i] == order[i + 1];
          }
        }
      } else {
        assert c in order <==> c in order[1..] by {
          if c in order {
            var i :| 0 <= i < |order| && order[i] == c;
            assert order[1..][i - 1] == c;
          }
        }
      }
    }
  }

  /** A broadcast with nobody broken: every member gets the message once. */
  lemma BroadcastToAll(order: seq<ConnId>, message: string, broken: map<ConnId, Exc>, c: ConnId)
    requires Distinct(order) && forall m :: m in order ==> m !in broken
    ensures Broadcast(order, message, broken).failure.None?
    ensures Outbox(Broadcast(order, message, broken).events, c) == if c in order then [message] else []
  {
    BroadcastWhole(order, message, broken);
    DeliveredOnce(order, message, c);
  }

  /** Once a send has raised, the rest of the members get nothing from this
      broadcast. */
  lemma {:induction false} BroadcastStops(order: seq<ConnId>, n: nat, message: string, broken: map<ConnId, Exc>)
    requires n <= |order| && Broadcast(order[..n], message, broken).failure.Some?
    ensures Broadcast(order, message, broken) == Broadcast(order[..n], message, broken)
    decreases |order| - n
  {
    if n < |order| {
      var m := |order| - 1;
      assert order[..m][..n] == order[..n];
      BroadcastStops(order[..m], n, message, broken);
    } else {
      assert order[..n] == order;
    }
  }

  // ---------------------------------------------------------------------
  // distribute

  /** The fixed texts of the directive's messages. */
  const HEADING: string := "<h3>Exchange rates</h3>\n"
  const HANDLED: string := "; Request handled for current day and "
  const DAYS_AND: string := " archive days and "
  const GETTING: string := "Server: getting rates from Privat Bank for current day and "
  const DAYS_FOR: string := " archive days for "

  /** `repr` of a string made of letters: the text between single quotes. */
  function Quoted(s: string): string {
    "'" + s + "'"
  }

  function JoinQuoted(cs: seq<string>): string {
    if cs == [] then ""
    else if |cs| == 1 then Quoted(cs[0])
    else Quoted(cs[0]) + ", " + JoinQuoted(cs[1..])
  }

  /** `str` of a tuple of currency codes, as the f-strings render it. */
  function TupleRepr(cs: seq<string>): string {
    if |cs| == 1 then "(" + Quoted(cs[0]) + ",)" else "(" + JoinQuoted(cs) + ")"
  }

  lemma TupleReprOfBase()
    ensures TupleRepr(BASE_CURRENCIES) == "('EUR', 'USD')"
  {
  }

  /** The chat echo, `f"{ws.name}: {message}"`. */
  function Echo(name: string, message: string): string {
    name + ": " + message
  }

  /** The line `handle_exchange` appends to the exchange log. */
  function AuditLine(name: string, message: string, cmd: Command): string {
    Echo(name, message) + HANDLED + Show(cmd.days)
      + DAYS_AND + TupleRepr(cmd.currencies)
  }

  /** The announcement broadcast before the rates are fetched. */
  function Announcement(cmd: Command): string {
    GETTING + Show(cmd.days)
      + DAYS_FOR + TupleRepr(cmd.currencies)
  }

  /** The tuple `ALL_CURRENCIES` as it appears in the texts: the six codes
      quoted and separated by commas, in their order. */
  lemma TupleReprOfAll()
    ensures TupleRepr(ALL_CURRENCIES)
      == "(" + Quoted("EUR") + ", " + Quoted("USD") + ", " + Quoted("CHF")
         + ", " + Quoted("CZK") + ", " + Quoted("GBP") + ", " + Quoted("PLN") + ")"
  {
  }

  /** The echo of a line from a member named Bob. */
  lemma EchoText()
    ensures Echo("Bob", "hello") == "Bob: hello"
  {
  }

  /** The log line for Bob's `exchange 3`, piece by piece of its f-string. */
  lemma AuditText()
    ensures AuditLine("Bob", "exchange 3", Command(true, 3, BASE_CURRENCIES))
      == "Bob" + ": " + "exchange 3" + "; Request handled for current day and " + "3"
         + " archive days and " + "('EUR', 'USD')"
  {
    assert Show(3) == "3";
    TupleReprOfBase();
  }

  /** The announcement for three archive days of the base pair, piece by
      piece of its f-string. */
  lemma AnnouncementText()
    ensures Announcement(Command(true, 3, BASE_CURRENCIES))
      == "Server: getting rates from Privat Bank for current day and " + "3"
         + " archive days for " + "('EUR', 'USD')"
  {
    assert Show(3) == "3";
    TupleReprOfBase();
  }

  /** One turn of the `async for` loop in `distribute`: what it does for the
      line `message` from the connection named `name`. */
  function React(name: string, message: string, env: Env): (o: Outcome)
    ensures env.check(message).Err? ==> o == Outcome([], Some(env.check(message).error))
    ensures |o.events| <= 4 * |env.order| + 1
  {
    Respond(name, message, env.check(message), env)
  }

  /** The turn once the line has been checked: the echo, then for a
      directive the exchange reply. */
  function Respond(name: string, message: string, checked: Result<Command>, env: Env): Outcome
  {
    match checked
    case Err(e) => Outcome([], Some(e))
    case Ok(cmd) => Turn(Echo(name, message), AuditLine(name, message, cmd), Announcement(cmd), cmd, env)
  }

  /** A checked turn with its texts: broadcast the `echo`; for a directive
      then the audit `line`, the `notice` and the rates. */
  function Turn(echo: string, line: string, notice: string, cmd: Command, env: Env): (o: Outcome)
    ensures |o.events| <= if cmd.isExchange then 4 * |env.order| + 1 else |env.order|
  {
    var echoed := Broadcast(env.order, echo, env.broken);
    if !cmd.isExchange then echoed
    else Then(echoed, ExchangeReply(line, notice, cmd, env))
  }

  /** After the echo of a directive: the audit `line`, the announcement
      `notice`, then the rates. */
  function ExchangeReply(line: string, notice: string, cmd: Command, env: Env): (o: Outcome)
    ensures 1 <= |o.events| <= 3 * |env.order| + 1
    ensures o.events[0] == Audited(line)
    ensures forall i :: 1 <= i < |o.events| ==> o.events[i].Delivered?
  {
    Then(Outcome([Audited(line)], None),
    Then(Broadcast(env.order, notice, env.broken),
         RatesReply(cmd, env)))
  }

  /** `get_data`, then the heading and the rendered table; an exception from
      `get_data` propagates before either is sent. */
  function RatesReply(cmd: Command, env: Env): (o: Outcome)
    ensures env.retrieve(cmd).Err? ==> o == Outcome([], Some(env.retrieve(cmd).error))
    ensures |o.events| <= 2 * |env.order|
    ensures forall i :: 0 <= i < |o.events| ==> o.events[i].Delivered?
  {
    match env.retrieve(cmd)
    case Err(e) => Outcome([], Some(e))
    case Ok(result) =>
      Then(Broadcast(env.order, HEADING, env.broken),
           Broadcast(env.order, env.render(result), env.broken))
  }

  /** One inbound line, with the world its turn meets: today's date when
      `get_data` starts, the bank's answers and the members whose `send`
      fails at that moment. */
  datatype Arrival = Arrival(message: string, env: Env)

  /** The world of an arrival is the real one, and its order enumerates
      `clients`. */
  ghost predicate Ready(a: Arrival, clients: set<ConnId>) {
    Wired(a.env) && Enumerates(a.env.order, clients)
  }

  /** The turns for `arrivals`, in order, stopping at the first that raises. */
  function Conversation(name: string, arrivals: seq<Arrival>): Outcome
    decreases |arrivals|
  {
    if arrivals == [] then Nothing
    else
      var last := arrivals[|arrivals| - 1];
      Then(Conversation(name, arrivals[..|arrivals| - 1]), React(name, last.message, last.env))
  }

  /** The whole of `distribute`: the turns, then how the stream of inbound
      lines ended — a clean close ends the loop, any other close raises
      `ConnectionClosedError`. */
  function Session(name: string, arrivals: seq<Arrival>, closedError: bool): Outcome
  {
    Then(Conversation(name, arrivals),
         Outcome([], if closedError then Some(ConnectionClosedError) else None))
  }

  /** A line that is not a directive costs exactly one broadcast: the echo. */
  lemma ChatIsOneBroadcast(name: string, message: string, env: Env)
    requires Wired(env)
    requires Split(message) != [] && Lower(Split(message)[0]) != "exchange"
    ensures React(name, message, env) == Broadcast(env.order, Echo(name, message), env.broken)
  {
    assert Checks(env, message);
    PlainChat(message);
  }

  /** A line with no token raises `ValueError` before anything is sent. */
  lemma BlankLineRaises(name: string, message: string, env: Env)
    requires Wired(env) && AllSpace(message)
    ensures React(name, message, env) == Outcome([], Some(ValueError))
  {
    assert Checks(env, message);
    SplitAllSpace(message);
  }

  lemma SplitAllSpace(s: string)
    requires AllSpace(s)
    ensures Split(s) == []
  {
  }

  /** With nobody broken, a broadcast delivers to every member and raises
      nothing. */
  lemma BroadcastWhole(order: seq<ConnId>, text: string, broken: map<ConnId, Exc>)
    requires forall m :: m in order ==> m !in broken
    ensures Broadcast(order, text, broken) == Outcome(Deliveries(order, text), None)
  {
    BroadcastReaches(order, text, broken);
    assert forall i :: 0 <= i < |order| ==> order[i] in order;
    assert order[..|order|] == order;
  }

  /** An `exchange` directive with nobody broken and the rates retrieved:
      the echo to every member, then the audit line, then the announcement,
      the heading and the table, each to every member, in that order. */
  lemma ExchangeSequence(name: string, message: string, env: Env, cmd: Command, result: seq<DayRates>)
    requires Wired(env) && forall m :: m in env.order ==> m !in env.broken
    requires CheckExchangeMessage(message) == Ok(cmd) && cmd.isExchange
    requires GetDataResult(env.now, cmd.days, cmd.currencies, env.fetch) == Ok(result)
    ensures React(name, message, env)
      == Outcome(
           Deliveries(env.order, Echo(name, message))
           + [Audited(AuditLine(name, message, cmd))]
           + Deliveries(env.order, Announcement(cmd))
           + Deliveries(env.order, HEADING)
           + Deliveries(env.order, env.render(result)),
           None)
  {
    assert Checks(env, message) && Retrieves(env, cmd);
    TurnAnswered(Echo(name, message), AuditLine(name, message, cmd), Announcement(cmd), cmd, env, result);
  }

  /** An `exchange` directive whose rates cannot be retrieved, with nobody
      broken: the echo, the audit line and the announcement go out, then the
      exception of `get_data` ends the turn before the heading and the table. */
  lemma RetrievalFails(name: string, message: string, env: Env, cmd: Command, e: Exc)
    requires Wired(env) && forall m :: m in env.order ==> m !in env.broken
    requires CheckExchangeMessage(message) == Ok(cmd) && cmd.isExchange
    requires GetDataResult(env.now, cmd.days, cmd.currencies, env.fetch) == Err(e)
    ensures React(name, message, env)
      == Outcome(
           Deliveries(env.order, Echo(name, message))
           + [Audited(AuditLine(name, message, cmd))]
           + Deliveries(env.order, Announcement(cmd)),
           Some(e))
  {
    assert Checks(env, message) && Retrieves(env, cmd);
    var echo, notice := Echo(name, message), Announcement(cmd);
    BroadcastWhole(env.order, echo, env.broken);
    BroadcastWhole(env.order, notice, env.broken);
    assert RatesReply(cmd, env) == Outcome([], Some(e));
    var echoed, audit, announced := Deliveries(env.order, echo), [Audited(AuditLine(name, message, cmd))], Deliveries(env.order, notice);
    assert announced + [] == announced;
    Regroup(echoed, audit, announced);
  }

  /** `ExchangeSequence` for a checked directive, whatever its texts. */
  lemma TurnAnswered(echo: string, line: string, notice: string, cmd: Command, env: Env, result: seq<DayRates>)
    requires forall m :: m in env.order ==> m !in env.broken
    requires cmd.isExchange && env.retrieve(cmd) == Ok(result)
    ensures Turn(echo, line, notice, cmd, env)
      == Outcome(
           Deliveries(env.order, echo)
           + [Audited(line)]
           + Deliveries(env.order, notice)
           + Deliveries(env.order, HEADING)
           + Deliveries(env.order, env.render(result)),
           None)
  {
    var echoed, audit, announce, heading, table :=
      Deliveries(env.order, echo),
      [Audited(line)],
      Deliveries(env.order, notice),
      Deliveries(env.order, HEADING),
      Deliveries(env.order, env.render(result));
    ReplyAnswered(line, notice, env, cmd, result);
    BroadcastWhole(env.order, echo, env.broken);
    PrependTo(echoed, audit, announce, heading, table);
  }

  /** A stretch of events put in front of four more. */
  lemma PrependTo(a: seq<Event>, b: seq<Event>, c: seq<Event>, d: seq<Event>, e: seq<Event>)
    ensures a + (b + c + d + e) == a + b + c + d + e
  {
  }

  /** Four stretches of events nested to the right. */
  lemma Flatten(a: seq<Event>, b: seq<Event>, c: seq<Event>, d: seq<Event>)
    ensures a + (b + (c + d)) == a + b + c + d
  {
  }

  /** The reply to a directive with nobody broken and the rates retrieved. */
  lemma ReplyAnswered(line: string, notice: string, env: Env, cmd: Command, result: seq<DayRates>)
    requires forall m :: m in env.order ==> m !in env.broken
    requires env.retrieve(cmd) == Ok(result)
    ensures ExchangeReply(line, notice, cmd, env)
      == Outcome(
           [Audited(line)]
           + Deliveries(env.order, notice)
           + Deliveries(env.order, HEADING)
           + Deliveries(env.order, env.render(result)),
           None)
  {
    var audit, announce, heading, table :=
      [Audited(line)],
      Deliveries(env.order, notice),
      Deliveries(env.order, HEADING),
      Deliveries(env.order, env.render(result));
    BroadcastWhole(env.order, HEADING, env.broken);
    BroadcastWhole(env.order, env.render(result), env.broken);
    assert RatesReply(cmd, env) == Outcome(heading + table, None);
    BroadcastWhole(env.order, notice, env.broken);
    Flatten(audit, announce, heading, table);
  }

  /** One more line: its turn runs after the earlier ones, in its own world. */
  lemma ConversationStep(name: string, arrivals: seq<Arrival>, i: nat)
    requires i < |arrivals|
    ensures Conversation(name, arrivals[..i + 1])
      == Then(Conversation(name, arrivals[..i]), React(name, arrivals[i].message, arrivals[i].env))
  {
    assert arrivals[..i + 1][..i] == arrivals[..i];
  }

  /** After a turn raises, the later lines are never processed. */
  lemma {:induction false} ConversationStops(name: string, arrivals: seq<Arrival>, n: nat)
    requires n <= |arrivals| && Conversation(name, arrivals[..n]).failure.Some?
    ensures Conversation(name, arrivals) == Conversation(name, arrivals[..n])
    decreases |arrivals| - n
  {
    if n < |arrivals| {
      var m := |arrivals| - 1;
      assert arrivals[..m][..n] == arrivals[..n];
      ConversationStops(name, arrivals[..m], n);
      ConversationStep(name, arrivals, m);
      assert arrivals[..m + 1] == arrivals;
    } else {
      assert arrivals[..n] == arrivals;
    }
  }

  // ---------------------------------------------------------------------
  // The stateful server

  /** The class attribute `Server.clients`: one set for every instance. */
  class Registry {
    var clients: set<ConnId>

    constructor()
      ensures clients == {}
    {
      clients := {};
    }
  }

  /** The connections' side: the `name` attribute `register` sets on each,
      and every event the transport and the exchange log have seen. */
  class Network {
    var names: map<ConnId, string>
    var trace: seq<Event>

    constructor()
      ensures names == map[] && trace == []
    {
      names := map[];
      trace := [];
    }
  }

  class Server {
    const registry: Registry
    const network: Network

    constructor(registry: Registry, network: Network)
      ensures this.registry == registry && this.network == network
    {
      this.registry := registry;
      this.network := network;
    }

    /** `register`: name the connection, then add it to the shared set. */
    method Register(ws: ConnId, name: string)
      modifies registry, network
      ensures registry.clients == old(registry.clients) + {ws}
      ensures network.names == old(network.names)[ws := name]
      ensures network.trace == old(network.trace)
    {
      network.names := network.names[ws := name];
      registry.clients := registry.clients + {ws};
    }

    /** `unregister`: `set.remove`, which raises `KeyError` for a connection
        that is not a member. */
    method Unregister(ws: ConnId) returns (raised: Option<Exc>)
      modifies registry
      ensures old(ws in registry.clients) ==> registry.clients == old(registry.clients) - {ws} && raised.None?
      ensures old(ws !in registry.clients) ==> registry.clients == old(registry.clients) && raised == Some(KeyError)
    {
      if ws !in registry.clients {
        return Some(KeyError);
      }
      registry.clients := registry.clients - {ws};
      raised := None;
    }

    /** `send_to_clients`: send to each member in the set's iteration order;
        an exception from a send propagates at once. */
    method SendToClients(message: string, order: seq<ConnId>, broken: map<ConnId, Exc>)
      returns (raised: Option<Exc>)
      requires Enumerates(order, registry.clients)
      modifies network
      ensures network.names == old(network.names)
      ensures network.trace == old(network.trace) + Broadcast(order, message, broken).events
      ensures raised == Broadcast(order, message, broken).failure
    {
      raised := None;
      if registry.clients == {} {
        EnumeratesNothing(order, registry.clients);
        return;
      }
      var i := 0;
      while i < |order|
        invariant 0 <= i <= |order|
        invariant network.names == old(network.names)
        invariant Broadcast(order[..i], message, broken).failure.None?
        invariant network.trace == old(network.trace) + Broadcast(order[..i], message, broken).events
      {
        var client := order[i];
        assert order[..i + 1][..i] == order[..i];
        if client in broken {
          BroadcastStops(order, i + 1, message, broken);
          return Some(broken[client]);
        }
        network.trace := network.trace + [Delivered(client, message)];
        i := i + 1;
      }
      assert order[..i] == order;
    }

    /** `handle_exchange`: append the audit line to the exchange log. */
    method HandleExchange(line: string)
      modifies network
      ensures network.names == old(network.names)
      ensures network.trace == old(network.trace) + [Audited(line)]
    {
      network.trace := network.trace + [Audited(line)];
    }

    /** One turn of `distribute`'s loop. */
    method HandleMessage(name: string, message: string, env: Env) returns (raised: Option<Exc>)
      requires Wired(env) && Enumerates(env.order, registry.clients)
      modifies network
      ensures network.names == old(network.names)
      ensures network.trace == old(network.trace) + React(name, message, env).events
      ensures raised == React(name, message, env).failure
    {
      var checked := CheckExchangeMessage(message);
      assert Checks(env, message);
      raised := Answer(name, message, checked, env);
    }

    /** The turn once the line has been checked: an error from the check
        propagates; otherwise the echo, then a directive's reply. */
    method Answer(name: string, message: string, checked: Result<Command>, env: Env) returns (raised: Option<Exc>)
      requires Wired(env) && Enumerates(env.order, registry.clients)
      modifies network
      ensures network.names == old(network.names)
      ensures network.trace == old(network.trace) + Respond(name, message, checked, env).events
      ensures raised == Respond(name, message, checked, env).failure
    {
      if checked.Err? {
        return Some(checked.error);
      }
      var cmd := checked.value;
      var echo := Echo(name, message);
      var line := AuditLine(name, message, cmd);
      var notice := Announcement(cmd);
      raised := HandleTurn(echo, line, notice, cmd, env);
    }

    /** Send the echo; for a directive go on with its reply. */
    method HandleTurn(echo: string, line: string, notice: string, cmd: Command, env: Env) returns (raised: Option<Exc>)
      requires Wired(env) && Enumerates(env.order, registry.clients)
      modifies network
      ensures network.names == old(network.names)
      ensures network.trace == old(network.trace) + Turn(echo, line, notice, cmd, env).events
      ensures raised == Turn(echo, line, notice, cmd, env).failure
    {
      ghost var before := network.trace;
      ghost var echoed := Broadcast(env.order, echo, env.broken);
      raised := SendToClients(echo, env.order, env.broken);
      if raised.Some? || !cmd.isExchange {
        return;
      }
      raised := HandleDirective(line, notice, cmd, env);
      Regroup(before, echoed.events, ExchangeReply(line, notice, cmd, env).events);
    }

    /** The rest of a turn for an `exchange` directive, after the echo:
        log the audit `line`, broadcast the `notice`, then the rates. */
    method HandleDirective(line: string, notice: string, cmd: Command, env: Env) returns (raised: Option<Exc>)
      requires Wired(env) && Enumerates(env.order, registry.clients)
      modifies network
      ensures network.names == old(network.names)
      ensures network.trace == old(network.trace) + ExchangeReply(line, notice, cmd, env).events
      ensures raised == ExchangeReply(line, notice, cmd, env).failure
    {
      ghost var before := network.trace;
      ghost var announce := Broadcast(env.order, notice, env.broken);
      HandleExchange(line);
      raised := SendToClients(notice, env.order, env.broken);
      Regroup(before, [Audited(line)], announce.events);
      if raised.Some? {
        return;
      }
      raised := SendRates(cmd, env);
      Regroup(before + [Audited(line)], announce.events, RatesReply(cmd, env).events);
      Regroup(before, [Audited(line)], announce.events + RatesReply(cmd, env).events);
    }

    /** `get_data`, render, then the heading and the table. */
    method SendRates(cmd: Command, env: Env) returns (raised: Option<Exc>)
      requires Wired(env) && Enumerates(env.order, registry.clients)
      modifies network
      ensures network.names == old(network.names)
      ensures network.trace == old(network.trace) + RatesReply(cmd, env).events
      ensures raised == RatesReply(cmd, env).failure
    {
      var result := GetData(env.now, cmd.days, cmd.currencies, env.fetch);
      assert Retrieves(env, cmd);
      if result.Err? {
        return Some(result.error);
      }
      var table := env.render(result.value);
      raised := SendToClients(HEADING, env.order, env.broken);
      if raised.Some? {
        return;
      }
      raised := SendToClients(table, env.order, env.broken);
    }

    /** `distribute`: one turn per inbound line, in order. */
    method Distribute(ws: ConnId, arrivals: seq<Arrival>, closedError: bool)
      returns (raised: Option<Exc>)
      requires ws in network.names
      requires forall i :: 0 <= i < |arrivals| ==> Ready(arrivals[i], registry.clients)
      modifies network
      ensures network.names == old(network.names)
      ensures network.trace == old(network.trace) + Session(old(network.names)[ws], arrivals, closedError).events
      ensures raised == Session(old(network.names)[ws], arrivals, closedError).failure
    {
      var name := network.names[ws];
      var i := 0;
      while i < |arrivals|
        invariant 0 <= i <= |arrivals|
        invariant network.names == old(network.names)
        invariant Conversation(name, arrivals[..i]).failure.None?
        invariant network.trace == old(network.trace) + Conversation(name, arrivals[..i]).events
      {
        var arrival := arrivals[i];
        assert Ready(arrival, registry.clients);
        ConversationStep(name, arrivals, i);
        raised := HandleMessage(name, arrival.message, arrival.env);
        Regroup(old(network.trace), Conversation(name, arrivals[..i]).events, React(name, arrival.message, arrival.env).events);
        if raised.Some? {
          ConversationStops(name, arrivals, i + 1);
          return;
        }
        i := i + 1;
      }
      assert arrivals[..i] == arrivals;
      raised := if closedError then Some(ConnectionClosedError) else None;
    }

    /** `ws_handler`: register, distribute, swallow `ConnectionClosedOK`, and
        unregister whatever happened. A connection object is handed to the
        handler once, so it is not yet a member. */
    method WsHandler(ws: ConnId, name: string, arrivals: seq<Arrival>, closedError: bool)
      returns (raised: Option<Exc>)
      requires ws !in registry.clients
      requires forall i :: 0 <= i < |arrivals| ==> Ready(arrivals[i], registry.clients + {ws})
      modifies registry, network
      ensures registry.clients == old(registry.clients)
      ensures network.names == old(network.names)[ws := name]
      ensures network.trace == old(network.trace) + Session(name, arrivals, closedError).events
      ensures var failure := Session(name, arrivals, closedError).failure;
        raised == if failure == Some(ConnectionClosedOK) then None else failure
    {
      Register(ws, name);
      raised := Distribute(ws, arrivals, closedError);
      if raised == Some(ConnectionClosedOK) {
        raised := None;
      }
      var ignored := Unregister(ws);
      // `ws` is still a member, so the `finally` clause cannot raise.
      assert ignored.None?;
    }
  }

  /** Two clients join, the first leaves, and a line from the second reaches
      only the second; a second `Server` on the same registry sees the same
      members. */
  method LeaveThenChat() returns (toFirst: seq<string>, toSecond: seq<string>, sharedView: set<ConnId>)
    ensures toFirst == [] && toSecond == ["Bob: hi"]
    ensures sharedView == {2}
  {
    var registry := new Registry();
    var network := new Network();
    var server := new Server(registry, network);
    var other := new Server(registry, network);
    server.Register(1, "Ann");
    other.Register(2, "Bob");
    var _ := server.Unregister(1);
    sharedView := other.registry.clients;
    assert sharedView == {2};
    var echo := Echo("Bob", "hi");
    assert echo == "Bob: hi";
    var _ := server.SendToClients(echo, [2], map[]);
    assert network.trace == Broadcast([2], echo, map[]).events;
    BroadcastToAll([2], echo, map[], 1);
    BroadcastToAll([2], echo, map[], 2);
    toFirst := Outbox(network.trace, 1);
    toSecond := Outbox(network.trace, 2);
  }
}
