/** `Rates`: filtering one day's bank record down to the requested
    currencies, and the retrieval pipeline that walks the date keys, fetches
    each day's record and keeps the non-empty results in order. The network
    fetch is an input: the outcome of fetching each date key. */
module Rates {
  import opened Py
  import opened Calendar
  import opened DateHandler

  /** One element of a record's `exchangeRate` list; a key the JSON object
      lacks is `None`. */
  datatype RateEntry = RateEntry(currency: Option<string>, saleRate: Option<real>, purchaseRate: Option<real>)

  /** The bank's JSON object for one day; a key it lacks is `None`. */
  datatype BankRecord = BankRecord(date: Option<string>, exchangeRate: Option<seq<RateEntry>>)

  /** `{'sale': ..., 'purchase': ...}` */
  datatype Quote = Quote(sale: real, purchase: real)

  /** A Python dict from currency code to quote: its items in insertion
      order. */
  type RateTable = seq<(string, Quote)>

  /** `{date_key: currency_dict}`: one element of `get_data`'s result. */
  datatype DayRates = DayRates(date: string, rates: RateTable)

  /** What fetching one date key gave: the decoded JSON record, or
      `HttpGetError`. */
  datatype Fetch = Fetched(record: BankRecord) | HttpGetError

  // ---------------------------------------------------------------------
  // The dict

  function Keys(t: RateTable): (ks: seq<string>)
    ensures |ks| == |t|
  {
    if t == [] then [] else [t[0].0] + Keys(t[1..])
  }

  /** `t.get(k)` */
  function Lookup(t: RateTable, k: string): (q: Option<Quote>)
    ensures q.Some? <==> k in Keys(t)
  {
    if t == [] then None else if t[0].0 == k then Some(t[0].1) else Lookup(t[1..], k)
  }

  /** `t[k] = q`: an existing key keeps its place and takes the new value, a
      new key goes at the end. */
  function Put(t: RateTable, k: string, q: Quote): (r: RateTable)
    ensures Keys(r) == if k in Keys(t) then Keys(t) else Keys(t) + [k]
    ensures Lookup(r, k) == Some(q)
    ensures forall c :: c != k ==> Lookup(r, c) == Lookup(t, c)
  {
    if t == [] then [(k, q)]
    else if t[0].0 == k then [(k, q)] + t[1..]
    else [t[0]] + Put(t[1..], k, q)
  }

  // ---------------------------------------------------------------------
  // process_response_data

  /** The entry's `currency` is one of the requested codes. */
  predicate Selected(e: RateEntry, currencies: seq<string>) {
    e.currency.Some? && e.currency.value in currencies
  }

  /** Evaluating the comprehension on this entry raises `KeyError`: it has no
      `currency`, or it is selected and lacks a rate. */
  predicate Faulty(e: RateEntry, currencies: seq<string>) {
    e.currency.None? || (e.currency.value in currencies && (e.saleRate.None? || e.purchaseRate.None?))
  }

  function QuoteOf(e: RateEntry): Quote
    requires e.saleRate.Some? && e.purchaseRate.Some?
  {
    Quote(e.saleRate.value, e.purchaseRate.value)
  }

  /** The dict comprehension over `exchangeRate`, entry by entry in list
      order; the first faulty entry raises `KeyError`. */
  function Gather(entries: seq<RateEntry>, currencies: seq<string>): (r: Result<RateTable>)
    ensures r.Err? ==> r.error == KeyError
    ensures r.Ok? ==> Distinct(Keys(r.value))
    ensures r.Ok? ==> forall k :: k in Keys(r.value) ==> k in currencies
    decreases |entries|
  {
    if entries == [] then Ok([])
    else
      var prev := Gather(entries[..|entries| - 1], currencies);
      var e := entries[|entries| - 1];
      if prev.Err? then prev
      else if e.currency.None? then Err(KeyError)
      else if e.currency.value !in currencies then prev
      else if e.saleRate.None? || e.purchaseRate.None? then Err(KeyError)
      else Ok(Put(prev.value, e.currency.value, QuoteOf(e)))
  }

  /** The comprehension raises exactly when some entry is faulty. */
  lemma {:induction false} GatherFails(entries: seq<RateEntry>, currencies: seq<string>)
    ensures Gather(entries, currencies).Err? <==> exists i :: 0 <= i < |entries| && Faulty(entries[i], currencies)
    decreases |entries|
  {
    if entries != [] {
      var m := |entries| - 1;
      var init := entries[..m];
      GatherFails(init, currencies);
      if exists i :: 0 <= i < m && Faulty(init[i], currencies) {
        var i :| 0 <= i < m && Faulty(init[i], currencies);
        assert entries[i] == init[i];
      }
      if exists i :: 0 <= i < |entries| && Faulty(entries[i], currencies) {
        var i :| 0 <= i < |entries| && Faulty(entries[i], currencies);
        if i < m {
          assert init[i] == entries[i];
        }
      }
    }
  }

  /** The dict's keys are exactly the requested codes some entry carries. */
  lemma {:induction false} GatherKeys(entries: seq<RateEntry>, currencies: seq<string>, c: string)
    requires Gather(entries, currencies).Ok?
    ensures c in Keys(Gather(entries, currencies).value)
      <==> exists i :: 0 <= i < |entries| && Selected(entries[i], currencies) && entries[i].currency.value == c
    decreases |entries|
  {
    if entries != [] {
      var m := |entries| - 1;
      var init := entries[..m];
      GatherKeys(init, currencies, c);
      if exists i :: 0 <= i < m && Selected(init[i], currencies) && init[i].currency.value == c {
        var i :| 0 <= i < m && Selected(init[i], currencies) && init[i].currency.value == c;
        assert entries[i] == init[i];
      }
      if exists i :: 0 <= i < |entries| && Selected(entries[i], currencies) && entries[i].currency.value == c {
        var i :| 0 <= i < |entries| && Selected(entries[i], currencies) && entries[i].currency.value == c;
        if i < m {
          assert init[i] == entries[i];
        }
      }
    }
  }

  /** A currency's quote is the one from its last entry: later duplicates
      overwrite earlier ones. */
  lemma {:induction false} GatherLast(entries: seq<RateEntry>, currencies: seq<string>, i: int)
    requires Gather(entries, currencies).Ok?
    requires 0 <= i < |entries| && Selected(entries[i], currencies)
    requires forall j :: i < j < |entries| ==> entries[j].currency != entries[i].currency
    ensures entries[i].saleRate.Some? && entries[i].purchaseRate.Some?
    ensures Lookup(Gather(entries, currencies).value, entries[i].currency.value) == Some(QuoteOf(entries[i]))
    decreases |entries|
  {
    var m := |entries| - 1;
    var init := entries[..m];
    if i < m {
      assert init[i] == entries[i];
      forall j | i < j < m
        ensures init[j].currency != init[i].currency
      {
        assert init[j] == entries[j];
      }
      GatherLast(init, currencies, i);
    }
  }

  /** `process_response_data`: `{date: {currency: quote}}` for the requested
      currencies, `None` when none of them is in the record; a missing key
      raises `KeyError`. */
  function ProcessResponseData(data: BankRecord, currencies: seq<string>): (r: Result<Option<DayRates>>)
    ensures r.Err? ==> r.error == KeyError
    ensures r.Ok? && r.value.Some? ==>
      && data.date == Some(r.value.value.date)
      && r.value.value.rates != []
      && Distinct(Keys(r.value.value.rates))
      && forall k :: k in Keys(r.value.value.rates) ==> k in currencies
  {
    if data.date.None? || data.exchangeRate.None? then Err(KeyError)
    else
      match Gather(data.exchangeRate.value, currencies)
      case Err(e) => Err(e)
      case Ok(t) => if t == [] then Ok(None) else Ok(Some(DayRates(data.date.value, t)))
  }

  /** `KeyError` exactly when the record lacks `date` or `exchangeRate` or
      one of its entries is faulty. */
  lemma ProcessFails(data: BankRecord, currencies: seq<string>)
    ensures ProcessResponseData(data, currencies).Err?
      <==> data.date.None? || data.exchangeRate.None?
           || exists i :: 0 <= i < |data.exchangeRate.value| && Faulty(data.exchangeRate.value[i], currencies)
  {
    if data.exchangeRate.Some? {
      GatherFails(data.exchangeRate.value, currencies);
    }
  }

  /** `None` exactly when the record is well formed but no entry carries a
      requested currency. */
  lemma ProcessNothing(data: BankRecord, currencies: seq<string>)
    requires ProcessResponseData(data, currencies).Ok?
    ensures ProcessResponseData(data, currencies).value.None?
      <==> forall i :: 0 <= i < |data.exchangeRate.value| ==> !Selected(data.exchangeRate.value[i], currencies)
  {
    var entries := data.exchangeRate.value;
    var t := Gather(entries, currencies).value;
    if t != [] {
      GatherKeys(entries, currencies, t[0].0);
    } else {
      forall i | 0 <= i < |entries|
        ensures !Selected(entries[i], currencies)
      {
        if Selected(entries[i], currencies) {
          GatherKeys(entries, currencies, entries[i].currency.value);
        }
      }
    }
  }

  // ---------------------------------------------------------------------
  // get_data

  /** The results of processing the fetched records of `keys`, in order: a
      failed fetch is skipped, a `None` result dropped, and a `KeyError`
      stops everything. */
  function Collect(keys: seq<string>, currencies: seq<string>, fetch: string -> Fetch): (r: Result<seq<DayRates>>)
    ensures r.Err? ==> r.error == KeyError
    ensures r.Ok? ==> |r.value| <= |keys|
    ensures r.Ok? ==> forall i :: 0 <= i < |r.value| ==> r.value[i].rates != []
    decreases |keys|
  {
    if keys == [] then Ok([])
    else
      var prev := Collect(keys[..|keys| - 1], currencies, fetch);
      if prev.Err? then prev
      else
        match fetch(keys[|keys| - 1])
        case HttpGetError => prev
        case Fetched(data) =>
          match ProcessResponseData(data, currencies)
          case Err(e) => Err(e)
          case Ok(None) => prev
          case Ok(Some(d)) => Ok(prev.value + [d])
  }

  /** Processing one more key after a prefix. */
  lemma CollectNext(keys: seq<string>, i: int, currencies: seq<string>, fetch: string -> Fetch)
    requires 0 <= i < |keys|
    ensures var prev := Collect(keys[..i], currencies, fetch);
      Collect(keys[..i + 1], currencies, fetch)
      == if prev.Err? then prev
         else match fetch(keys[i])
           case HttpGetError => prev
           case Fetched(data) =>
             match ProcessResponseData(data, currencies)
             case Err(e) => Err(e)
             case Ok(None) => prev
             case Ok(Some(d)) => Ok(prev.value + [d])
  {
    assert keys[..i + 1][..i] == keys[..i];
  }

  /** Once a prefix of the keys raises, so does the whole list, with the
      same error. */
  lemma {:induction false} CollectStopsAtError(keys: seq<string>, n: nat, currencies: seq<string>, fetch: string -> Fetch)
    requires n <= |keys| && Collect(keys[..n], currencies, fetch).Err?
    ensures Collect(keys, currencies, fetch) == Collect(keys[..n], currencies, fetch)
    decreases |keys| - n
  {
    if n < |keys| {
      var m := |keys| - 1;
      assert keys[..m][..n] == keys[..n];
      CollectStopsAtError(keys[..m], n, currencies, fetch);
    } else {
      assert keys[..n] == keys;
    }
  }

  /** Processing two runs of keys one after the other. */
  lemma {:induction false} CollectAppend(a: seq<string>, b: seq<string>, currencies: seq<string>, fetch: string -> Fetch)
    ensures Collect(a + b, currencies, fetch)
      == match Collect(a, currencies, fetch)
         case Err(e) => Err(e)
         case Ok(x) =>
           match Collect(b, currencies, fetch)
           case Err(e) => Err(e)
           case Ok(y) => Ok(x + y)
    decreases |b|
  {
    if b == [] {
      assert a + b == a;
      assert Collect(b, currencies, fetch) == Ok([]);
      if Collect(a, currencies, fetch).Ok? {
        assert Collect(a, currencies, fetch).value + [] == Collect(a, currencies, fetch).value;
      }
    } else {
      var m := |b| - 1;
      assert (a + b)[..|a + b| - 1] == a + b[..m];
      assert (a + b)[|a + b| - 1] == b[m];
      CollectAppend(a, b[..m], currencies, fetch);
      var ca, cb := Collect(a, currencies, fetch), Collect(b[..m], currencies, fetch);
      if ca.Ok? && cb.Ok? {
        match fetch(b[m]) {
          case HttpGetError =>
          case Fetched(data) =>
            match ProcessResponseData(data, currencies) {
              case Err(e) =>
              case Ok(None) =>
              case Ok(Some(d)) =>
                assert ca.value + cb.value + [d] == ca.value + (cb.value + [d]);
            }
        }
      }
    }
  }

  /** A date whose fetch failed is skipped and the ones after it are still
      processed. */
  lemma SkipFailedFetch(a: seq<string>, k: string, b: seq<string>, currencies: seq<string>, fetch: string -> Fetch)
    requires fetch(k) == HttpGetError
    ensures Collect(a + [k] + b, currencies, fetch) == Collect(a + b, currencies, fetch)
  {
    assert Collect([k], currencies, fetch) == Ok([]) by {
      assert [k][..0] == [];
    }
    CollectAppend(a, [k], currencies, fetch);
    CollectAppend(a + [k], b, currencies, fetch);
    CollectAppend(a, b, currencies, fetch);
    assert a + [k] + b == (a + [k]) + b;
  }

  /** A single date contributes its processed record, or nothing. */
  lemma CollectOne(k: string, currencies: seq<string>, fetch: string -> Fetch)
    ensures Collect([k], currencies, fetch)
      == match fetch(k)
         case HttpGetError => Ok([])
         case Fetched(data) =>
           match ProcessResponseData(data, currencies)
           case Err(e) => Err(e)
           case Ok(None) => Ok([])
           case Ok(Some(d)) => Ok([d])
  {
    assert [k][..0] == [];
    assert Collect([], currencies, fetch) == Ok([]);
    var empty: seq<DayRates> := [];
    assert forall d :: empty + [d] == [d];
  }

  /** What `get_data(days, currencies)` returns or raises: the keys the date
      generator yields are processed one by one, and the generator's own
      `OverflowError` comes after all of them. */
  function GetDataResult(now: int, days: int, currencies: seq<string>, fetch: string -> Fetch): (r: Result<seq<DayRates>>)
    requires 1 <= now <= MAX_ORDINAL
    ensures r.Err? ==> r.error == KeyError || r.error == OverflowError
    ensures r.Ok? ==> forall i :: 0 <= i < |r.value| ==> r.value[i].rates != []
  {
    var sync := DatesListSync(now, days);
    var keys := if sync.Ok? then sync.value else DateKeys(now, now);
    var collected := Collect(keys, currencies, fetch);
    if collected.Err? then collected
    else if sync.Err? then Err(OverflowError)
    else collected
  }

  lemma GetDataOutcome(now: int, days: int, currencies: seq<string>, fetch: string -> Fetch,
                       keys: seq<string>, raised: Option<Exc>)
    requires 1 <= now <= MAX_ORDINAL
    requires DatesListSync(now, days) == if raised.None? then Ok(keys) else Err(OverflowError)
    requires raised.Some? ==> keys == DateKeys(now, now)
    ensures GetDataResult(now, days, currencies, fetch)
      == if Collect(keys, currencies, fetch).Err? || raised.None? then Collect(keys, currencies, fetch)
         else Err(OverflowError)
  {
  }

  /** At most one result per requested day, none for a negative count. */
  lemma GetDataBound(now: int, days: int, currencies: seq<string>, fetch: string -> Fetch)
    requires 1 <= now <= MAX_ORDINAL
    ensures GetDataResult(now, days, currencies, fetch).Ok? ==>
      |GetDataResult(now, days, currencies, fetch).value| <= RangeLength(days)
    ensures days < 0 ==> GetDataResult(now, days, currencies, fetch) == Ok([])
  {
    if days < 0 {
      DatesListNegative(now, days);
    }
  }

  /** When the calendar has room for every requested day, the result is the
      processing of exactly those days' keys. */
  lemma GetDataInRange(now: int, days: int, currencies: seq<string>, fetch: string -> Fetch)
    requires 1 <= now <= MAX_ORDINAL && 0 <= days < now
    ensures GetDataResult(now, days, currencies, fetch) == Collect(DateKeys(now, days + 1), currencies, fetch)
  {
    DatesListSyncOk(now, days);
  }

  /** `get_data`: the `async for` loop over the date generator. */
  method GetData(now: int, days: int, currencies: seq<string>, fetch: string -> Fetch)
    returns (r: Result<seq<DayRates>>)
    requires 1 <= now <= MAX_ORDINAL
    ensures r == GetDataResult(now, days, currencies, fetch)
  {
    var keys, raised := DatesList(now, days);
    GetDataOutcome(now, days, currencies, fetch, keys, raised);
    var output: seq<DayRates> := [];
    var i := 0;
    while i < |keys|
      invariant 0 <= i <= |keys|
      invariant Collect(keys[..i], currencies, fetch) == Ok(output)
    {
      CollectNext(keys, i, currencies, fetch);
      match fetch(keys[i]) {
        case HttpGetError =>
        case Fetched(data) =>
          var result := ProcessResponseData(data, currencies);
          if result.Err? {
            CollectStopsAtError(keys, i + 1, currencies, fetch);
            return Err(result.error);
          }
          if result.value.Some? {
            output := output + [result.value.value];
          }
      }
      i := i + 1;
    }
    assert keys[..i] == keys;
    if raised.Some? {
      return Err(OverflowError);
    }
    return Ok(output);
  }
}
