/** `DateHandler`: the keys of the days an `exchange` directive asks about,
    today first and then one day further back at a time. "Now" is an input:
    the day number of the clock's current date. */
module DateHandler {
  import opened Py
  import opened Calendar

  /** How many dates a day count asks for: `len(range(days + 1))`. */
  function RangeLength(days: int): nat {
    if days < 0 then 0 else days + 1
  }

  /** The keys of day `now` and the `n - 1` days before it, most recent
      first. */
  function DateKeys(now: int, n: nat): (keys: seq<string>)
    requires n <= now <= MAX_ORDINAL
    ensures |keys| == n
  {
    seq(n, i requires 0 <= i < n => Strftime(DateOf(now - i)))
  }

  lemma DateKeysAt(now: int, n: nat, i: int)
    requires n <= now <= MAX_ORDINAL && 0 <= i < n
    ensures DateKeys(now, n)[i] == Strftime(DateOf(now - i))
  {
  }

  /** One more day at the old end of the list. */
  lemma DateKeysStep(now: int, i: nat)
    requires i < now <= MAX_ORDINAL
    ensures DateKeys(now, i + 1) == DateKeys(now, i) + [Strftime(DateOf(now - i))]
  {
    var a, b := DateKeys(now, i + 1), DateKeys(now, i) + [Strftime(DateOf(now - i))];
    forall j | 0 <= j < i + 1
      ensures a[j] == b[j]
    {
      if j < i {
        DateKeysAt(now, i + 1, j);
        DateKeysAt(now, i, j);
      }
    }
  }

  /** `DateHandler.dates_list_sync`: the keys of today and the `days` days
      before it, most recent first. Stepping back past 0001-01-01 raises
      `OverflowError` before anything is returned. */
  function DatesListSync(now: int, days: int): (r: Result<seq<string>>)
    requires 1 <= now <= MAX_ORDINAL
    ensures r.Err? <==> days >= 0 && now - days < 1
    ensures r.Err? ==> r.error == OverflowError
    ensures r.Ok? ==> |r.value| == RangeLength(days)
  {
    if days >= 0 && now - days < 1 then Err(OverflowError)
    else if days < 0 then Ok([])
    else Ok(DateKeys(now, days + 1))
  }

  /** Element `i` names the day `i` days before today: the date with day
      number `now - i`. */
  lemma DatesListDayNumbers(now: int, days: int, i: int)
    requires 1 <= now <= MAX_ORDINAL
    requires DatesListSync(now, days).Ok? && 0 <= i < |DatesListSync(now, days).value|
    ensures var k := DatesListSync(now, days).value[i];
      IsDateKey(k) && ParseDateKey(k) == DateOf(now - i)
  {
    DatesListAt(now, days, i);
    ParseStrftime(DateOf(now - i));
  }

  /** Element `i` is the key of the day `i` days before today; the first is
      today's own key. */
  lemma DatesListAt(now: int, days: int, i: int)
    requires 1 <= now <= MAX_ORDINAL
    requires DatesListSync(now, days).Ok? && 0 <= i < |DatesListSync(now, days).value|
    ensures 0 <= i < now && DatesListSync(now, days).value[i] == Strftime(DateOf(now - i))
  {
    DateKeysAt(now, days + 1, i);
  }

  /** Neighbouring elements are neighbouring calendar days: the day after
      element `i + 1` is element `i`. */
  lemma DatesListConsecutive(now: int, days: int, i: int)
    requires 1 <= now <= MAX_ORDINAL
    requires DatesListSync(now, days).Ok? && 0 <= i < |DatesListSync(now, days).value| - 1
    ensures var ds := DatesListSync(now, days).value;
      && IsDateKey(ds[i]) && IsDateKey(ds[i + 1])
      && Valid(ParseDateKey(ds[i + 1])) && NextDay(ParseDateKey(ds[i + 1])) == ParseDateKey(ds[i])
  {
    DatesListAt(now, days, i);
    DatesListAt(now, days, i + 1);
    ParseStrftime(DateOf(now - i));
    ParseStrftime(DateOf(now - i - 1));
    assert FromOrdinal(now - i) == NextDay(FromOrdinal(now - i - 1));
  }

  /** The keys name strictly earlier days further down the list, so no key
      repeats. */
  lemma DatesListDescending(now: int, days: int, i: int, j: int)
    requires 1 <= now <= MAX_ORDINAL
    requires DatesListSync(now, days).Ok? && 0 <= i < j < |DatesListSync(now, days).value|
    ensures var ds := DatesListSync(now, days).value;
      && IsDateKey(ds[i]) && IsDateKey(ds[j])
      && Before(ParseDateKey(ds[j]), ParseDateKey(ds[i])) && ds[i] != ds[j]
  {
    DatesListSyncOk(now, days);
    DateKeysDescending(now, days + 1, i, j);
  }

  lemma DateKeysDescending(now: int, n: nat, i: int, j: int)
    requires n <= now <= MAX_ORDINAL && 0 <= i < j < n
    ensures var ks := DateKeys(now, n);
      && IsDateKey(ks[i]) && IsDateKey(ks[j])
      && Before(ParseDateKey(ks[j]), ParseDateKey(ks[i])) && ks[i] != ks[j]
  {
    var ks := DateKeys(now, n);
    DateKeysAt(now, n, i);
    DateKeysAt(now, n, j);
    KeyOrder(now - j, now - i, ks[j], ks[i]);
  }

  /** A smaller day number has the key of an earlier date. */
  lemma KeyOrder(m: int, n: int, early: DateKey, late: DateKey)
    requires 1 <= m < n <= MAX_ORDINAL
    requires early == Strftime(DateOf(m)) && late == Strftime(DateOf(n))
    ensures Before(ParseDateKey(early), ParseDateKey(late)) && late != early
  {
    var a, b := DateOf(m), DateOf(n);
    DateOfOrdinal(m);
    DateOfOrdinal(n);
    OrdinalOrder(a, b);
    ParseStrftime(a);
    ParseStrftime(b);
  }

  /** A negative day count asks for nothing. */
  lemma DatesListNegative(now: int, days: int)
    requires 1 <= now <= MAX_ORDINAL && days < 0
    ensures DatesListSync(now, days) == Ok([])
  {
  }

  /** `DateHandler.dates_list`, the asynchronous generator: it yields the
      same keys one by one, and when it steps back past 0001-01-01 it raises
      `OverflowError` after having yielded every key down to that day. */
  method DatesList(now: int, days: int) returns (yielded: seq<string>, raised: Option<Exc>)
    requires 1 <= now <= MAX_ORDINAL
    ensures DatesListSync(now, days) == if raised.None? then Ok(yielded) else Err(OverflowError)
    ensures raised.Some? ==> raised == Some(OverflowError) && yielded == DateKeys(now, now)
  {
    yielded := [];
    var n := RangeLength(days);
    var i := 0;
    while i < n
      invariant 0 <= i <= n && i <= now
      invariant yielded == DateKeys(now, i)
    {
      if now - i < 1 {
        assert i == now;
        DatesListSyncOverflow(now, days);
        return yielded, Some(OverflowError);
      }
      DateKeysStep(now, i);
      yielded := yielded + [Strftime(DateOf(now - i))];
      i := i + 1;
    }
    if days >= 0 {
      DatesListSyncOk(now, days);
    } else {
      DatesListNegative(now, days);
    }
    raised := None;
  }

  lemma DatesListSyncOverflow(now: int, days: int)
    requires 1 <= now <= MAX_ORDINAL && days >= now
    ensures DatesListSync(now, days) == Err(OverflowError)
  {
  }

  lemma DatesListSyncOk(now: int, days: int)
    requires 1 <= now <= MAX_ORDINAL && 0 <= days < now
    ensures DatesListSync(now, days) == Ok(DateKeys(now, days + 1))
  {
  }
}
