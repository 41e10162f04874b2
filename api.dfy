/** The API-backed variant of the report pipeline: the normalizer that rewrites
    `created_at` to 'DD.MM.YY hh:mm:ss' and strips the opaque fields, the filter that
    keeps orders inside a date-time range, a cost range and a raw status, relabelling
    the status and unwrapping the promo code of each kept order, the column headers
    and the report file name. */
module ApiPipeline {
  import opened Outcomes
  import opened Text
  import opened Calendar
  import opened TimeFormat
  import opened Orders
  import opened Batch

  // ================================================================ normalizer

  /** The date-time an ISO `created_at` names: split on 'T' (exactly two pieces, or the
      unpacking raises), cut the time at its first '.', parse "date time" as
      '%Y-%m-%d %H:%M:%S'. */
  function SourceDateTime(createdAt: string): (r: Result<DateTime>)
    ensures Count(createdAt, 'T') != 1 ==> r == Err(MalformedTimestamp(createdAt))
    ensures r.Ok? ==> Valid(r.value)
  {
    var parts := Split(createdAt, 'T');
    if |parts| != 2 then Err(MalformedTimestamp(createdAt))
    else Strptime(parts[0] + " " + Split(parts[1], '.')[0], IsoDateTime)
  }

  /** The display form the normalizer stores: '%d.%m.%y %H:%M:%S'. */
  function DisplayTimestamp(createdAt: string): (r: Result<string>)
    ensures r.Ok? <==> SourceDateTime(createdAt).Ok?
    ensures r.Ok? ==> |r.value| == 17
  {
    var dt :- SourceDateTime(createdAt);
    PatternWidths();
    Ok(Strftime(dt, DisplayDateTime))
  }

  /** One iteration of the normalizer: rewrite `created_at`, then pop the opaque fields. */
  function NormalizeRecord(rec: Record): (r: Result<Record>)
    ensures r.Ok? <==> "created_at" in rec && rec["created_at"].Str? && DisplayTimestamp(rec["created_at"].text).Ok?
    ensures r.Ok? ==> "created_at" in r.value && r.value["created_at"] == Str(DisplayTimestamp(rec["created_at"].text).value)
    ensures r.Ok? ==> r.value.Keys == rec.Keys - OpaqueKeys
    ensures r.Ok? ==> forall k :: k in r.value && k != "created_at" ==> r.value[k] == rec[k]
  {
    match TextField(rec, "created_at")
    case Err(e) => Err(e)
    case Ok(createdAt) =>
      match DisplayTimestamp(createdAt)
      case Err(e) => Err(e)
      case Ok(shown) => Ok(WithDisplayTimestamp(rec, shown))
  }

  /** The statements of one normalizer iteration on one order: the display timestamp is
      computed first, so an order whose timestamp raises is left as it was; then the
      assignment and the pops. */
  method NormalizeOrder(order: Record) returns (outcome: Result<Record>)
    ensures outcome == NormalizeRecord(order)
  {
    var createdAt := TextField(order, "created_at");
    if createdAt.Err? {
      return Err(createdAt.error);
    }
    var shown := DisplayTimestamp(createdAt.value);
    if shown.Err? {
      return Err(shown.error);
    }
    var rewritten := order["created_at" := Str(shown.value)];
    rewritten := PopOpaque(rewritten);
    outcome := Ok(rewritten);
  }

  /** The loop of the normalizer over the fetched orders, rewriting them in place. On
      success the whole list is what gets saved; the first bad timestamp aborts the batch
      and nothing is saved. */
  method NormalizeOrders(orders: array<Record>) returns (saved: Result<seq<Record>>)
    modifies orders
    ensures saved == Collect(old(orders[..]), RewriteStep(NormalizeRecord))
    ensures orders[..] == Leave(old(orders[..]), RewriteStep(NormalizeRecord), RewriteEffect(NormalizeRecord))
    ensures saved.Ok? ==> saved.value == orders[..]
  {
    saved := RewriteInPlace(orders, NormalizeRecord);
  }

  // ================================================================ filter

  /** The criteria of one report request; `status` is the request's status, lower-cased
      by the caller. */
  datatype Criteria = Criteria(start: DateTime, end: DateTime, minCost: int, maxCost: int, status: string)

  /** The caller's lower-casing of the requested status: the criteria keep the bounds as
      given and hold the lower-cased request, which lower-casing again leaves unchanged,
      so a request differing only in case asks for the same orders (RequestCaseInvariant). */
  function RequestCriteria(start: DateTime, end: DateTime, minCost: int, maxCost: int, requested: string): (c: Criteria)
    ensures c.start == start && c.end == end && c.minCost == minCost && c.maxCost == maxCost
    ensures c.status == Lower(requested)
    ensures Lower(c.status) == c.status
  {
    LowerIdempotent(requested);
    Criteria(start, end, minCost, maxCost, Lower(requested))
  }

  /** `datetime.strptime(order['created_at'], '%d.%m.%y %H:%M:%S')` */
  function OrderDateTime(rec: Record): (r: Result<DateTime>)
    ensures r.Ok? ==> Valid(r.value)
  {
    var shown :- TextField(rec, "created_at");
    Strptime(shown, DisplayDateTime)
  }

  /** The three conditions of the filter on an order's parsed fields. */
  predicate Matches(c: Criteria, d: DateTime, cost: int, status: string) {
    && NotAfter(c.start, d) && NotAfter(d, c.end)
    && c.minCost <= cost <= c.maxCost
    && (c.status == "all" || Lower(status) == c.status)
  }

  /** The filter's test, in the source's evaluation order: the cost is read only for
      an order inside the date range, the status only when the filter is not 'all'. */
  function Selects(rec: Record, c: Criteria): (r: Result<bool>)
    ensures r.Ok? ==> OrderDateTime(rec).Ok?
    ensures OrderDateTime(rec).Err? ==> r == Err(OrderDateTime(rec).error)
    ensures r == Ok(true) ==> && InWindow(c, OrderDateTime(rec).value) && TotalCost(rec).Ok?
                              && c.minCost <= TotalCost(rec).value <= c.maxCost
  {
    var d :- OrderDateTime(rec);
    if !(NotAfter(c.start, d) && NotAfter(d, c.end)) then Ok(false)
    else
      var cost :- TotalCost(rec);
      if !(c.minCost <= cost <= c.maxCost) then Ok(false)
      else if c.status == "all" then Ok(true)
      else
        var status :- TextField(rec, "status");
        Ok(Lower(status) == c.status)
  }

  /** `order['status'] = status_rename_map.get(order['status'], order['status'])` */
  function Relabel(rec: Record): (r: Result<Record>)
    ensures r.Ok? <==> TranslatedStatus(rec).Ok?
    ensures r.Ok? ==> r.value == rec["status" := TranslatedStatus(rec).value]
  {
    var status :- TranslatedStatus(rec);
    Ok(rec["status" := status])
  }

  /** `order['code'] = order['code']['code']`: the code must be a mapping holding `code`. */
  function UnwrapCode(rec: Record): (r: Result<Record>)
    ensures r.Ok? <==> "code" in rec && rec["code"].Obj? && "code" in rec["code"].fields
    ensures r.Ok? ==> r.value == rec["code" := rec["code"].fields["code"]]
  {
    var code :- Field(rec, "code");
    if !code.Obj? then Err(TypeMismatch("code"))
    else
      var inner :- Field(code.fields, "code");
      Ok(rec["code" := inner])
  }

  /** One iteration of the filter loop. */
  function FilterStep(rec: Record, c: Criteria): (r: Result<Option<Record>>)
    ensures r == Ok(None) <==> Selects(rec, c) == Ok(false)
    ensures r.Ok? && r.value.Some? ==> Selects(rec, c) == Ok(true) && r.value.value.Keys == rec.Keys
  {
    var keep :- Selects(rec, c);
    if !keep then Ok(None)
    else
      var relabelled :- Relabel(rec);
      var unwrapped :- UnwrapCode(relabelled);
      Ok(Some(unwrapped))
  }

  /** The order as one iteration leaves it: rejected ones untouched, kept ones relabelled
      and unwrapped, and one whose code unwrap raises keeps its new status. */
  function FilterEffect(rec: Record, c: Criteria): (r: Record)
    ensures r.Keys == rec.Keys
    ensures forall k :: k in rec && k != "status" && k != "code" ==> r[k] == rec[k]
  {
    if Selects(rec, c) != Ok(true) || Relabel(rec).Err? then rec
    else if UnwrapCode(Relabel(rec).value).Err? then Relabel(rec).value
    else UnwrapCode(Relabel(rec).value).value
  }

  function StepOf(c: Criteria): Step {
    rec => FilterStep(rec, c)
  }

  function EffectOf(c: Criteria): Effect {
    rec => FilterEffect(rec, c)
  }

  /** The body of the filter loop on the order at position i: test it, and for a kept
      order rewrite its status and then its code in place. */
  method FilterAt(orders: array<Record>, i: nat, c: Criteria) returns (verdict: Result<Option<Record>>)
    requires i < orders.Length
    modifies orders
    ensures verdict == FilterStep(old(orders[i]), c)
    ensures orders[..] == old(orders[..])[i := FilterEffect(old(orders[i]), c)]
  {
    var order := orders[i];
    var keep := Selects(order, c);
    if keep.Err? {
      return Err(keep.error);
    }
    if !keep.value {
      return Ok(None);
    }
    var relabelled := Relabel(order);
    if relabelled.Err? {
      return Err(relabelled.error);
    }
    orders[i] := relabelled.value;
    var unwrapped := UnwrapCode(orders[i]);
    if unwrapped.Err? {
      return Err(unwrapped.error);
    }
    orders[i] := unwrapped.value;
    // the source appends the order before unwrapping its code; the list holds the
    // same dictionary, so it sees the unwrapped code too
    verdict := Ok(Some(unwrapped.value));
  }

  /** The filter loop over the loaded orders: builds the list of kept orders and
      rewrites each kept order in place, one iteration being what `FilterAt` does. */
  method FilterOrders(orders: array<Record>, c: Criteria) returns (filtered: Result<seq<Record>>)
    modifies orders
    ensures filtered == Collect(old(orders[..]), StepOf(c))
    ensures orders[..] == Leave(old(orders[..]), StepOf(c), EffectOf(c))
  {
    filtered := RunInPlace(orders, StepOf(c), EffectOf(c));
  }

  // ================================================================ report

  /** The column headers of the report. */
  const ReportColumns: map<string, string> := map[
    "user_full_name" := "Имя",
    "full_address" := "Адрес",
    "created_at" := "Дата",
    "order_number" := "Номер заказа",
    "status" := "Статус",
    "total_cost" := "Сумма",
    "code" := "Промокод"
  ]

  /** `report_<now as '%d.%m.%y %H.%M.%S'>.xlsx` */
  function ReportFileName(now: DateTime): (name: string)
    requires Valid(now)
    ensures |name| == 29
  {
    PatternWidths();
    "report_" + Strftime(now, FileStamp) + ".xlsx"
  }

  /** The name of a report written inside the pivot window gives back its moment, so two
      reports written at different seconds never share a name. */
  lemma ReportFileNameReadsBack(now: DateTime)
    requires Valid(now) && 1969 <= now.year <= 2068
    ensures var name := ReportFileName(now);
      name[..7] == "report_" && name[24..] == ".xlsx" && Strptime(name[7..24], FileStamp) == Ok(now)
  {
    PatternWidths();
    var stamp := Strftime(now, FileStamp);
    var name := ReportFileName(now);
    assert name == "report_" + stamp + ".xlsx";
    assert name[7..24] == stamp;
    FileStampRoundTrip(now);
  }

  lemma ReportFileNamesDistinct(a: DateTime, b: DateTime)
    requires Valid(a) && 1969 <= a.year <= 2068
    requires Valid(b) && 1969 <= b.year <= 2068
    requires a != b
    ensures ReportFileName(a) != ReportFileName(b)
  {
    ReportFileNameReadsBack(a);
    ReportFileNameReadsBack(b);
  }

  // ================================================================ normalizer properties

  /** How the normalizer cuts a timestamp made of a date, 'T', a time and a tail that
      is empty or starts with '.': the tail is dropped and the date and time are joined
      by a blank. */
  lemma CutsIsoTimestamp(date: string, time: string, tail: string)
    requires 'T' !in date && 'T' !in time && '.' !in time
    requires 'T' !in tail && (tail == [] || tail[0] == '.')
    ensures SourceDateTime(date + "T" + time + tail) == Strptime(date + " " + time, IsoDateTime)
  {
    assert date + "T" + time + tail == date + ['T'] + (time + tail);
    SplitAtFirst(date, time + tail, 'T');
    SplitWithoutSeparator(time + tail, 'T');
    if tail == [] {
      assert time + tail == time;
      SplitWithoutSeparator(time, '.');
    } else {
      assert time + tail == time + ['.'] + tail[1..];
      SplitAtFirst(time, tail[1..], '.');
    }
  }

  /** A timestamp 'YYYY-MM-DDThh:mm:ss' followed by nothing or by a fraction after '.'
      normalizes to 'DD.MM.YY hh:mm:ss'; the fraction is dropped. */
  lemma NormalizesIsoTimestamp(dt: DateTime, tail: string)
    requires Valid(dt)
    requires 'T' !in tail && (tail == [] || tail[0] == '.')
    ensures DisplayTimestamp(Strftime(dt, IsoDate) + "T" + Strftime(dt, IsoTime) + tail)
      == Ok(Strftime(dt, DisplayDateTime))
  {
    StrftimeAvoids(dt, IsoDate, 'T');
    StrftimeAvoids(dt, IsoTime, 'T');
    StrftimeAvoids(dt, IsoTime, '.');
    CutsIsoTimestamp(Strftime(dt, IsoDate), Strftime(dt, IsoTime), tail);
    IsoDateTimeParts(dt);
    IsoDateTimeRoundTrip(dt);
  }

  /** The filter reads the normalized timestamp back as the original date-time exactly
      when its year lies in the two-digit-year window 1969..2068. */
  lemma NormalizedReadsBack(rec: Record, dt: DateTime, tail: string)
    requires Valid(dt)
    requires 'T' !in tail && (tail == [] || tail[0] == '.')
    requires "created_at" in rec
    requires rec["created_at"] == Str(Strftime(dt, IsoDate) + "T" + Strftime(dt, IsoTime) + tail)
    ensures NormalizeRecord(rec).Ok?
    ensures OrderDateTime(NormalizeRecord(rec).value) == Ok(dt) <==> 1969 <= dt.year <= 2068
  {
    NormalizesIsoTimestamp(dt, tail);
    DisplayDateTimeRoundTrip(dt);
  }

  /** The batch is saved exactly when every order normalizes; it then holds every order,
      in input order, each rewritten, none with an opaque field. */
  lemma NormalizedBatch(rs: seq<Record>)
    ensures Collect(rs, RewriteStep(NormalizeRecord)).Ok? <==> forall j :: 0 <= j < |rs| ==> NormalizeRecord(rs[j]).Ok?
    ensures Collect(rs, RewriteStep(NormalizeRecord)).Ok? ==>
      var out := Collect(rs, RewriteStep(NormalizeRecord)).value;
      && |out| == |rs|
      && forall j :: 0 <= j < |rs| ==> out[j] == NormalizeRecord(rs[j]).value && out[j].Keys !! OpaqueKeys
  {
    RewriteBatch(rs, NormalizeRecord);
  }

  // ================================================================ filter properties

  /** Both ends of the date-time range are inclusive. */
  predicate InWindow(c: Criteria, d: DateTime) {
    NotAfter(c.start, d) && NotAfter(d, c.end)
  }

  /** On an order whose fields parse, the filter's verdict is exactly the three
      conditions, with inclusive bounds. */
  lemma SelectsMatches(rec: Record, c: Criteria, d: DateTime, cost: int, status: string)
    requires OrderDateTime(rec) == Ok(d) && TotalCost(rec) == Ok(cost)
    requires TextField(rec, "status") == Ok(status)
    ensures Selects(rec, c) == Ok(Matches(c, d, cost, status))
  {
  }

  /** Which field raises depends on how far the test gets: the date always, the cost
      only inside the date range, the status only inside both ranges and not for 'all'. */
  lemma SelectsRaises(rec: Record, c: Criteria)
    ensures Selects(rec, c).Err? <==>
      || OrderDateTime(rec).Err?
      || (InWindow(c, OrderDateTime(rec).value) && TotalCost(rec).Err?)
      || (&& InWindow(c, OrderDateTime(rec).value)
          && c.minCost <= TotalCost(rec).value <= c.maxCost
          && c.status != "all"
          && TextField(rec, "status").Err?)
  {
  }

  /** The verdict of one iteration: rejected orders are skipped; a kept order comes out
      with its status translated, its code unwrapped and every other field as it was; a
      kept order whose status cannot be a key or whose code is not a mapping holding
      `code` raises. */
  lemma FilterVerdict(rec: Record, c: Criteria)
    ensures FilterStep(rec, c) == Ok(None) <==> Selects(rec, c) == Ok(false)
    ensures FilterStep(rec, c).Ok? && FilterStep(rec, c).value.Some? <==>
      Selects(rec, c) == Ok(true) && TranslatedStatus(rec).Ok? && UnwrapCode(rec).Ok?
    ensures FilterStep(rec, c).Ok? && FilterStep(rec, c).value.Some? ==>
      var out := FilterStep(rec, c).value.value;
      && out.Keys == rec.Keys
      && out["status"] == TranslatedStatus(rec).value
      && out["code"] == rec["code"].fields["code"]
      && forall k :: k in rec && k != "status" && k != "code" ==> out[k] == rec[k]
  {
    if Selects(rec, c) == Ok(true) && TranslatedStatus(rec).Ok? {
      var relabelled := Relabel(rec).value;
      assert "code" in relabelled <==> "code" in rec;
      assert "code" in rec ==> relabelled["code"] == rec["code"];
    }
  }

  lemma StepOfIs(rec: Record, c: Criteria)
    ensures StepOf(c)(rec) == FilterStep(rec, c)
    ensures EffectOf(c)(rec) == FilterEffect(rec, c)
  {
  }

  /** The report rows are the kept orders, rewritten, in input order: an order-preserving
      subsequence holding exactly the orders the test selects. */
  lemma FilterKeepsExactly(rs: seq<Record>, c: Criteria)
    requires Collect(rs, StepOf(c)).Ok?
    ensures var out, idx := Collect(rs, StepOf(c)).value, KeptIndices(rs, StepOf(c));
      && |out| == |idx|
      && (forall i, i' :: 0 <= i < i' < |idx| ==> idx[i] < idx[i'])
      && (forall i :: 0 <= i < |idx| ==> idx[i] < |rs| && FilterStep(rs[idx[i]], c) == Ok(Some(out[i])))
      && (forall j :: 0 <= j < |rs| ==> (Selects(rs[j], c) == Ok(true) <==> j in idx))
  {
    CollectSubsequence(rs, StepOf(c));
    CollectOkIff(rs, StepOf(c));
    forall j | 0 <= j < |rs|
      ensures Selects(rs[j], c) == Ok(true) <==> Kept(StepOf(c), rs[j])
    {
      StepOfIs(rs[j], c);
      FilterVerdict(rs[j], c);
    }
    forall i | 0 <= i < |KeptIndices(rs, StepOf(c))| && KeptIndices(rs, StepOf(c))[i] < |rs| {
      StepOfIs(rs[KeptIndices(rs, StepOf(c))[i]], c);
    }
  }

  /** An order the test rejects is left exactly as it was. */
  lemma RejectedUntouched(rs: seq<Record>, c: Criteria, j: nat)
    requires j < |rs| && Selects(rs[j], c) == Ok(false)
    ensures Leave(rs, StepOf(c), EffectOf(c))[j] == rs[j]
  {
    LeaveAt(rs, StepOf(c), EffectOf(c), j);
    StepOfIs(rs[j], c);
  }

  /** A kept order is rewritten in the loaded list itself, the same way as in the report. */
  lemma KeptRewrittenInPlace(rs: seq<Record>, c: Criteria, j: nat)
    requires j < |rs| && Collect(rs[..j], StepOf(c)).Ok?
    requires FilterStep(rs[j], c).Ok? && FilterStep(rs[j], c).value.Some?
    ensures Leave(rs, StepOf(c), EffectOf(c))[j] == FilterStep(rs[j], c).value.value
  {
    LeaveAt(rs, StepOf(c), EffectOf(c), j);
    StepOfIs(rs[j], c);
  }

  /** A selected order without a usable promo code makes the whole report fail. */
  lemma MissingPromoAbortsReport(rs: seq<Record>, c: Criteria, j: nat)
    requires j < |rs| && Selects(rs[j], c) == Ok(true) && TranslatedStatus(rs[j]).Ok?
    requires UnwrapCode(rs[j]).Err?
    ensures Collect(rs, StepOf(c)).Err?
  {
    FilterVerdict(rs[j], c);
    StepOfIs(rs[j], c);
    CollectOkIff(rs, StepOf(c));
  }

  /** Lower-casing the request, or the order's status, changes nothing: only the
      lower-cased forms are compared. */
  lemma RequestCaseInvariant(start: DateTime, end: DateTime, minCost: int, maxCost: int, requested: string,
                             d: DateTime, cost: int, status: string)
    ensures Matches(RequestCriteria(start, end, minCost, maxCost, requested), d, cost, status) ==
            Matches(RequestCriteria(start, end, minCost, maxCost, Lower(requested)), d, cost, Lower(status))
  {
    LowerIdempotent(requested);
    LowerIdempotent(status);
  }

  /** 'ALL' switches the status test off: only the date and cost ranges decide. */
  lemma RequestAllSelects(start: DateTime, end: DateTime, minCost: int, maxCost: int,
                          d: DateTime, cost: int, status: string)
    ensures Matches(RequestCriteria(start, end, minCost, maxCost, "ALL"), d, cost, status) <==>
            NotAfter(start, d) && NotAfter(d, end) && minCost <= cost <= maxCost
  {
    LowerAll();
  }

  /** Two statuses that agree once lower-cased are treated alike by every criteria. */
  lemma StatusCaseInvariant(c: Criteria, d: DateTime, cost: int, status: string, status': string)
    requires Lower(status) == Lower(status')
    ensures Matches(c, d, cost, status) == Matches(c, d, cost, status')
  {
  }

  /** The request is lower-cased before it becomes criteria: 'ACCEPTED' and 'Accepted'
      ask for the same status, and 'ALL' becomes the 'all' that switches the status test off. */
  lemma RequestCaseExamples()
    ensures Lower("ACCEPTED") == "accepted" && Lower("Accepted") == "accepted"
    ensures Lower("ALL") == "all"
  {
    LowerCapitals();
    LowerTitle();
    LowerAll();
  }

  lemma LowerAll()
    ensures Lower("ALL") == "all"
  {
    LowerSpelling("ALL", "all");
  }

  lemma LowerCapitals()
    ensures Lower("ACCEPTED") == "accepted"
  {
    LowerSpelling("ACCEPTED", "accepted");
  }

  lemma LowerTitle()
    ensures Lower("Accepted") == "accepted"
  {
    LowerSpelling("Accepted", "accepted");
  }

  // ================================================================ report columns

  /** The seven source keys and their headers, spelled out. */
  lemma ReportColumnsEntry(k: string)
    requires k in ReportColumns
    ensures || (k == "user_full_name" && ReportColumns[k] == "Имя")
            || (k == "full_address" && ReportColumns[k] == "Адрес")
            || (k == "created_at" && ReportColumns[k] == "Дата")
            || (k == "order_number" && ReportColumns[k] == "Номер заказа")
            || (k == "status" && ReportColumns[k] == "Статус")
            || (k == "total_cost" && ReportColumns[k] == "Сумма")
            || (k == "code" && ReportColumns[k] == "Промокод")
  {
  }

  lemma ReportHeadersDiffer(a: string, b: string)
    requires a in ReportColumns && b in ReportColumns && a != b
    ensures ReportColumns[a] != ReportColumns[b]
  {
    ReportColumnsEntry(a);
    ReportColumnsEntry(b);
    var x, y := ReportColumns[a], ReportColumns[b];
    assert |x| != |y| || x[0] != y[0];
  }

  /** The rename map is injective and no header is itself a source key, so the report's
      columns stay distinct. */
  lemma ReportColumnsShape()
    ensures Injective(ReportColumns)
    ensures forall k :: k in ReportColumns ==> ReportColumns[k] !in ReportColumns
  {
    forall a, b | a in ReportColumns && b in ReportColumns && a != b
      ensures ReportColumns[a] != ReportColumns[b]
    {
      ReportHeadersDiffer(a, b);
    }
    forall k | k in ReportColumns
      ensures ReportColumns[k] !in ReportColumns
    {
      ReportColumnsEntry(k);
    }
  }

  /** The seven source columns, in the order of the rename map (api.py:70-78), get their headers. */
  lemma ReportHeaders()
    ensures RenameColumns(["user_full_name", "full_address", "created_at", "order_number", "status", "total_cost", "code"], ReportColumns)
      == ["Имя", "Адрес", "Дата", "Номер заказа", "Статус", "Сумма", "Промокод"]
  {
  }
}

