/** The standalone variant of the report pipeline: the normalizer keeps only the date
    of `created_at` and rewrites it to 'DD.MM.YY', the filter compares calendar dates,
    a cost range and the lower-cased translated status label, and the report has no
    promo-code column. */
module StandalonePipeline {
  import opened Outcomes
  import opened Text
  import opened Calendar
  import opened TimeFormat
  import opened Orders
  import opened Batch

  // ================================================================ normalizer

  /** `created_at.split('T')[0]`, parsed as '%Y-%m-%d': the text before the first 'T',
      or the whole string when it has none. */
  function SourceDate(createdAt: string): (r: Result<DateTime>)
    ensures r.Ok? ==> Valid(r.value)
    ensures r.Err? ==> r.error == MalformedTimestamp(Split(createdAt, 'T')[0])
  {
    Strptime(Split(createdAt, 'T')[0], IsoDate)
  }

  /** The display form the normalizer stores: '%d.%m.%y'. */
  function DisplayDate(createdAt: string): (r: Result<string>)
    ensures r.Ok? <==> SourceDate(createdAt).Ok?
    ensures r.Ok? ==> |r.value| == 8
  {
    var d :- SourceDate(createdAt);
    PatternWidths();
    Ok(Strftime(d, TimeFormat.DisplayDate))
  }

  /** One iteration of the normalizer: rewrite `created_at` to its date, then pop the
      opaque fields. */
  function NormalizeRecord(rec: Record): (r: Result<Record>)
    ensures r.Ok? <==> "created_at" in rec && rec["created_at"].Str? && DisplayDate(rec["created_at"].text).Ok?
    ensures r.Ok? ==> "created_at" in r.value && r.value["created_at"] == Str(DisplayDate(rec["created_at"].text).value)
    ensures r.Ok? ==> r.value.Keys == rec.Keys - OpaqueKeys
    ensures r.Ok? ==> forall k :: k in r.value && k != "created_at" ==> r.value[k] == rec[k]
  {
    match TextField(rec, "created_at")
    case Err(e) => Err(e)
    case Ok(createdAt) =>
      match DisplayDate(createdAt)
      case Err(e) => Err(e)
      case Ok(shown) => Ok(WithDisplayTimestamp(rec, shown))
  }

  /** The statements of one normalizer iteration on one order: cut the date, parse and
      format it, assign it, then pop the opaque fields. */
  method NormalizeOrder(order: Record) returns (outcome: Result<Record>)
    ensures outcome == NormalizeRecord(order)
  {
    var createdAt := TextField(order, "created_at");
    if createdAt.Err? {
      return Err(createdAt.error);
    }
    var dateIso := Split(createdAt.value, 'T')[0];
    var parsed := Strptime(dateIso, IsoDate);
    if parsed.Err? {
      return Err(parsed.error);
    }
    assert SourceDate(createdAt.value) == parsed;
    var shown := Strftime(parsed.value, TimeFormat.DisplayDate);
    var rewritten := order["created_at" := Str(shown)];
    rewritten := PopOpaque(rewritten);
    outcome := Ok(rewritten);
  }

  /** The loop of the normalizer over the fetched orders, rewriting them in place. On
      success the whole list is what gets saved; the first bad date aborts the batch. */
  method NormalizeOrders(orders: array<Record>) returns (saved: Result<seq<Record>>)
    modifies orders
    ensures saved == Collect(old(orders[..]), RewriteStep(NormalizeRecord))
    ensures orders[..] == Leave(old(orders[..]), RewriteStep(NormalizeRecord), RewriteEffect(NormalizeRecord))
    ensures saved.Ok? ==> saved.value == orders[..]
  {
    saved := RewriteInPlace(orders, NormalizeRecord);
  }

  // ================================================================ filter

  /** The criteria of one report request, as the prompts leave them: two calendar dates,
      two integer bounds and the lower-cased requested status. */
  datatype Criteria = Criteria(start: Date, end: Date, minCost: int, maxCost: int, status: string)

  /** `datetime.strptime(text, '%d.%m.%y').date()` */
  function ParseDisplayDate(text: string): (r: Result<Date>)
    ensures r.Ok? <==> Strptime(text, TimeFormat.DisplayDate).Ok?
    ensures r.Ok? ==> r.value == DateOf(Strptime(text, TimeFormat.DisplayDate).value) && ValidDate(r.value)
  {
    var dt :- Strptime(text, TimeFormat.DisplayDate);
    Ok(DateOf(dt))
  }

  /** The prompts in order: both dates must parse; the requested status is lower-cased. */
  function RequestCriteria(startText: string, endText: string, minCost: int, maxCost: int, requested: string): (r: Result<Criteria>)
    ensures r.Ok? <==> ParseDisplayDate(startText).Ok? && ParseDisplayDate(endText).Ok?
    ensures ParseDisplayDate(startText).Err? ==> r == Err(ParseDisplayDate(startText).error)
    ensures r.Ok? ==> r.value.start == ParseDisplayDate(startText).value && r.value.end == ParseDisplayDate(endText).value
    ensures r.Ok? ==> r.value.minCost == minCost && r.value.maxCost == maxCost && r.value.status == Lower(requested)
    ensures r.Ok? ==> Lower(r.value.status) == r.value.status
  {
    LowerIdempotent(requested);
    var start :- ParseDisplayDate(startText);
    var end :- ParseDisplayDate(endText);
    Ok(Criteria(start, end, minCost, maxCost, Lower(requested)))
  }

  /** `datetime.strptime(order['created_at'], '%d.%m.%y').date()` */
  function OrderDate(rec: Record): (r: Result<Date>)
    ensures r.Ok? ==> ValidDate(r.value)
  {
    var shown :- TextField(rec, "created_at");
    ParseDisplayDate(shown)
  }

  /** The three conditions of the filter on an order's parsed fields and its label. */
  predicate Matches(c: Criteria, d: Date, cost: int, shown: string) {
    && DateNotAfter(c.start, d) && DateNotAfter(d, c.end)
    && c.minCost <= cost <= c.maxCost
    && (Lower(shown) == c.status || c.status == "all")
  }

  /** Both ends of the date range are inclusive. */
  predicate InRange(c: Criteria, d: Date) {
    DateNotAfter(c.start, d) && DateNotAfter(d, c.end)
  }

  /** The filter's test, in the source's evaluation order: the status is translated
      first, for every order; the cost is read only inside the date range; the label is
      lower-cased before the 'all' test, so a status that is not text raises even then. */
  function Selects(rec: Record, c: Criteria): (r: Result<bool>)
    ensures r.Ok? ==> TranslatedStatus(rec).Ok?
    ensures TranslatedStatus(rec).Err? ==> r == Err(TranslatedStatus(rec).error)
    ensures r == Ok(true) ==> && OrderDate(rec).Ok? && InRange(c, OrderDate(rec).value) && TotalCost(rec).Ok?
                              && c.minCost <= TotalCost(rec).value <= c.maxCost
  {
    var shown :- TranslatedStatus(rec);
    var d :- OrderDate(rec);
    if !InRange(c, d) then Ok(false)
    else
      var cost :- TotalCost(rec);
      if !(c.minCost <= cost <= c.maxCost) then Ok(false)
      else if !shown.Str? then Err(TypeMismatch("status"))
      else Ok(Lower(shown.text) == c.status || c.status == "all")
  }

  /** A kept order with its status replaced by the translated one. */
  function Relabelled(rec: Record): (r: Record)
    requires TranslatedStatus(rec).Ok?
    ensures r.Keys == rec.Keys && r["status"] == TranslatedStatus(rec).value
    ensures forall k :: k in rec && k != "status" ==> r[k] == rec[k]
  {
    rec["status" := TranslatedStatus(rec).value]
  }

  /** One iteration of the filter loop. */
  function FilterStep(rec: Record, c: Criteria): (r: Result<Option<Record>>)
    ensures r == Ok(None) <==> Selects(rec, c) == Ok(false)
    ensures r.Ok? && r.value.Some? ==> Selects(rec, c) == Ok(true) && r.value.value.Keys == rec.Keys
  {
    var keep :- Selects(rec, c);
    if keep then Ok(Some(Relabelled(rec))) else Ok(None)
  }

  /** The order as one iteration leaves it: only kept orders are relabelled. */
  function FilterEffect(rec: Record, c: Criteria): (r: Record)
    ensures r.Keys == rec.Keys
    ensures forall k :: k in rec && k != "status" ==> r[k] == rec[k]
  {
    if Selects(rec, c) == Ok(true) then Relabelled(rec) else rec
  }

  function StepOf(c: Criteria): Step {
    rec => FilterStep(rec, c)
  }

  function EffectOf(c: Criteria): Effect {
    rec => FilterEffect(rec, c)
  }

  /** The body of the filter loop on the order at position i: translate its status,
      test it, and for a kept order assign the translated status in place. */
  method FilterAt(orders: array<Record>, i: nat, c: Criteria) returns (verdict: Result<Option<Record>>)
    requires i < orders.Length
    modifies orders
    ensures verdict == FilterStep(old(orders[i]), c)
    ensures orders[..] == old(orders[..])[i := FilterEffect(old(orders[i]), c)]
  {
    var order := orders[i];
    var orderStatus := TranslatedStatus(order);
    if orderStatus.Err? {
      return Err(orderStatus.error);
    }
    var keep := Selects(order, c);
    if keep.Err? {
      return Err(keep.error);
    }
    if keep.value {
      orders[i] := order["status" := orderStatus.value];
      verdict := Ok(Some(orders[i]));
    } else {
      verdict := Ok(None);
    }
  }

  lemma StepOfIs(rec: Record, c: Criteria)
    ensures StepOf(c)(rec) == FilterStep(rec, c)
    ensures EffectOf(c)(rec) == FilterEffect(rec, c)
  {
  }

  /** The filter loop over the loaded orders: builds the list of kept orders and
      assigns the translated status to each kept order in place, one iteration being
      what `FilterAt` does. */
  method FilterOrders(orders: array<Record>, c: Criteria) returns (filtered: Result<seq<Record>>)
    modifies orders
    ensures filtered == Collect(old(orders[..]), StepOf(c))
    ensures orders[..] == Leave(old(orders[..]), StepOf(c), EffectOf(c))
  {
    filtered := RunInPlace(orders, StepOf(c), EffectOf(c));
  }

  // ================================================================ normalizer properties

  /** Without a 'T' the whole string is parsed as the date. */
  lemma WholeStringWithoutT(createdAt: string)
    requires 'T' !in createdAt
    ensures SourceDate(createdAt) == Strptime(createdAt, IsoDate)
  {
    SplitWithoutSeparator(createdAt, 'T');
  }

  /** A date 'YYYY-MM-DD' followed by nothing or by 'T' and anything at all normalizes to
      'DD.MM.YY': whatever follows the first 'T' is dropped, so no time survives. */
  lemma NormalizesIsoDate(dt: DateTime, tail: string)
    requires Valid(dt)
    requires tail == [] || tail[0] == 'T'
    ensures DisplayDate(Strftime(dt, IsoDate) + tail) == Ok(Strftime(dt, TimeFormat.DisplayDate))
  {
    var date := Strftime(dt, IsoDate);
    StrftimeAvoids(dt, IsoDate, 'T');
    if tail == [] {
      assert date + tail == date;
      SplitWithoutSeparator(date, 'T');
    } else {
      assert date + tail == date + ['T'] + tail[1..];
      SplitAtFirst(date, tail[1..], 'T');
    }
    IsoDateRoundTrip(dt);
    PatternFields();
    StrftimeIgnoresTime(dt, TimeFormat.DisplayDate);
  }

  /** The filter reads the normalized date back as the original calendar date exactly
      when its year lies in the two-digit-year window 1969..2068. */
  lemma NormalizedDateReadsBack(rec: Record, dt: DateTime, tail: string)
    requires Valid(dt)
    requires tail == [] || tail[0] == 'T'
    requires "created_at" in rec && rec["created_at"] == Str(Strftime(dt, IsoDate) + tail)
    ensures NormalizeRecord(rec).Ok?
    ensures OrderDate(NormalizeRecord(rec).value) == Ok(DateOf(dt)) <==> 1969 <= dt.year <= 2068
  {
    NormalizesIsoDate(dt, tail);
    DisplayDateReadsBack(dt);
  }

  /** The batch is saved exactly when every order normalizes; it then holds every order,
      in input order, each rewritten, none with an opaque field. */
  lemma NormalizedBatch(rs: seq<Record>)
    ensures Collect(rs, RewriteStep(NormalizeRecord)).Ok? <==> forall j :: 0 <= j < |rs| ==> NormalizeRecord(rs[j]).Ok?
    ensures Collect(rs, RewriteStep(NormalizeRecord)).Ok? ==>
      var out := Collect(rs, RewriteStep(NormalizeRecord)).value;
      && |out| == |rs|
      && forall j :: 0 <= j < |rs| ==> out[j] == NormalizeRecord(rs[j]).value && out[j].Keys !! OpaqueKeys
  {
    RewriteBatch(rs, NormalizeRecord);
  }

  // ================================================================ filter properties

  /** A request date typed as 'DD.MM.YY' inside the pivot window names that date. */
  lemma RequestDateReadsBack(dt: DateTime)
    requires Valid(dt) && 1969 <= dt.year <= 2068
    ensures ParseDisplayDate(Strftime(dt, TimeFormat.DisplayDate)) == Ok(DateOf(dt))
  {
    DisplayDateReadsBack(dt);
  }

  /** On an order whose fields parse and whose translated status is text, the filter's
      verdict is exactly the three conditions, with inclusive bounds. */
  lemma SelectsMatches(rec: Record, c: Criteria, shown: string, d: Date, cost: int)
    requires TranslatedStatus(rec) == Ok(Str(shown))
    requires OrderDate(rec) == Ok(d) && TotalCost(rec) == Ok(cost)
    ensures Selects(rec, c) == Ok(Matches(c, d, cost, shown))
  {
  }

  /** Which step raises: the status lookup always, the date always, the cost only inside
      the date range, the `.lower()` of a status that is not text only inside both
      ranges, and then even for 'all'. */
  lemma SelectsRaises(rec: Record, c: Criteria)
    ensures Selects(rec, c).Err? <==>
      || TranslatedStatus(rec).Err?
      || OrderDate(rec).Err?
      || (InRange(c, OrderDate(rec).value) && TotalCost(rec).Err?)
      || (&& InRange(c, OrderDate(rec).value)
          && c.minCost <= TotalCost(rec).value <= c.maxCost
          && !TranslatedStatus(rec).value.Str?)
  {
  }

  /** What a selected order's status satisfies. */
  lemma SelectedStatus(rec: Record, c: Criteria)
    ensures Selects(rec, c) == Ok(true) ==>
      && TranslatedStatus(rec).Ok? && TranslatedStatus(rec).value.Str?
      && (Lower(TranslatedStatus(rec).value.text) == c.status || c.status == "all")
  {
  }

  /** A known token never equals the lower-cased label of any known token: labels are
      Cyrillic, tokens Latin. */
  lemma TokenMissesLabels(s: string, t: string)
    requires s in StatusLabels && t in StatusLabels
    ensures Lower(Translate(s)) != t
  {
    VocabularyAlphabets();
    var shown := StatusLabels[s];
    LowerAt(shown, 0);
  }

  /** Requesting a raw token such as 'succeeded' never selects an order that carries a
      known token: the comparison is on the translated label. */
  lemma RawTokenNeverSelected(rec: Record, c: Criteria)
    requires "status" in rec && rec["status"].Str? && rec["status"].text in StatusLabels
    requires c.status in StatusLabels
    ensures Selects(rec, c) != Ok(true)
  {
    SelectedStatus(rec, c);
    TokenMissesLabels(rec["status"].text, c.status);
    VocabularyEntry(c.status);
  }

  /** The verdict of one iteration: rejected orders are skipped; a kept order comes out
      with its status translated and every other field as it was. */
  lemma FilterVerdict(rec: Record, c: Criteria)
    ensures FilterStep(rec, c) == Ok(None) <==> Selects(rec, c) == Ok(false)
    ensures FilterStep(rec, c).Ok? && FilterStep(rec, c).value.Some? <==> Selects(rec, c) == Ok(true)
    ensures FilterStep(rec, c).Err? <==> Selects(rec, c).Err?
    ensures Selects(rec, c) == Ok(true) ==>
      var out := FilterStep(rec, c).value.value;
      && out.Keys == rec.Keys
      && out["status"] == TranslatedStatus(rec).value
      && forall k :: k in rec && k != "status" ==> out[k] == rec[k]
  {
  }

  /** A status outside the vocabulary is compared by its own lower-cased text and kept
      unchanged: a kept order carrying one is stored exactly as it was. */
  lemma UnknownStatusKeptAsIs(rec: Record, c: Criteria, d: Date, cost: int)
    requires "status" in rec && rec["status"].Str? && rec["status"].text !in StatusLabels
    requires OrderDate(rec) == Ok(d) && TotalCost(rec) == Ok(cost)
    ensures Selects(rec, c) == Ok(Matches(c, d, cost, rec["status"].text))
    ensures Selects(rec, c) == Ok(true) ==> FilterStep(rec, c) == Ok(Some(rec))
  {
    assert TranslatedStatus(rec) == Ok(rec["status"]);
    if Selects(rec, c) == Ok(true) {
      assert Relabelled(rec) == rec;
    }
  }

  /** The report rows are the kept orders, relabelled, in input order: an
      order-preserving subsequence holding exactly the orders the test selects. */
  lemma FilterKeepsExactly(rs: seq<Record>, c: Criteria)
    requires Collect(rs, StepOf(c)).Ok?
    ensures var out, idx := Collect(rs, StepOf(c)).value, KeptIndices(rs, StepOf(c));
      && |out| == |idx|
      && (forall i, i' :: 0 <= i < i' < |idx| ==> idx[i] < idx[i'])
      && (forall i :: 0 <= i < |idx| ==> idx[i] < |rs| && FilterStep(rs[idx[i]], c) == Ok(Some(out[i])))
      && (forall j :: 0 <= j < |rs| ==> (Selects(rs[j], c) == Ok(true) <==> j in idx))
  {
    CollectSubsequence(rs, StepOf(c));
    CollectOkIff(rs, StepOf(c));
    forall j | 0 <= j < |rs|
      ensures Selects(rs[j], c) == Ok(true) <==> Kept(StepOf(c), rs[j])
    {
      StepOfIs(rs[j], c);
      FilterVerdict(rs[j], c);
    }
    forall i | 0 <= i < |KeptIndices(rs, StepOf(c))| && KeptIndices(rs, StepOf(c))[i] < |rs| {
      StepOfIs(rs[KeptIndices(rs, StepOf(c))[i]], c);
    }
  }

  /** An order the test rejects, or that raises, is left exactly as it was. */
  lemma UnselectedUntouched(rs: seq<Record>, c: Criteria, j: nat)
    requires j < |rs| && Selects(rs[j], c) != Ok(true)
    ensures Leave(rs, StepOf(c), EffectOf(c))[j] == rs[j]
  {
    LeaveAt(rs, StepOf(c), EffectOf(c), j);
    StepOfIs(rs[j], c);
  }

  /** A kept order is relabelled in the loaded list itself, the same way as in the report. */
  lemma KeptRelabelledInPlace(rs: seq<Record>, c: Criteria, j: nat)
    requires j < |rs| && Collect(rs[..j], StepOf(c)).Ok?
    requires Selects(rs[j], c) == Ok(true)
    ensures Leave(rs, StepOf(c), EffectOf(c))[j] == FilterStep(rs[j], c).value.value
  {
    LeaveAt(rs, StepOf(c), EffectOf(c), j);
    StepOfIs(rs[j], c);
  }

  /** The first order whose test raises aborts the report with its error; the orders
      before it have been relabelled if kept, it and those after it are untouched. */
  lemma FilterAbortsAt(rs: seq<Record>, c: Criteria, k: nat)
    requires k < |rs|
    requires forall j :: 0 <= j < k ==> Selects(rs[j], c).Ok?
    requires Selects(rs[k], c).Err?
    ensures Collect(rs, StepOf(c)) == Err(Selects(rs[k], c).error)
    ensures forall j :: 0 <= j < |rs| ==>
      Leave(rs, StepOf(c), EffectOf(c))[j] == if j < k then FilterEffect(rs[j], c) else rs[j]
  {
    forall j | 0 <= j < |rs| {
      StepOfIs(rs[j], c);
    }
    AbortsAt(rs, StepOf(c), EffectOf(c), k);
  }

  // ================================================================ report columns

  /** The column headers of the report: there is no promo-code column. */
  const ReportColumns: map<string, string> := map[
    "user_full_name" := "Имя",
    "full_address" := "Адрес",
    "created_at" := "Дата",
    "order_number" := "Номер заказа",
    "status" := "Статус",
    "total_cost" := "Сумма"
  ]

  /** The six source keys and their headers, spelled out. */
  lemma ReportColumnsEntry(k: string)
    requires k in ReportColumns
    ensures || (k == "user_full_name" && ReportColumns[k] == "Имя")
            || (k == "full_address" && ReportColumns[k] == "Адрес")
            || (k == "created_at" && ReportColumns[k] == "Дата")
            || (k == "order_number" && ReportColumns[k] == "Номер заказа")
            || (k == "status" && ReportColumns[k] == "Статус")
            || (k == "total_cost" && ReportColumns[k] == "Сумма")
  {
  }

  lemma ReportHeadersDiffer(a: string, b: string)
    requires a in ReportColumns && b in ReportColumns && a != b
    ensures ReportColumns[a] != ReportColumns[b]
  {
    ReportColumnsEntry(a);
    ReportColumnsEntry(b);
    var x, y := ReportColumns[a], ReportColumns[b];
    assert |x| != |y| || x[0] != y[0];
  }

  /** The rename map is injective, no header is itself a source key, and `code` is not
      renamed. */
  lemma ReportColumnsShape()
    ensures Injective(ReportColumns)
    ensures forall k :: k in ReportColumns ==> ReportColumns[k] !in ReportColumns
    ensures "code" !in ReportColumns && "Промокод" !in ReportColumns.Values
  {
    forall a, b | a in ReportColumns && b in ReportColumns && a != b
      ensures ReportColumns[a] != ReportColumns[b]
    {
      ReportHeadersDiffer(a, b);
    }
    forall k | k in ReportColumns
      ensures ReportColumns[k] !in ReportColumns
    {
      ReportColumnsEntry(k);
    }
    if "Промокод" in ReportColumns.Values {
      var k :| k in ReportColumns && ReportColumns[k] == "Промокод";
      ReportColumnsEntry(k);
    }
  }

  /** The six source columns get their headers; a `code` column keeps its own name. */
  lemma ReportHeaders()
    ensures RenameColumns(["user_full_name", "full_address", "created_at", "order_number", "status", "total_cost", "code"], ReportColumns)
      == ["Имя", "Адрес", "Дата", "Номер заказа", "Статус", "Сумма", "code"]
  {
  }
}
