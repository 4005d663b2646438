/**
 The normalization of a query, which the gateway applies before and after rewriting it: what a second
 pass changes.
 */
module NormalizeQuery {
  import opened Wrappers
  import opened Strings

  datatype Value = NullValue | TextValue(s: string) | OtherValue(shown: string)

  datatype Filters = Absent | Listed(list: seq<Filter>)

  /** A filter object with the properties normalization looks at. */
  datatype Filter = Filter(
    or: Filters,
    and: Filters,
    dimension: Option<string>,
    member: Option<string>,
    operator: Option<string>,
    values: Option<seq<Value>>)

  datatype DateRange = Named(text: string) | Dates(dates: seq<string>)

  datatype TimeDimension = TimeDimension(
    dimension: string,
    granularity: Option<string>,
    dateRange: Option<DateRange>,
    compare: Option<seq<DateRange>>)

  type Pair = (string, string)

  /** The order of a query: an object, as its entries in key order, or a list of pairs. */
  datatype Order = ByObject(entries: seq<Pair>) | ByList(pairs: seq<Pair>)

  /** A missing list of measures, dimensions, filters or time dimensions is an empty one. */
  datatype Query = Query(
    measures: seq<string>,
    filters: seq<Filter>,
    dimensions: seq<string>,
    timeDimensions: seq<TimeDimension>,
    order: Option<Order>,
    limit: Option<int>,
    timezone: Option<string>,
    renewQuery: Option<bool>,
    cache: Option<string>,
    cacheMode: Option<string>)

  datatype Result<+T> = Ok(value: T) | Rejected

  /**
   The date library: `iso` is `moment.utc(d)` formatted to the millisecond, `isDate` says whether a day exists,
   and `parse` is the natural-language parser, which may throw.
   */
  datatype Moment = Moment(iso: string -> string, isDate: string -> bool, parse: (string, string) -> Option<Pair>)

  /** The environment and the two arguments that do not change between the passes. */
  datatype Context = Context(
    moment: Moment,
    defaultTimezone: string,
    defaultLimit: int,
    maxLimit: int,
    persistent: bool,
    cacheMode: Option<string>)

  const OPERATORS: set<string> := {
    "equals", "notEquals", "contains", "notContains", "startsWith", "notStartsWith", "endsWith", "notEndsWith",
    "in", "notIn", "gt", "gte", "lt", "lte", "set", "notSet", "inDateRange", "notInDateRange", "onTheDate",
    "beforeDate", "beforeOrOnDate", "afterDate", "afterOrOnDate", "measureFilter"
  }

  const WITHOUT_VALUES: set<string> := {"set", "notSet", "measureFilter"}

  const CACHE_MODES: set<string> := {"stale-if-slow", "stale-while-revalidate", "must-revalidate", "no-cache"}

  const STALE_IF_SLOW := "stale-if-slow"

  predicate Filled(s: Option<string>) {
    s.Some? && s.value != ""
  }

  // ---- the schema a query is validated against ----

  predicate IsWordChar(c: char) {
    'a' <= c <= 'z' || 'A' <= c <= 'Z' || '0' <= c <= '9' || c == '_'
  }

  predicate IsWord(s: string) {
    s != "" && forall c | c in s :: IsWordChar(c)
  }

  function Parts(d: string): seq<string> {
    Split(d, '.')
  }

  /** `d` is between `least` and `most` words joined by dots. */
  predicate IsPath(d: string, least: nat, most: nat) {
    least <= |Parts(d)| <= most && forall i | 0 <= i < |Parts(d)| :: IsWord(Parts(d)[i])
  }

  predicate IsId(d: string) {
    IsPath(d, 2, 2)
  }

  function Utf8Length(s: string): nat {
    if s == "" then 0
    else
      (if s[0] < '\U{0080}' then 1 else if s[0] < '\U{0800}' then 2 else if s[0] < '\U{10000}' then 3 else 4)
      + Utf8Length(s[1..])
  }

  predicate ValidFilter(f: Filter)
    decreases f, 0
  {
    match (f.or, f.and)
    case (Listed(list), Absent) => Bare(f) && ValidFilters(list)
    case (Absent, Listed(list)) => Bare(f) && ValidFilters(list)
    case (Absent, Absent) =>
      && f.dimension.Some? != f.member.Some?
      && (f.dimension.Some? ==> IsId(f.dimension.value))
      && (f.member.Some? ==> IsId(f.member.value))
      && f.operator.Some? && f.operator.value in OPERATORS
    case (Listed(_), Listed(_)) => false
  }

  predicate Bare(f: Filter) {
    f.dimension.None? && f.member.None? && f.operator.None? && f.values.None?
  }

  predicate ValidFilters(fs: seq<Filter>)
    decreases fs, 1
  {
    fs == [] || (ValidFilter(fs[0]) && ValidFilters(fs[1..]))
  }

  const MAX_GRANULARITY := 128

  predicate ValidTime(td: TimeDimension) {
    && IsId(td.dimension)
    && (td.granularity.Some? ==> td.granularity.value != "" && Utf8Length(td.granularity.value) <= MAX_GRANULARITY)
    && (td.dateRange.None? || td.compare.None?)
    && (td.dateRange.Some? ==> ValidRange(td.dateRange.value))
  }

  predicate ValidRange(r: DateRange) {
    match r
    case Named(text) => text != ""
    case Dates(ds) => 1 <= |ds| <= 2 && "" !in ds
  }

  function Pairs(o: Order): seq<Pair> {
    if o.ByObject? then o.entries else o.pairs
  }

  predicate ValidOrder(o: Order) {
    forall p | p in Pairs(o) :: IsPath(p.0, 1, 3) && p.1 in {"asc", "desc"}
  }

  predicate Valid(q: Query) {
    && (forall m | m in q.measures :: IsId(m))
    && (forall d | d in q.dimensions :: IsPath(d, 2, 3))
    && ValidFilters(q.filters)
    && (forall td | td in q.timeDimensions :: ValidTime(td))
    && (q.order.Some? ==> ValidOrder(q.order.value))
    && (q.timezone.Some? ==> q.timezone.value != "")
    && (q.limit.Some? ==> q.limit.value >= 0)
    && (q.cacheMode.Some? ==> q.cacheMode.value in CACHE_MODES)
  }

  predicate Granular(td: TimeDimension) {
    Filled(td.granularity)
  }

  /** The query asks for a measure, a dimension or a time dimension with a granularity. */
  predicate AsksForSomething(q: Query) {
    q.measures != [] || q.dimensions != [] || exists td | td in q.timeDimensions :: Granular(td)
  }

  // ---- filters ----

  /** `v != null ? v.toString() : v`. */
  function Shown(v: Value): Value {
    if v.OtherValue? then TextValue(v.shown) else v
  }

  function ShownAll(vs: seq<Value>): (r: seq<Value>)
    ensures |r| == |vs|
  {
    seq(|vs|, i requires 0 <= i < |vs| => Shown(vs[i]))
  }

  function NormalizeFilter(f: Filter): Result<Filter>
    decreases f, 0
  {
    if f.or.Listed? then
      match NormalizeFilters(f.or.list)
      case Ok(fs) => Ok(f.(or := Listed(fs)))
      case Rejected => Rejected
    else if f.and.Listed? then
      match NormalizeFilters(f.and.list)
      case Ok(fs) => Ok(f.(and := Listed(fs)))
      case Rejected => Rejected
    else if !Filled(f.operator) || f.operator.value !in OPERATORS then Rejected
    else if (f.values.None? || f.values.value == []) && f.operator.value !in WITHOUT_VALUES then Rejected
    else
      var g := if f.values.Some? then f.(values := Some(ShownAll(f.values.value))) else f;
      Ok(if Filled(g.dimension) then g.(member := g.dimension, dimension := None) else g)
  }

  function NormalizeFilters(fs: seq<Filter>): (r: Result<seq<Filter>>)
    ensures r.Ok? ==> |r.value| == |fs|
    decreases fs, 1
  {
    if fs == [] then Ok([])
    else
      match (NormalizeFilter(fs[0]), NormalizeFilters(fs[1..]))
      case (Ok(f), Ok(rest)) => Ok([f] + rest)
      case _ => Rejected
  }

  lemma {:induction false} FilterIsFixed(f: Filter)
    ensures match NormalizeFilter(f) case Ok(g) => NormalizeFilter(g) == Ok(g) case Rejected => true
    ensures ValidFilter(f) && NormalizeFilter(f).Ok? ==> ValidFilter(NormalizeFilter(f).value)
    decreases f, 0
  {
    if f.or.Listed? {
      FiltersAreFixed(f.or.list);
    } else if f.and.Listed? {
      FiltersAreFixed(f.and.list);
    } else if NormalizeFilter(f).Ok? && f.values.Some? {
      var once := ShownAll(f.values.value);
      assert ShownAll(once) == once;
    }
  }

  /** Filters that were accepted once are accepted again and come out the same. */
  lemma {:induction false} FiltersAreFixed(fs: seq<Filter>)
    ensures match NormalizeFilters(fs) case Ok(gs) => NormalizeFilters(gs) == Ok(gs) case Rejected => true
    ensures ValidFilters(fs) && NormalizeFilters(fs).Ok? ==> ValidFilters(NormalizeFilters(fs).value)
    decreases fs, 1
  {
    if fs != [] {
      FilterIsFixed(fs[0]);
      FiltersAreFixed(fs[1..]);
      if NormalizeFilters(fs).Ok? {
        var gs := NormalizeFilters(fs).value;
        assert gs[1..] == NormalizeFilters(fs[1..]).value;
      }
    }
  }

  // ---- dimensions that are time dimensions ----

  /** `Cube.member.granularity` among the dimensions. */
  predicate IsTimeDimension(d: string) {
    |Parts(d)| == 3
  }

  function Regular(ds: seq<string>): seq<string> {
    if ds == [] then []
    else (if IsTimeDimension(ds[0]) then [] else [ds[0]]) + Regular(ds[1..])
  }

  function AsTime(d: string): TimeDimension
    requires IsTimeDimension(d)
  {
    TimeDimension(Join(Parts(d)[..2], "."), Some(Parts(d)[2]), None, None)
  }

  function Moved(ds: seq<string>): seq<TimeDimension> {
    if ds == [] then []
    else (if IsTimeDimension(ds[0]) then [AsTime(ds[0])] else []) + Moved(ds[1..])
  }

  lemma {:induction false} RegularAre(ds: seq<string>)
    ensures forall d :: d in Regular(ds) <==> d in ds && !IsTimeDimension(d)
  {
    if ds != [] {
      RegularAre(ds[1..]);
    }
  }

  lemma {:induction false} MovedAre(ds: seq<string>)
    ensures forall td | td in Moved(ds) :: exists d :: d in ds && IsTimeDimension(d) && td == AsTime(d)
    ensures forall d | d in ds && IsTimeDimension(d) :: AsTime(d) in Moved(ds)
  {
    if ds != [] {
      MovedAre(ds[1..]);
    }
  }

  /** With no time dimension among them, the dimensions stay as they are. */
  lemma {:induction false} AllRegular(ds: seq<string>)
    requires forall d | d in ds :: !IsTimeDimension(d)
    ensures Regular(ds) == ds && Moved(ds) == []
  {
    if ds != [] {
      AllRegular(ds[1..]);
    }
  }

  lemma {:induction false} WordsAreAscii(s: string)
    requires forall c | c in s :: IsWordChar(c)
    ensures Utf8Length(s) == |s|
  {
    if s != "" {
      assert IsWordChar(s[0]);
      WordsAreAscii(s[1..]);
    }
  }

  /** A moved dimension is valid exactly when its granularity is not too long. */
  lemma MovedIsValid(d: string)
    requires IsTimeDimension(d) && IsPath(d, 2, 3)
    ensures ValidTime(AsTime(d)) <==> |Parts(d)[2]| <= MAX_GRANULARITY
    ensures Granular(AsTime(d))
  {
    var p := Parts(d);
    assert IsWord(p[0]) && IsWord(p[1]) && IsWord(p[2]);
    var name := p[0] + ['.'] + p[1];
    assert p[..2] == [p[0], p[1]] && [p[0], p[1]][1..] == [p[1]];
    assert Join([p[0], p[1]], ".") == p[0] + "." + Join([p[1]], ".");
    assert AsTime(d).dimension == name;
    SplitPieces(d, '.');
    SplitLine(p[0], '.', p[1]);
    SplitWithoutSeparator(p[1], '.');
    assert Parts(name) == [p[0], p[1]];
    WordsAreAscii(p[2]);
  }

  // ---- date ranges ----

  predicate IsDay(d: string) {
    |d| == 10 && d[4] == '-' && d[7] == '-'
    && forall i | 0 <= i < 10 && i != 4 && i != 7 :: '0' <= d[i] <= '9'
  }

  const INVALID := "Invalid date"
  const DAY_START := "T00:00:00.000"
  const DAY_END := "T23:59:59.999"

  /** A day is completed to its first or last millisecond; any other date is formatted. */
  function Formatted(m: Moment, d: string, time: string): string {
    if IsDay(d) then if m.isDate(d) then d + time else INVALID else m.iso(d)
  }

  /** A full date reads back as itself and is not a bare day; so does the text of an invalid date. */
  ghost predicate Lawful(m: Moment) {
    && (forall d :: !IsDay(m.iso(d)) && m.iso(d) != "" && m.iso(m.iso(d)) == m.iso(d))
    && m.iso(INVALID) == INVALID
    && (forall d | IsDay(d) && m.isDate(d) ::
          m.iso(d + DAY_START) == d + DAY_START && m.iso(d + DAY_END) == d + DAY_END)
  }

  function Parse(c: Context, tz: string, r: DateRange): Result<DateRange> {
    if r.Dates? then Ok(r)
    else
      match c.moment.parse(tz, r.text)
      case None => Rejected
      case Some(p) => Ok(Dates([p.0, p.1]))
  }

  function FormatDates(m: Moment, ds: seq<string>): (r: seq<string>)
    ensures |r| == |ds|
  {
    seq(|ds|, i requires 0 <= i < |ds| => Formatted(m, ds[i], if i == 0 then DAY_START else DAY_END))
  }

  function NormalizeRange(c: Context, tz: string, r: DateRange): Result<DateRange> {
    match Parse(c, tz, r)
    case Rejected => Rejected
    case Ok(p) =>
      if p.Named? then Rejected
      else Ok(Dates(FormatDates(c.moment, if |p.dates| == 1 then [p.dates[0], p.dates[0]] else p.dates)))
  }

  lemma RangeIsFixed(c: Context, tz: string, r: DateRange)
    requires Lawful(c.moment) && ValidRange(r)
    ensures match NormalizeRange(c, tz, r)
            case Ok(n) => NormalizeRange(c, tz, n) == Ok(n) && ValidRange(n)
            case Rejected => true
  {
    if NormalizeRange(c, tz, r).Ok? {
      var n := NormalizeRange(c, tz, r).value;
      var ds := Parse(c, tz, r).value.dates;
      var was := if |ds| == 1 then [ds[0], ds[0]] else ds;
      assert n.dates == FormatDates(c.moment, was) && |was| == 2;
      assert FormatDates(c.moment, n.dates) == n.dates;
    }
  }

  function ParseAll(c: Context, tz: string, rs: seq<DateRange>): Result<seq<DateRange>> {
    if rs == [] then Ok([])
    else
      match (Parse(c, tz, rs[0]), ParseAll(c, tz, rs[1..]))
      case (Ok(r), Ok(rest)) => Ok([r] + rest)
      case _ => Rejected
  }

  lemma {:induction false} ParsedIsFixed(c: Context, tz: string, rs: seq<DateRange>)
    ensures match ParseAll(c, tz, rs) case Ok(ps) => ParseAll(c, tz, ps) == Ok(ps) case Rejected => true
  {
    if rs != [] {
      ParsedIsFixed(c, tz, rs[1..]);
      if ParseAll(c, tz, rs).Ok? {
        assert ParseAll(c, tz, rs).value[1..] == ParseAll(c, tz, rs[1..]).value;
      }
    }
  }

  function NormalizeTime(c: Context, tz: string, td: TimeDimension): Result<TimeDimension> {
    var compare := if td.compare.Some? then ParseAll(c, tz, td.compare.value) else Ok([]);
    var range := if td.dateRange.Some? then NormalizeRange(c, tz, td.dateRange.value) else Ok(Dates([]));
    if compare.Rejected? || range.Rejected? then Rejected
    else
      Ok(td.(dateRange := if td.dateRange.Some? then Some(range.value) else None,
             compare := if td.compare.Some? then Some(compare.value) else None))
  }

  function NormalizeTimes(c: Context, tz: string, tds: seq<TimeDimension>): Result<seq<TimeDimension>> {
    if tds == [] then Ok([])
    else
      match (NormalizeTime(c, tz, tds[0]), NormalizeTimes(c, tz, tds[1..]))
      case (Ok(td), Ok(rest)) => Ok([td] + rest)
      case _ => Rejected
  }

  lemma TimeIsFixed(c: Context, tz: string, td: TimeDimension)
    requires Lawful(c.moment) && ValidTime(td)
    ensures match NormalizeTime(c, tz, td)
            case Ok(n) => NormalizeTime(c, tz, n) == Ok(n) && ValidTime(n) && n.granularity == td.granularity
            case Rejected => true
  {
    if td.dateRange.Some? {
      RangeIsFixed(c, tz, td.dateRange.value);
    }
    if td.compare.Some? {
      ParsedIsFixed(c, tz, td.compare.value);
    }
  }

  ghost predicate Fixed(c: Context, tz: string, tds: seq<TimeDimension>) {
    forall td | td in tds :: NormalizeTime(c, tz, td) == Ok(td)
  }

  lemma {:induction false} FixedTimes(c: Context, tz: string, tds: seq<TimeDimension>)
    requires Fixed(c, tz, tds)
    ensures NormalizeTimes(c, tz, tds) == Ok(tds)
  {
    if tds != [] {
      assert tds[0] in tds;
      FixedTimes(c, tz, tds[1..]);
      assert [tds[0]] + tds[1..] == tds;
    }
  }

  lemma {:induction false} TimesAreFixed(c: Context, tz: string, tds: seq<TimeDimension>)
    requires Lawful(c.moment) && (forall td | td in tds :: ValidTime(td))
    ensures match NormalizeTimes(c, tz, tds)
            case Ok(ns) =>
              && Fixed(c, tz, ns)
              && (forall n | n in ns :: ValidTime(n))
              && ((exists td | td in tds :: Granular(td)) ==> exists n | n in ns :: Granular(n))
            case Rejected => true
  {
    if tds != [] {
      TimeIsFixed(c, tz, tds[0]);
      TimesAreFixed(c, tz, tds[1..]);
      if NormalizeTimes(c, tz, tds).Ok? {
        var n, rest := NormalizeTime(c, tz, tds[0]).value, NormalizeTimes(c, tz, tds[1..]).value;
        assert n in [n] + rest && forall x | x in rest :: x in [n] + rest;
        if td :| td in tds && Granular(td) {
          assert td == tds[0] || td in tds[1..];
        }
      }
    }
  }

  // ---- the query ----

  function DefaultLimit(c: Context): int {
    if c.defaultLimit <= c.maxLimit then c.defaultLimit else c.maxLimit
  }

  function NormalizeLimit(c: Context, limit: Option<int>): Result<Option<int>> {
    if c.persistent then Ok(limit)
    else if limit.Some? then if limit.value > c.maxLimit then Rejected else Ok(limit)
    else Ok(Some(DefaultLimit(c)))
  }

  /** The cache mode of a request: the argument, or what the deprecated and the current property of the query say. */
  function CacheMode(c: Context, q: Query): string {
    if c.cacheMode.Some? then c.cacheMode.value
    else if !Filled(q.cache) && q.renewQuery.Some? then if q.renewQuery.value then "must-revalidate" else STALE_IF_SLOW
    else if !Filled(q.cache) then STALE_IF_SLOW
    else q.cache.value
  }

  /** The query with the properties that are assigned before it is validated. */
  function Prepared(c: Context, q: Query): Query {
    q.(cacheMode := Some(CacheMode(c, q)),
       renewQuery := None,
       cache := None,
       timezone := Some(if Filled(q.timezone) then q.timezone.value else c.defaultTimezone))
  }

  function Normalize(c: Context, q: Query): Result<Query> {
    var p := Prepared(c, q);
    if !Valid(p) || !AsksForSomething(p) then Rejected
    else
      match (NormalizeLimit(c, p.limit), NormalizeFilters(p.filters),
          NormalizeTimes(c, p.timezone.value, p.timeDimensions))
      case (Ok(limit), Ok(filters), Ok(times)) =>
        Ok(p.(order := if p.order.Some? then Some(ByList(Pairs(p.order.value))) else None,
              limit := limit,
              filters := filters,
              dimensions := Regular(p.dimensions),
              timeDimensions := times + Moved(p.dimensions)))
      case _ => Rejected
  }

  /** A dimension's granularity is not longer than a time dimension's may be. */
  predicate ShortGranularities(q: Query) {
    forall d | d in q.dimensions && IsTimeDimension(d) :: |Parts(d)[2]| <= MAX_GRANULARITY
  }

  /** A limit is there, or the one that is filled in is not negative. */
  predicate LimitIsUsable(c: Context, q: Query) {
    c.persistent || q.limit.Some? || DefaultLimit(c) >= 0
  }

  lemma TimesOfResult(c: Context, q: Query)
    requires Lawful(c.moment) && Normalize(c, q).Ok?
    ensures var r := Normalize(c, q).value;
      && NormalizeTimes(c, r.timezone.value, r.timeDimensions) == Ok(r.timeDimensions)
      && ((forall td | td in r.timeDimensions :: ValidTime(td)) <==> ShortGranularities(q))
      && AsksForSomething(r)
  {
    var r := Normalize(c, q).value;
    var tz := r.timezone.value;
    var times := NormalizeTimes(c, tz, q.timeDimensions).value;
    TimesAreFixed(c, tz, q.timeDimensions);
    MovedAre(q.dimensions);
    RegularAre(q.dimensions);
    forall d | d in q.dimensions && IsTimeDimension(d)
      ensures ValidTime(AsTime(d)) <==> |Parts(d)[2]| <= MAX_GRANULARITY
      ensures Granular(AsTime(d)) && AsTime(d) in r.timeDimensions
    {
      MovedIsValid(d);
    }
    FixedTimes(c, tz, r.timeDimensions);
    if q.measures == [] {
      if q.dimensions == [] {
        var n :| n in times && Granular(n);
        assert n in r.timeDimensions;
      } else if IsTimeDimension(q.dimensions[0]) {
        assert AsTime(q.dimensions[0]) in r.timeDimensions;
      } else {
        assert q.dimensions[0] in Regular(q.dimensions);
      }
    }
  }

  /** Everything but the time dimensions and the limit stays valid. */
  lemma ValidAgain(c: Context, q: Query)
    requires Lawful(c.moment) && Normalize(c, q).Ok?
    ensures Valid(Prepared(c, Normalize(c, q).value)) <==> ShortGranularities(q) && LimitIsUsable(c, q)
  {
    FiltersAreFixed(q.filters);
    RegularAre(q.dimensions);
    TimesOfResult(c, q);
    var r := Normalize(c, q).value;
    assert r.order.Some? ==> Pairs(r.order.value) == Pairs(q.order.value);
  }

  lemma DimensionsAgain(c: Context, q: Query)
    requires Normalize(c, q).Ok?
    ensures var r := Normalize(c, q).value;
      Regular(r.dimensions) == r.dimensions && r.timeDimensions + Moved(r.dimensions) == r.timeDimensions
  {
    RegularAre(q.dimensions);
    AllRegular(Normalize(c, q).value.dimensions);
  }

  /**
   What a second pass does to an accepted query: it rejects it exactly when a granularity is too long or no usable
   limit could be filled in; otherwise filters, dimensions, time dimensions, order, limit and time zone stay, and
   only a cache mode that did not come as an argument falls back to the default.
   */
  lemma SecondPass(c: Context, q: Query)
    requires Lawful(c.moment) && Normalize(c, q).Ok?
    ensures var r := Normalize(c, q).value;
      Normalize(c, r) ==
        if ShortGranularities(q) && LimitIsUsable(c, q)
        then Ok(if c.cacheMode.Some? then r else r.(cacheMode := Some(STALE_IF_SLOW)))
        else Rejected
  {
    var r := Normalize(c, q).value;
    ValidAgain(c, q);
    FiltersAreFixed(q.filters);
    TimesOfResult(c, q);
    DimensionsAgain(c, q);
    var p := Prepared(c, r);
    assert p == r.(cacheMode := p.cacheMode);
    assert AsksForSomething(p) by {
      assert p.timeDimensions == r.timeDimensions;
    }
  }

  /** Normalization is idempotent on a query if and only if the second pass accepts it and its cache mode is kept. */
  lemma IdempotentIff(c: Context, q: Query)
    requires Lawful(c.moment) && Normalize(c, q).Ok?
    ensures Normalize(c, Normalize(c, q).value) == Normalize(c, q)
       <==> ShortGranularities(q) && LimitIsUsable(c, q) && (c.cacheMode.Some? || CacheMode(c, q) == STALE_IF_SLOW)
  {
    SecondPass(c, q);
  }

  /** A request that asks for fresh data by the deprecated property loses that on the second pass. */
  lemma RenewQueryIsForgotten(c: Context, q: Query)
    requires Lawful(c.moment) && Normalize(c, q).Ok? && ShortGranularities(q) && LimitIsUsable(c, q)
    requires c.cacheMode.None? && !Filled(q.cache) && q.renewQuery == Some(true)
    ensures Normalize(c, q).value.cacheMode == Some("must-revalidate")
    ensures Normalize(c, Normalize(c, q).value) == Ok(Normalize(c, q).value.(cacheMode := Some(STALE_IF_SLOW)))
  {
    SecondPass(c, q);
  }

  // ---- what the first pass does ----

  /** A range of two days goes from the first millisecond of the one to the last of the other. */
  lemma RangeOfDays(c: Context, tz: string, from: string, to: string)
    requires IsDay(from) && c.moment.isDate(from) && IsDay(to) && c.moment.isDate(to)
    ensures NormalizeRange(c, tz, Dates([from, to])) == Ok(Dates([from + "T00:00:00.000", to + "T23:59:59.999"]))
    ensures NormalizeRange(c, tz, Dates([from])) == Ok(Dates([from + "T00:00:00.000", from + "T23:59:59.999"]))
  {
    assert FormatDates(c.moment, [from, to]) == [from + "T00:00:00.000", to + "T23:59:59.999"];
    assert FormatDates(c.moment, [from, from]) == [from + "T00:00:00.000", from + "T23:59:59.999"];
  }

  /** Other dates are formatted, and a day that does not exist is an invalid date. */
  lemma RangeOfInstants(c: Context, tz: string, from: string, to: string)
    requires !IsDay(from) && IsDay(to) && !c.moment.isDate(to)
    ensures NormalizeRange(c, tz, Dates([from, to])) == Ok(Dates([c.moment.iso(from), "Invalid date"]))
    ensures NormalizeRange(c, tz, Dates([from])) == Ok(Dates([c.moment.iso(from), c.moment.iso(from)]))
  {
    assert FormatDates(c.moment, [from, to]) == [c.moment.iso(from), "Invalid date"];
    assert FormatDates(c.moment, [from, from]) == [c.moment.iso(from), c.moment.iso(from)];
  }

  /** A range in words is what the parser makes of it, in the time zone of the query. */
  lemma RangeInWords(c: Context, tz: string, text: string)
    ensures match c.moment.parse(tz, text)
            case None => NormalizeRange(c, tz, Named(text)) == Rejected
            case Some(p) => NormalizeRange(c, tz, Named(text)) == NormalizeRange(c, tz, Dates([p.0, p.1]))
  {
  }

  lemma DaysAre()
    ensures IsDay("2024-01-31") && !IsDay("2024-01-31T00:00:00.000") && !IsDay("2024-1-31")
  {
    assert |"2024-01-31"| == 10 && |"2024-01-31T00:00:00.000"| == 23 && |"2024-1-31"| == 9;
  }

  /** A list of ranges to compare: words are parsed, dates stay, and one text that is not understood rejects it. */
  lemma {:induction false} CompareIs(c: Context, tz: string, rs: seq<DateRange>)
    ensures ParseAll(c, tz, rs).Ok? <==>
            forall i | 0 <= i < |rs| :: rs[i].Named? ==> c.moment.parse(tz, rs[i].text).Some?
    ensures ParseAll(c, tz, rs).Ok? ==>
              var ps := ParseAll(c, tz, rs).value;
              |ps| == |rs| && forall i | 0 <= i < |rs| ::
                ps[i] == if rs[i].Dates? then rs[i]
                         else var p := c.moment.parse(tz, rs[i].text).value; Dates([p.0, p.1])
  {
    if rs != [] {
      CompareIs(c, tz, rs[1..]);
      assert rs == [rs[0]] + rs[1..];
    }
  }

  /** Time dimensions are normalized one by one, at their places; only their ranges change. */
  lemma {:induction false} TimesAre(c: Context, tz: string, tds: seq<TimeDimension>)
    ensures NormalizeTimes(c, tz, tds).Ok? <==> forall i | 0 <= i < |tds| :: NormalizeTime(c, tz, tds[i]).Ok?
    ensures NormalizeTimes(c, tz, tds).Ok? ==>
              var ts := NormalizeTimes(c, tz, tds).value;
              |ts| == |tds| && forall i | 0 <= i < |tds| :: NormalizeTime(c, tz, tds[i]) == Ok(ts[i])
  {
    if tds != [] {
      TimesAre(c, tz, tds[1..]);
      assert tds == [tds[0]] + tds[1..];
    }
  }

  /** What becomes of one of them. */
  lemma TimeIs(c: Context, tz: string, td: TimeDimension)
    ensures NormalizeTime(c, tz, td).Ok? <==>
            && (td.dateRange.Some? ==> NormalizeRange(c, tz, td.dateRange.value).Ok?)
            && (td.compare.Some? ==> ParseAll(c, tz, td.compare.value).Ok?)
    ensures NormalizeTime(c, tz, td).Ok? ==>
              var t := NormalizeTime(c, tz, td).value;
              && t.dimension == td.dimension && t.granularity == td.granularity
              && (t.dateRange.Some? <==> td.dateRange.Some?) && (t.compare.Some? <==> td.compare.Some?)
              && (td.dateRange.Some? ==> NormalizeRange(c, tz, td.dateRange.value) == Ok(t.dateRange.value))
              && (td.compare.Some? ==> ParseAll(c, tz, td.compare.value) == Ok(t.compare.value))
  {
  }

  /** When a query is rejected. */
  lemma RejectedIff(c: Context, q: Query)
    ensures var tz := if q.timezone.Some? && q.timezone.value != "" then q.timezone.value else c.defaultTimezone;
            Normalize(c, q).Rejected? <==>
              || !Valid(Prepared(c, q))
              || (q.measures == [] && q.dimensions == [] &&
                  forall td | td in q.timeDimensions :: td.granularity.None? || td.granularity.value == "")
              || (!c.persistent && q.limit.Some? && q.limit.value > c.maxLimit)
              || (exists i :: 0 <= i < |q.filters| && NormalizeFilter(q.filters[i]).Rejected?)
              || (exists i :: 0 <= i < |q.timeDimensions| && NormalizeTime(c, tz, q.timeDimensions[i]).Rejected?)
  {
    var tz := if q.timezone.Some? && q.timezone.value != "" then q.timezone.value else c.defaultTimezone;
    ListIs(q.filters);
    TimesAre(c, tz, q.timeDimensions);
  }

  /** A dimension of three words is the time dimension of the first two with the third as granularity. */
  lemma MovedParts(cube: string, member: string, granularity: string)
    requires '.' !in cube && '.' !in member && '.' !in granularity
    ensures var d := cube + ['.'] + (member + ['.'] + granularity);
            && IsTimeDimension(d)
            && AsTime(d) == TimeDimension(cube + "." + member, Some(granularity), None, None)
  {
    var d := cube + ['.'] + (member + ['.'] + granularity);
    SplitLine(cube, '.', member + ['.'] + granularity);
    SplitLine(member, '.', granularity);
    SplitWithoutSeparator(granularity, '.');
    assert Parts(d) == [cube, member, granularity];
    assert Parts(d)[..2] == [cube, member] && [cube, member][1..] == [member];
    assert Join([cube, member], ".") == cube + "." + Join([member], ".");
  }

  /** Dimensions keep their order, those that move too. */
  lemma {:induction false} RegularAppend(a: seq<string>, b: seq<string>)
    ensures Regular(a + b) == Regular(a) + Regular(b)
  {
    if a == [] {
      assert a + b == b;
    } else {
      assert (a + b)[1..] == a[1..] + b;
      RegularAppend(a[1..], b);
    }
  }

  lemma {:induction false} MovedAppend(a: seq<string>, b: seq<string>)
    ensures Moved(a + b) == Moved(a) + Moved(b)
  {
    if a == [] {
      assert a + b == b;
    } else {
      assert (a + b)[1..] == a[1..] + b;
      MovedAppend(a[1..], b);
      var first := if IsTimeDimension(a[0]) then [AsTime(a[0])] else [];
      assert first + (Moved(a[1..]) + Moved(b)) == (first + Moved(a[1..])) + Moved(b);
    }
  }

  /** A filter of a member: when it is accepted, and what it becomes. */
  lemma LeafIs(f: Filter)
    requires f.or.Absent? && f.and.Absent?
    ensures NormalizeFilter(f).Ok? <==>
            && f.operator.Some? && f.operator.value in OPERATORS
            && ((f.values.Some? && f.values.value != []) || f.operator.value in {"set", "notSet", "measureFilter"})
    ensures NormalizeFilter(f).Ok? ==>
              var g := NormalizeFilter(f).value;
              && g.or.Absent? && g.and.Absent? && g.operator == f.operator
              && (if f.dimension.Some? && f.dimension.value != "" then g.member == f.dimension && g.dimension == None
                  else g.member == f.member && g.dimension == f.dimension)
              && (f.values.Some? <==> g.values.Some?)
              && (f.values.Some? ==> ShownIn(f.values.value, g.values.value))
  {
  }

  /** Values are shown as texts one by one; null stays null. */
  ghost predicate ShownIn(before: seq<Value>, after: seq<Value>) {
    |after| == |before| && forall i | 0 <= i < |before| ::
      after[i] == match before[i]
                  case NullValue => NullValue
                  case TextValue(s) => TextValue(s)
                  case OtherValue(shown) => TextValue(shown)
  }

  /** Lists are normalized one by one, and one filter that is not accepted rejects the list. */
  lemma {:induction false} ListIs(fs: seq<Filter>)
    ensures NormalizeFilters(fs).Ok? <==> forall i | 0 <= i < |fs| :: NormalizeFilter(fs[i]).Ok?
    ensures NormalizeFilters(fs).Ok? ==>
              forall i | 0 <= i < |fs| :: NormalizeFilter(fs[i]) == Ok(NormalizeFilters(fs).value[i])
  {
    if fs != [] {
      ListIs(fs[1..]);
      assert fs == [fs[0]] + fs[1..];
    }
  }

  /** A boolean filter keeps its connective; its list is normalized. */
  lemma BooleanIs(f: Filter)
    requires f.or.Listed? || f.and.Listed?
    ensures f.or.Listed? ==>
              match NormalizeFilters(f.or.list)
              case Ok(fs) => NormalizeFilter(f) == Ok(f.(or := Listed(fs)))
              case Rejected => NormalizeFilter(f) == Rejected
    ensures !f.or.Listed? ==>
              match NormalizeFilters(f.and.list)
              case Ok(fs) => NormalizeFilter(f) == Ok(f.(and := Listed(fs)))
              case Rejected => NormalizeFilter(f) == Rejected
  {
  }

  /**
   The rest of an accepted query: its limit is the one given or the smaller of the two configured ones,
   never over the maximum unless the query is persistent; time zone, order and cache mode are filled in.
   */
  lemma QueryIs(c: Context, q: Query)
    requires Normalize(c, q).Ok?
    ensures var r := Normalize(c, q).value;
      && r.measures == q.measures && r.dimensions == Regular(q.dimensions)
      && NormalizeFilters(q.filters) == Ok(r.filters)
      && (exists times ::
            NormalizeTimes(c, r.timezone.value, q.timeDimensions) == Ok(times) &&
            r.timeDimensions == times + Moved(q.dimensions))
      && (if q.limit.Some? || c.persistent then r.limit == q.limit
          else r.limit.Some? && r.limit.value <= c.defaultLimit && r.limit.value <= c.maxLimit
               && (r.limit.value == c.defaultLimit || r.limit.value == c.maxLimit))
      && (!c.persistent ==> r.limit.value <= c.maxLimit)
      && r.timezone == (if q.timezone.Some? && q.timezone.value != "" then q.timezone else Some(c.defaultTimezone))
      && (q.order.None? <==> r.order.None?) && (q.order.Some? ==> r.order == Some(ByList(Pairs(q.order.value))))
      && r.cache.None? && r.renewQuery.None?
  {
    var r := Normalize(c, q).value;
    var times := NormalizeTimes(c, r.timezone.value, q.timeDimensions).value;
    assert r.timeDimensions == times + Moved(q.dimensions);
  }

  /** A limit over the maximum rejects a query that is not persistent. */
  lemma LimitRejects(c: Context, q: Query)
    requires !c.persistent && q.limit.Some? && q.limit.value > c.maxLimit
    ensures Normalize(c, q) == Rejected
  {
  }

  /** The cache mode of a request: the argument first, then the current property, then the deprecated one. */
  lemma CacheModeIs(c: Context, q: Query)
    ensures c.cacheMode.Some? ==> CacheMode(c, q) == c.cacheMode.value
    ensures c.cacheMode.None? && q.cache.Some? && q.cache.value != "" ==> CacheMode(c, q) == q.cache.value
    ensures c.cacheMode.None? && q.cache.None? ==>
              CacheMode(c, q) == if q.renewQuery == Some(true) then "must-revalidate" else "stale-if-slow"
    ensures Normalize(c, q).Ok? ==> Normalize(c, q).value.cacheMode == Some(CacheMode(c, q))
  {
  }
}
