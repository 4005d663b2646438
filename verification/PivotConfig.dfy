/** The normalization of a pivot configuration: every dimension finds an axis, and normalizing again changes nothing. */
module PivotConfig {
  import opened Wrappers

  datatype TimeDimension = TimeDimension(dimension: string, granularity: Option<string>)

  datatype Query = Query(measures: seq<string>, dimensions: seq<string>, timeDimensions: seq<TimeDimension>)

  /** What a caller may pass: axes and options may be missing. */
  datatype Partial = Partial(x: Option<seq<string>>, y: Option<seq<string>>, fillMissingDates: Option<bool>)

  datatype Full = Full(x: seq<string>, y: seq<string>, fillMissingDates: bool)

  const MEASURES := "measures"
  const COMPARE := "compareDateRange"

  /** `td.granularity` is truthy. */
  predicate Granular(td: TimeDimension) {
    td.granularity.Some? && td.granularity.value != ""
  }

  function TimeMember(td: TimeDimension): string {
    td.dimension + "." + if td.granularity.Some? then td.granularity.value else "undefined"
  }

  function GranularOnes(tds: seq<TimeDimension>): seq<TimeDimension> {
    if tds == [] then []
    else (if Granular(tds[0]) then [tds[0]] else []) + GranularOnes(tds[1..])
  }

  function MembersOf(tds: seq<TimeDimension>): (m: seq<string>)
    ensures |m| == |tds|
  {
    seq(|tds|, i requires 0 <= i < |tds| => TimeMember(tds[i]))
  }

  function Filter(s: seq<string>, keep: string -> bool): seq<string> {
    if s == [] then [] else (if keep(s[0]) then [s[0]] else []) + Filter(s[1..], keep)
  }

  lemma {:induction false} FilterElements(s: seq<string>, keep: string -> bool)
    ensures forall d :: d in Filter(s, keep) <==> d in s && keep(d)
  {
    if s != [] {
      FilterElements(s[1..], keep);
    }
  }

  lemma {:induction false} FilterAll(s: seq<string>, keep: string -> bool)
    requires forall d | d in s :: keep(d)
    ensures Filter(s, keep) == s
  {
    if s != [] {
      FilterAll(s[1..], keep);
    }
  }

  lemma {:induction false} FilterNone(s: seq<string>, keep: string -> bool)
    requires forall d | d in s :: !keep(d)
    ensures Filter(s, keep) == []
  {
    if s != [] {
      FilterNone(s[1..], keep);
    }
  }

  lemma {:induction false} FilterAppend(a: seq<string>, b: seq<string>, keep: string -> bool)
    ensures Filter(a + b, keep) == Filter(a, keep) + Filter(b, keep)
  {
    if a == [] {
      assert a + b == b;
    } else {
      assert (a + b)[1..] == a[1..] + b;
      FilterAppend(a[1..], b, keep);
    }
  }

  /** The first time dimension of that name, with or without a granularity. */
  function FirstOf(tds: seq<TimeDimension>, name: string): TimeDimension
    requires exists i :: 0 <= i < |tds| && tds[i].dimension == name
  {
    if tds[0].dimension == name then tds[0] else FirstOf(tds[1..], name)
  }

  predicate IsTime(q: Query, name: string) {
    exists i :: 0 <= i < |q.timeDimensions| && Granular(q.timeDimensions[i]) && q.timeDimensions[i].dimension == name
  }

  /** The bare name of a time dimension stands for its member with the granularity. */
  function Substitute(q: Query, name: string): string {
    if IsTime(q, name) && name !in q.dimensions then TimeMember(FirstOf(q.timeDimensions, name)) else name
  }

  function SubstituteAll(q: Query, axis: seq<string>): (s: seq<string>)
    ensures |s| == |axis|
  {
    seq(|axis|, i requires 0 <= i < |axis| => Substitute(q, axis[i]))
  }

  function AllDimensions(q: Query): seq<string> {
    MembersOf(GranularOnes(q.timeDimensions)) + q.dimensions
  }

  function Default(q: Query): Partial {
    if GranularOnes(q.timeDimensions) != [] then
      Partial(Some(MembersOf(GranularOnes(q.timeDimensions))), Some(q.dimensions), None)
    else
      Partial(Some(q.dimensions), Some([]), None)
  }

  function OrElse<T>(o: Option<T>, t: T): T {
    if o.Some? then o.value else t
  }

  /** The axes after substitution. */
  function Substituted(q: Query, given: Partial): Full {
    Full(SubstituteAll(q, OrElse(given.x, [])), SubstituteAll(q, OrElse(given.y, [])),
        OrElse(given.fillMissingDates, true))
  }

  /** The axes once missing dimensions joined x and strangers left both. */
  function Completed(q: Query, c: Full): Full {
    var included, all := c.x + c.y, AllDimensions(q);
    var known := d => d in all || d == MEASURES;
    c.(x := Filter(c.x + Filter(all, d => d !in included && d != COMPARE), known), y := Filter(c.y, known))
  }

  /** The axes once the two special names have their place. */
  function WithSpecials(q: Query, c: Full): Full {
    var c1 := if MEASURES in c.x + c.y then c else c.(y := c.y + [MEASURES]);
    var c2 := if COMPARE in q.dimensions && COMPARE !in c1.y + c1.x then c1.(y := [COMPARE] + c1.y) else c1;
    if q.measures == [] then c2.(x := Filter(c2.x, d => d != MEASURES), y := Filter(c2.y, d => d != MEASURES)) else c2
  }

  function Normalized(q: Query, given: Option<Partial>): Full {
    WithSpecials(q, Completed(q, Substituted(q, OrElse(given, Default(q)))))
  }

  /** `getNormalizedPivotConfig`, with the axes reassigned step by step. */
  method GetNormalizedPivotConfig(q: Query, given: Option<Partial>) returns (c: Full)
    ensures c == Normalized(q, given)
    ensures MEASURES !in q.dimensions ==> forall d ::
              d in c.x + c.y <==> if d == MEASURES then q.measures != [] else d in AllDimensions(q)
  {
    if MEASURES !in q.dimensions {
      forall d ensures d in Normalized(q, given).x + Normalized(q, given).y <==>
                       if d == MEASURES then q.measures != [] else d in AllDimensions(q)
      {
        EveryDimensionHasAnAxis(q, given, d);
      }
    }
    var pivotConfig := if given.Some? then given.value else Default(q);
    c := Full(OrElse(pivotConfig.x, []), OrElse(pivotConfig.y, []), OrElse(pivotConfig.fillMissingDates, true));
    c := c.(x := SubstituteAll(q, c.x));
    c := c.(y := SubstituteAll(q, c.y));

    var allIncludedDimensions, allDimensions := c.x + c.y, AllDimensions(q);
    var dimensionFilter := d => d in allDimensions || d == MEASURES;
    c := c.(x := Filter(c.x + Filter(allDimensions, d => d !in allIncludedDimensions && d != COMPARE),
        dimensionFilter));
    c := c.(y := Filter(c.y, dimensionFilter));

    if MEASURES !in c.x + c.y {
      c := c.(y := c.y + [MEASURES]);
    }
    if COMPARE in q.dimensions && COMPARE !in c.y + c.x {
      c := c.(y := [COMPARE] + c.y);
    }
    if q.measures == [] {
      c := c.(x := Filter(c.x, d => d != MEASURES));
      c := c.(y := Filter(c.y, d => d != MEASURES));
    }
  }

  // ---- completeness ----

  lemma CompletedElements(q: Query, c: Full, d: string)
    ensures var r := Completed(q, c);
            && (d in r.x + r.y <==>
                  (d in AllDimensions(q) || d == MEASURES) &&
                  (d in c.x + c.y || (d in AllDimensions(q) && d != COMPARE)))
            && (d in c.y && d in AllDimensions(q) ==> d in r.y)
  {
    var included, all := c.x + c.y, AllDimensions(q);
    var known := (e: string) => e in all || e == MEASURES;
    var missing := (e: string) => e !in included && e != COMPARE;
    FilterElements(all, missing);
    FilterElements(c.x + Filter(all, missing), known);
    FilterElements(c.y, known);
  }

  lemma WithSpecialsElements(q: Query, c: Full, d: string)
    ensures var r := WithSpecials(q, c);
            d in r.x + r.y <==>
              if d == MEASURES then q.measures != []
              else d in c.x + c.y || (d == COMPARE && COMPARE in q.dimensions)
  {
    var c1 := if MEASURES in c.x + c.y then c else c.(y := c.y + [MEASURES]);
    var c2 := if COMPARE in q.dimensions && COMPARE !in c1.y + c1.x then c1.(y := [COMPARE] + c1.y) else c1;
    FilterElements(c2.x, e => e != MEASURES);
    FilterElements(c2.y, e => e != MEASURES);
    assert d in c1.x + c1.y <==> d in c1.x || d in c1.y;
    assert d in c2.x + c2.y <==> d in c2.x || d in c2.y;
    assert d in c1.y + c1.x <==> d in c1.x || d in c1.y;
  }

  /** A member with a granularity has a dot in it, so it is none of the special names. */
  lemma SpecialNamesAreNoMembers(q: Query)
    ensures MEASURES in AllDimensions(q) <==> MEASURES in q.dimensions
    ensures COMPARE in AllDimensions(q) <==> COMPARE in q.dimensions
  {
    var tds := GranularOnes(q.timeDimensions);
    forall i | 0 <= i < |tds| ensures MembersOf(tds)[i] != MEASURES && MembersOf(tds)[i] != COMPARE {
      assert TimeMember(tds[i])[|tds[i].dimension|] == '.';
    }
  }

  /**
   Whatever the caller passes, the axes together hold every dimension and every time dimension with a
   granularity, `measures` exactly when the query has some, and nothing else.
   */
  lemma EveryDimensionHasAnAxis(q: Query, given: Option<Partial>, d: string)
    requires MEASURES !in q.dimensions
    ensures var c := Normalized(q, given);
            d in c.x + c.y <==> if d == MEASURES then q.measures != [] else d in AllDimensions(q)
  {
    var s := Substituted(q, OrElse(given, Default(q)));
    CompletedElements(q, s, d);
    WithSpecialsElements(q, Completed(q, s), d);
    SpecialNamesAreNoMembers(q);
  }

  // ---- idempotence ----

  /** No member of the query can be mistaken for the bare name of a time dimension. */
  ghost predicate NamesApart(q: Query) {
    forall d | IsTime(q, d) && d !in q.dimensions :: d != MEASURES && d !in AllDimensions(q)
  }

  function Given(c: Full): Option<Partial> {
    Some(Partial(Some(c.x), Some(c.y), Some(c.fillMissingDates)))
  }

  lemma NothingToSubstitute(q: Query, axis: seq<string>)
    requires NamesApart(q) && forall d | d in axis :: d == MEASURES || d in AllDimensions(q)
    ensures SubstituteAll(q, axis) == axis
  {
    forall i | 0 <= i < |axis| ensures Substitute(q, axis[i]) == axis[i] {
      assert axis[i] in axis;
    }
  }

  /** Axes that are complete and hold no stranger stay as they are. */
  lemma CompletedIsFixed(q: Query, c: Full)
    requires forall d | d in c.x + c.y :: d == MEASURES || d in AllDimensions(q)
    requires forall d | d in AllDimensions(q) && d != COMPARE :: d in c.x + c.y
    ensures Completed(q, c) == c
  {
    var included, all := c.x + c.y, AllDimensions(q);
    var known := (e: string) => e in all || e == MEASURES;
    var missing := (e: string) => e !in included && e != COMPARE;
    FilterNone(all, missing);
    assert c.x + Filter(all, missing) == c.x;
    forall d | d in c.x || d in c.y ensures known(d) {
      assert d in c.x + c.y;
    }
    FilterAll(c.x, known);
    FilterAll(c.y, known);
  }

  lemma WithSpecialsIsFixed(q: Query, c: Full)
    requires MEASURES in c.x + c.y <==> q.measures != []
    requires COMPARE in q.dimensions ==> COMPARE in c.x + c.y
    ensures WithSpecials(q, c) == c
  {
    assert COMPARE in q.dimensions ==> COMPARE in c.y + c.x;
    if q.measures == [] {
      forall d | d in c.x || d in c.y ensures d != MEASURES {
        assert d in c.x + c.y;
      }
      var keep := (d: string) => d != MEASURES;
      FilterAll(c.x, keep);
      FilterAll(c.y, keep);
      FilterAppend(c.y, [MEASURES], keep);
      var c1 := c.(y := c.y + [MEASURES]);
      assert COMPARE in c1.y + c1.x <==> COMPARE in c.x + c.y;
      assert Filter([MEASURES], keep) == [] by {
        FilterNone([MEASURES], keep);
      }
    }
  }

  /** Normalizing a normalized configuration changes nothing, which `tablePivot` relies on. */
  lemma NormalizationIsIdempotent(q: Query, given: Option<Partial>)
    requires NamesApart(q) && MEASURES !in q.dimensions
    ensures Normalized(q, Given(Normalized(q, given))) == Normalized(q, given)
  {
    var c := Normalized(q, given);
    SpecialNamesAreNoMembers(q);
    forall d ensures d in c.x + c.y <==> if d == MEASURES then q.measures != [] else d in AllDimensions(q) {
      EveryDimensionHasAnAxis(q, given, d);
    }
    forall d | d in c.x || d in c.y ensures d == MEASURES || d in AllDimensions(q) {
      assert d in c.x + c.y;
    }
    NothingToSubstitute(q, c.x);
    NothingToSubstitute(q, c.y);
    CompletedIsFixed(q, c);
    WithSpecialsIsFixed(q, c);
  }

  function Dots(s: string): nat {
    if s == "" then 0 else (if s[0] == '.' then 1 else 0) + Dots(s[1..])
  }

  lemma {:induction false} DotsAppend(a: string, b: string)
    ensures Dots(a + b) == Dots(a) + Dots(b)
  {
    if a == [] {
      assert a + b == b;
    } else {
      assert (a + b)[1..] == a[1..] + b;
      DotsAppend(a[1..], b);
    }
  }

  lemma {:induction false} GranularOnesElements(tds: seq<TimeDimension>)
    ensures forall td :: td in GranularOnes(tds) <==> td in tds && Granular(td)
  {
    if tds != [] {
      GranularOnesElements(tds[1..]);
    }
  }

  lemma MemberHasMoreDots(td: TimeDimension)
    ensures Dots(TimeMember(td)) > Dots(td.dimension)
  {
    var granularity := if td.granularity.Some? then td.granularity.value else "undefined";
    DotsAppend(td.dimension + ".", granularity);
    DotsAppend(td.dimension, ".");
  }

  /**
   The names of every query the gateway makes are apart: its time dimensions are all of the form
   `Cube.member`, or there is the one called `time` of a blending query.
   */
  lemma SchemaKeepsNamesApart(q: Query)
    requires forall td, other | td in q.timeDimensions && other in q.timeDimensions ::
               Dots(td.dimension) == Dots(other.dimension)
    requires forall td | td in q.timeDimensions :: td.dimension != MEASURES
    ensures NamesApart(q)
  {
    forall d | IsTime(q, d) && d !in q.dimensions ensures d != MEASURES && d !in AllDimensions(q) {
      var i :| 0 <= i < |q.timeDimensions| && Granular(q.timeDimensions[i]) && q.timeDimensions[i].dimension == d;
      assert q.timeDimensions[i] in q.timeDimensions;
      var members := MembersOf(GranularOnes(q.timeDimensions));
      GranularOnesElements(q.timeDimensions);
      if d in members {
        var k :| 0 <= k < |members| && members[k] == d;
        var td := GranularOnes(q.timeDimensions)[k];
        assert td in q.timeDimensions;
        MemberHasMoreDots(td);
      }
    }
  }

  /** Queries of one time dimension, and queries of `Cube.member` names, are of that kind. */
  lemma GatewayQueriesAreOrdinary(q: Query)
    requires (forall td | td in q.timeDimensions :: Dots(td.dimension) == 1)
             || (|q.timeDimensions| == 1 && q.timeDimensions[0].dimension == "time")
    ensures NamesApart(q)
  {
    assert Dots(MEASURES) == 0;
    SchemaKeepsNamesApart(q);
  }

  // ---- the axes nobody asked for, and those somebody did ----

  lemma {:induction false} AllGranular(tds: seq<TimeDimension>)
    requires forall td | td in tds :: Granular(td)
    ensures GranularOnes(tds) == tds
  {
    if tds != [] {
      AllGranular(tds[1..]);
    }
  }

  /** Known names on complete axes: completion changes nothing but what is missing, which x gets at its end. */
  lemma KnownNamesStay(q: Query, c: Full)
    requires forall d | d in c.x || d in c.y :: d in AllDimensions(q) || d == MEASURES
    ensures c.x <= Completed(q, c).x && Completed(q, c).y == c.y
    ensures (forall d | d in AllDimensions(q) && d != COMPARE :: d in c.x || d in c.y) ==> Completed(q, c) == c
    ensures forall d | d in Completed(q, c).x[|c.x|..] :: d in AllDimensions(q) && d !in c.x && d !in c.y
  {
    var included, all := c.x + c.y, AllDimensions(q);
    var known := (e: string) => e in all || e == MEASURES;
    var missing := (e: string) => e !in included && e != COMPARE;
    FilterElements(all, missing);
    FilterAppend(c.x, Filter(all, missing), known);
    FilterAll(c.x, known);
    FilterAll(Filter(all, missing), known);
    FilterAll(c.y, known);
    if forall d | d in all && d != COMPARE :: d in c.x || d in c.y {
      FilterNone(all, missing);
      assert c.x + [] == c.x;
    }
  }

  /** A comparison that is on no axis goes to the start of y. */
  function Comparison(q: Query, x: seq<string>, y: seq<string>): seq<string> {
    if COMPARE in q.dimensions && COMPARE !in x && COMPARE !in y then [COMPARE] else []
  }

  lemma KeepAroundY(first: seq<string>, y: seq<string>)
    requires MEASURES !in first && MEASURES !in y
    ensures Filter(first + (y + [MEASURES]), d => d != MEASURES) == first + y
  {
    var keep := (d: string) => d != MEASURES;
    FilterAppend(first, y + [MEASURES], keep);
    FilterAppend(y, [MEASURES], keep);
    FilterAll(first, keep);
    FilterAll(y, keep);
    FilterNone([MEASURES], keep);
    assert y + [] == y;
  }

  /** The special names come after and before the others on y; x keeps its names. */
  lemma SpecialsAtTheEnds(q: Query, c: Full)
    requires MEASURES !in c.x && MEASURES !in c.y
    ensures WithSpecials(q, c).x == c.x
    ensures WithSpecials(q, c).y == Comparison(q, c.x, c.y) + c.y + if q.measures == [] then [] else [MEASURES]
  {
    var first := Comparison(q, c.x, c.y);
    var c1 := c.(y := c.y + [MEASURES]);
    assert MEASURES !in c.x + c.y;
    assert COMPARE in c1.y + c1.x <==> COMPARE in c.x || COMPARE in c.y;
    var y := first + (c.y + [MEASURES]);
    assert y == first + c.y + [MEASURES] && [] + c1.y == c1.y;
    if q.measures == [] {
      FilterAll(c.x, d => d != MEASURES);
      KeepAroundY(first, c.y);
      assert WithSpecials(q, c).y == Filter(y, d => d != MEASURES) == first + c.y;
    }
  }

  /** No name of an axis is read as the bare name of a time dimension. */
  lemma NoBareNames(q: Query, axis: seq<string>)
    requires forall d | d in axis :: d in q.dimensions || !IsTime(q, d)
    ensures SubstituteAll(q, axis) == axis
  {
    forall i | 0 <= i < |axis| ensures Substitute(q, axis[i]) == axis[i] {
      assert axis[i] in axis;
    }
  }

  /** The granular ones keep their order. */
  lemma {:induction false} GranularOnesAppend(a: seq<TimeDimension>, b: seq<TimeDimension>)
    ensures GranularOnes(a + b) == GranularOnes(a) + GranularOnes(b)
  {
    if a == [] {
      assert a + b == b;
    } else {
      assert (a + b)[1..] == a[1..] + b;
      GranularOnesAppend(a[1..], b);
    }
  }

  function DefaultAxes(q: Query): Full {
    var members := MembersOf(GranularOnes(q.timeDimensions));
    if members == [] then Full(q.dimensions, [], true) else Full(members, q.dimensions, true)
  }

  lemma MembersAreMembers(q: Query, d: string)
    requires NamesApart(q) && d in MembersOf(GranularOnes(q.timeDimensions))
    ensures d in AllDimensions(q) && d != MEASURES && d != COMPARE && (d in q.dimensions || !IsTime(q, d))
  {
    var members := MembersOf(GranularOnes(q.timeDimensions));
    var i :| 0 <= i < |members| && members[i] == d;
    MemberIsNotSpecial(GranularOnes(q.timeDimensions)[i]);
  }

  lemma MembersAt(q: Query, tds: seq<TimeDimension>)
    requires tds == GranularOnes(q.timeDimensions)
    ensures forall i | 0 <= i < |tds| ::
              && MembersOf(tds)[i] == tds[i].dimension + "." + OrElse(tds[i].granularity, "")
              && MembersOf(tds)[i] != MEASURES
  {
    GranularOnesElements(q.timeDimensions);
    forall i | 0 <= i < |tds| ensures tds[i].granularity.Some? && TimeMember(tds[i]) != MEASURES {
      assert tds[i] in tds;
      MemberIsNotSpecial(tds[i]);
    }
  }

  lemma DefaultIsSubstituted(q: Query)
    requires NamesApart(q)
    ensures Substituted(q, Default(q)) == DefaultAxes(q)
  {
    var members := MembersOf(GranularOnes(q.timeDimensions));
    forall d | d in members ensures d in q.dimensions || !IsTime(q, d) {
      MembersAreMembers(q, d);
    }
    NoBareNames(q, members);
    NoBareNames(q, q.dimensions);
    NoBareNames(q, []);
  }

  lemma DefaultIsComplete(q: Query)
    requires NamesApart(q) && MEASURES !in q.dimensions
    ensures Completed(q, DefaultAxes(q)) == DefaultAxes(q)
  {
    var c := DefaultAxes(q);
    var members := MembersOf(GranularOnes(q.timeDimensions));
    assert AllDimensions(q) == members + q.dimensions;
    KnownNamesStay(q, c);
  }

  /**
   What a caller without a configuration gets. With granular time dimensions, x is their members in
   order and y the dimensions; else x is the dimensions. The measures, if any, come last on y.
   */
  lemma WithoutConfiguration(q: Query, tds: seq<TimeDimension>)
    requires NamesApart(q) && MEASURES !in q.dimensions && tds == GranularOnes(q.timeDimensions)
    ensures var c := Normalized(q, None);
            && (if tds == [] then c.x == q.dimensions
                else |c.x| == |tds| && forall i | 0 <= i < |tds| ::
                       c.x[i] == tds[i].dimension + "." + OrElse(tds[i].granularity, ""))
            && c.y == (if tds == [] then [] else q.dimensions) + (if q.measures == [] then [] else [MEASURES])
            && c.fillMissingDates
  {
    var c := DefaultAxes(q);
    DefaultIsSubstituted(q);
    DefaultIsComplete(q);
    MembersAt(q, tds);
    assert MEASURES !in c.x && MEASURES !in c.y;
    SpecialsAtTheEnds(q, c);
    assert Comparison(q, c.x, c.y) == [];
    assert [] + c.y == c.y;
  }

  /** What is missing on the given axes. */
  function Missing(q: Query, x: seq<string>, y: seq<string>): seq<string> {
    Filter(AllDimensions(q), d => d !in x && d !in y && d != COMPARE)
  }

  /** The names of an axis are names of the query, and none is read as the bare name of a time dimension. */
  ghost predicate OfQuery(q: Query, axis: seq<string>) {
    forall d | d in axis :: (d in AllDimensions(q) || d == MEASURES) && (d in q.dimensions || !IsTime(q, d))
  }

  lemma CompletedIs(q: Query, c: Full)
    requires OfQuery(q, c.x) && OfQuery(q, c.y)
    ensures Completed(q, c) == c.(x := c.x + Missing(q, c.x, c.y))
  {
    var all, included := AllDimensions(q), c.x + c.y;
    var known := (d: string) => d in all || d == MEASURES;
    var missing := (d: string) => d !in included && d != COMPARE;
    FilterSame(all, missing, d => d !in c.x && d !in c.y && d != COMPARE);
    FilterElements(all, missing);
    FilterAll(c.x + Filter(all, missing), known);
    FilterAll(c.y, known);
  }

  lemma {:induction false} FilterSame(s: seq<string>, keep: string -> bool, like: string -> bool)
    requires forall d | d in s :: keep(d) == like(d)
    ensures Filter(s, keep) == Filter(s, like)
  {
    if s != [] {
      assert keep(s[0]) == like(s[0]);
      FilterSame(s[1..], keep, like);
    }
  }

  /**
   A caller's axes stay as they are given: names of the query, none of them bare, keep their axis and their
   order; what is missing is appended to x in the order of the query, and y gets the special names only.
   */
  lemma GivenAxesStay(q: Query, given: Partial)
    requires var x, y := OrElse(given.x, []), OrElse(given.y, []);
             OfQuery(q, x) && OfQuery(q, y) && MEASURES !in x && MEASURES !in y && MEASURES !in q.dimensions
    ensures var c, x, y := Normalized(q, Some(given)), OrElse(given.x, []), OrElse(given.y, []);
            && c.x == x + Missing(q, x, y)
            && c.y == Comparison(q, x, y) + y + (if q.measures == [] then [] else [MEASURES])
            && c.fillMissingDates == OrElse(given.fillMissingDates, true)
  {
    var x, y := OrElse(given.x, []), OrElse(given.y, []);
    NoBareNames(q, x);
    NoBareNames(q, y);
    var s := Substituted(q, given);
    CompletedIs(q, s);
    SpecialNamesAreNoMembers(q);
    FilterElements(AllDimensions(q), d => d !in x && d !in y && d != COMPARE);
    SpecialsAtTheEnds(q, Completed(q, s));
  }

  /** Measures that the caller put on an axis stay where they were put. */
  lemma MeasuresStay(q: Query, given: Partial)
    requires var x, y := OrElse(given.x, []), OrElse(given.y, []);
             OfQuery(q, x) && OfQuery(q, y) && (MEASURES in x || MEASURES in y) && q.measures != []
    ensures var c, x, y := Normalized(q, Some(given)), OrElse(given.x, []), OrElse(given.y, []);
            c.x == x + Missing(q, x, y) && c.y == Comparison(q, x, y) + y
  {
    var x, y := OrElse(given.x, []), OrElse(given.y, []);
    NoBareNames(q, x);
    NoBareNames(q, y);
    var s := Substituted(q, given);
    CompletedIs(q, s);
    FilterElements(AllDimensions(q), d => d !in x && d !in y && d != COMPARE);
    var done := Completed(q, s);
    assert MEASURES in done.x + done.y;
    assert COMPARE in done.y + done.x <==> COMPARE in x || COMPARE in y;
  }

  lemma AllAreMissing(q: Query)
    requires COMPARE !in q.dimensions
    ensures [] + Missing(q, [], []) == AllDimensions(q)
  {
    SpecialNamesAreNoMembers(q);
    var none: seq<string> := [];
    var all := AllDimensions(q);
    FilterAll(all, d => d !in none && d !in none && d != COMPARE);
  }

  /** With both axes empty, x lists the members of the granular time dimensions and then the dimensions. */
  lemma EmptyAxesListAll(q: Query, tds: seq<TimeDimension>, given: Partial)
    requires MEASURES !in q.dimensions && COMPARE !in q.dimensions && tds == GranularOnes(q.timeDimensions)
    requires OrElse(given.x, []) == [] && OrElse(given.y, []) == []
    ensures var x := Normalized(q, Some(given)).x;
            && |x| == |tds| + |q.dimensions|
            && (forall i | 0 <= i < |tds| :: x[i] == tds[i].dimension + "." + OrElse(tds[i].granularity, ""))
            && x[|tds|..] == q.dimensions
  {
    GivenAxesStay(q, given);
    AllAreMissing(q);
    var members := MembersOf(tds);
    assert Normalized(q, Some(given)).x == members + q.dimensions;
    MembersAt(q, tds);
  }

  function Known(q: Query, axis: seq<string>): seq<string> {
    Filter(axis, d => d in AllDimensions(q) || d == MEASURES)
  }

  /** Names that are none of the query's change nothing. */
  lemma StrangersChangeNothing(q: Query, given: Partial, x: seq<string>, y: seq<string>)
    requires given.x == Some(x) && given.y == Some(y)
    requires forall d | d in x || d in y :: d in q.dimensions || !IsTime(q, d)
    ensures Normalized(q, Some(given)) == Normalized(q, Some(given.(x := Some(Known(q, x)), y := Some(Known(q, y)))))
  {
    var all := AllDimensions(q);
    var known := (d: string) => d in all || d == MEASURES;
    FilterSame(x, known, d => d in AllDimensions(q) || d == MEASURES);
    FilterSame(y, known, d => d in AllDimensions(q) || d == MEASURES);
    FilterElements(x, known);
    FilterElements(y, known);
    NoBareNames(q, x);
    NoBareNames(q, y);
    NoBareNames(q, Known(q, x));
    NoBareNames(q, Known(q, y));
    var inAll := (d: string) => d !in x + y && d != COMPARE;
    var inKnown := (d: string) => d !in Known(q, x) + Known(q, y) && d != COMPARE;
    FilterSame(all, inAll, inKnown);
    FilterAppend(x, Filter(all, inAll), known);
    FilterAppend(Known(q, x), Filter(all, inKnown), known);
    FilterAll(Known(q, x), known);
    FilterAll(Known(q, y), known);
  }

  // ---- bare names ----

  lemma MemberIsNotSpecial(td: TimeDimension)
    ensures TimeMember(td) != MEASURES && TimeMember(td) != COMPARE
  {
    assert TimeMember(td)[|td.dimension|] == '.';
  }

  lemma SpecialsOnY(q: Query, c: Full, m: string)
    requires m != MEASURES && m != COMPARE
    ensures m in WithSpecials(q, c).y <==> m in c.y
  {
    var c1 := if MEASURES in c.x + c.y then c else c.(y := c.y + [MEASURES]);
    var c2 := if COMPARE in q.dimensions && COMPARE !in c1.y + c1.x then c1.(y := [COMPARE] + c1.y) else c1;
    FilterElements(c2.y, d => d != MEASURES);
  }

  lemma CompletedOnY(q: Query, c: Full, m: string)
    requires m != MEASURES
    ensures m in Completed(q, c).y <==> m in c.y && m in AllDimensions(q)
  {
    var all := AllDimensions(q);
    FilterElements(c.y, d => d in all || d == MEASURES);
  }

  /** A name that is not special is on y exactly when it was there after substitution and belongs to the query. */
  lemma OnY(q: Query, given: Partial, m: string)
    requires m != MEASURES && m != COMPARE
    ensures m in Normalized(q, Some(given)).y <==>
            m in SubstituteAll(q, OrElse(given.y, [])) && m in AllDimensions(q)
  {
    var s := Substituted(q, given);
    CompletedOnY(q, s, m);
    SpecialsOnY(q, Completed(q, s), m);
  }

  lemma FirstOfIsListed(tds: seq<TimeDimension>, name: string)
    requires exists i :: 0 <= i < |tds| && tds[i].dimension == name
    ensures FirstOf(tds, name) in tds && FirstOf(tds, name).dimension == name
  {
    if tds[0].dimension != name {
      FirstOfIsListed(tds[1..], name);
    }
  }

  lemma MemberOfQuery(q: Query, m: string)
    ensures m in AllDimensions(q) <==>
            m in q.dimensions || exists td :: td in q.timeDimensions && Granular(td) && TimeMember(td) == m
  {
    var ones := GranularOnes(q.timeDimensions);
    GranularOnesElements(q.timeDimensions);
    if td :| td in q.timeDimensions && Granular(td) && TimeMember(td) == m {
      var k :| 0 <= k < |ones| && ones[k] == td;
      assert MembersOf(ones)[k] == m;
    }
    if m in MembersOf(ones) {
      var k :| 0 <= k < |ones| && MembersOf(ones)[k] == m;
      assert ones[k] in ones;
    }
  }

  /**
   The bare name of a time dimension, given for y, keeps that axis if and only if the first time
   dimension of that name, with or without a granularity, is one that has a granularity.
   */
  lemma BareNameKeepsItsAxisIff(q: Query, given: Partial, d: string)
    requires IsTime(q, d) && d !in q.dimensions && d in OrElse(given.y, [])
    requires var m := TimeMember(FirstOf(q.timeDimensions, d));
             m !in q.dimensions
             && forall td | td in q.timeDimensions && Granular(td) && TimeMember(td) == m ::
                  Granular(FirstOf(q.timeDimensions, d))
    ensures TimeMember(FirstOf(q.timeDimensions, d)) in Normalized(q, Some(given)).y
       <==> Granular(FirstOf(q.timeDimensions, d))
  {
    var first := FirstOf(q.timeDimensions, d);
    var y := OrElse(given.y, []);
    var i :| 0 <= i < |y| && y[i] == d;
    assert SubstituteAll(q, y)[i] == TimeMember(first);
    MemberIsNotSpecial(first);
    OnY(q, given, TimeMember(first));
    FirstOfIsListed(q.timeDimensions, d);
    MemberOfQuery(q, TimeMember(first));
  }

  /** A granular member that no name on y stands for is on x, whatever the caller meant. */
  lemma UnnamedMemberIsOnX(q: Query, given: Partial, td: TimeDimension)
    requires MEASURES !in q.dimensions && td in q.timeDimensions && Granular(td)
    requires TimeMember(td) !in SubstituteAll(q, OrElse(given.y, []))
    ensures TimeMember(td) in Normalized(q, Some(given)).x && TimeMember(td) !in Normalized(q, Some(given)).y
  {
    MemberIsNotSpecial(td);
    MemberOfQuery(q, TimeMember(td));
    OnY(q, given, TimeMember(td));
    EveryDimensionHasAnAxis(q, Some(given), TimeMember(td));
    var c := Normalized(q, Some(given));
    assert TimeMember(td) in c.x + c.y;
  }

  /** In a query of one member, a y that does not name it leaves it alone on x. */
  lemma OnlyMemberIsOnX(q: Query, given: Partial, td: TimeDimension)
    requires q.measures == [] && given.x == Some([]) && q.dimensions == []
    requires q.timeDimensions != [] && GranularOnes(q.timeDimensions) == [td]
    requires TimeMember(td) !in SubstituteAll(q, OrElse(given.y, []))
    ensures Normalized(q, Some(given)).x == [TimeMember(td)] && Normalized(q, Some(given)).y == []
  {
    var m := TimeMember(td);
    var all := AllDimensions(q);
    assert all == [m];
    MemberIsNotSpecial(td);
    var x, y := Normalized(q, Some(given)).x, Normalized(q, Some(given)).y;
    OnY(q, given, m);
    assert y == [] || y[0] in y;
    if y != [] {
      EveryDimensionHasAnAxis(q, Some(given), y[0]);
    }
    OnlyX(q, Substituted(q, given), m);
  }

  lemma OnlyX(q: Query, c: Full, m: string)
    requires q.measures == [] && AllDimensions(q) == [m] && m != MEASURES && m != COMPARE
    requires c.x == [] && m !in c.y && q.dimensions == []
    ensures WithSpecials(q, Completed(q, c)).x == [m]
  {
    var all, included := AllDimensions(q), c.x + c.y;
    var known := (e: string) => e in all || e == MEASURES;
    var missing := (e: string) => e !in included && e != COMPARE;
    FilterAll(all, missing);
    assert c.x + all == all;
    FilterAll(all, known);
    FilterAll(all, d => d != MEASURES);
  }

  lemma TimesOfExample()
    ensures TimeMember(TimeDimension("A.t", Some("day"))) == "A.t.day"
    ensures TimeMember(TimeDimension("A.t", None)) != TimeMember(TimeDimension("A.t", Some("day")))
  {
    assert "A.t" + "." + "day" == "A.t.day";
    assert |TimeMember(TimeDimension("A.t", None))| == 13 && |TimeMember(TimeDimension("A.t", Some("day")))| == 7;
  }

  lemma OneGranular(first: TimeDimension, second: TimeDimension)
    requires !Granular(first) && Granular(second)
    ensures GranularOnes([first, second]) == [second]
  {
    assert [first, second][1..] == [second] && [second][1..] == [];
    assert GranularOnes([second]) == [second] + GranularOnes([]);
    assert GranularOnes([first, second]) == [] + GranularOnes([second]);
  }

  /** One dimension twice, first without and then with a granularity, its bare name given for y. */
  lemma MovesTheAxis(first: TimeDimension, second: TimeDimension)
    requires !Granular(first) && Granular(second) && first.dimension == second.dimension
    requires TimeMember(first) != TimeMember(second)
    ensures var q, given := Query([], [], [first, second]), Partial(Some([]), Some([first.dimension]), None);
            Normalized(q, Some(given)).x == [TimeMember(second)] && Normalized(q, Some(given)).y == []
  {
    var tds, d := [first, second], first.dimension;
    var q, given := Query([], [], tds), Partial(Some([]), Some([d]), None);
    OneGranular(first, second);
    assert tds[1] == second;
    assert IsTime(q, d);
    BareNameKeepsItsAxisIff(q, given, d);
    assert SubstituteAll(q, [d]) == [TimeMember(first)];
    OnlyMemberIsOnX(q, given, second);
  }

  /**
   A time dimension listed first without a granularity spoils the caller's choice of axis: the bare name
   on y is read as `undefined`, dropped, and its member lands on x.
   */
  lemma UngranularFirstMovesTheAxis()
    ensures var q := Query([], [], [TimeDimension("A.t", None), TimeDimension("A.t", Some("day"))]);
            var c := Normalized(q, Some(Partial(Some([]), Some(["A.t"]), None)));
            c.x == ["A.t.day"] && c.y == []
  {
    TimesOfExample();
    MovesTheAxis(TimeDimension("A.t", None), TimeDimension("A.t", Some("day")));
  }
}
