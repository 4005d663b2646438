/** Version comparison by dotted segments: a total preorder in which missing segments count as zero. */
module Semver {
  import opened Wrappers
  import opened Strings

  datatype Part = Part(num: int, pre: string)

  const ZERO := Part(0, "")

  predicate IsDigit(c: char) { '0' <= c <= '9' }

  /** The value of the digits a text starts with, if any. */
  function LeadingDigits(s: string, soFar: int): int {
    if s != "" && IsDigit(s[0]) then LeadingDigits(s[1..], soFar * 10 + (s[0] as int - '0' as int)) else soFar
  }

  function TrimStart(s: string): string {
    if s != "" && IsSpace(s[0]) then TrimStart(s[1..]) else s
  }

  /** `parseInt(s, 10) || 0`. */
  function ParseInt(s: string): int {
    var t := TrimStart(s);
    if t != "" && t[0] == '-' then -LeadingDigits(t[1..], 0)
    else if t != "" && t[0] == '+' then LeadingDigits(t[1..], 0)
    else LeadingDigits(t, 0)
  }

  function DashAt(s: string): (i: int)
    ensures -1 <= i < |s|
  {
    if s == "" then -1
    else if s[0] == '-' then 0
    else var i := DashAt(s[1..]); if i == -1 then -1 else i + 1
  }

  function ParseSegment(segment: string): Part {
    var idx := DashAt(segment);
    if idx == -1 then Part(ParseInt(segment), "")
    else Part(ParseInt(segment[..idx]), segment[idx + 1..])
  }

  function ParseSegments(segments: seq<string>): (p: seq<Part>)
    ensures |p| == |segments|
  {
    Map(ParseSegment, segments)
  }

  function ParseVersion(v: string): seq<Part> {
    ParseSegments(Split(v, '.'))
  }

  /** A smaller number, or the same number with a pre-release against none. */
  predicate Less(a: Part, b: Part) {
    a.num < b.num || (a.num == b.num && a.pre != "" && b.pre == "")
  }

  function Head(p: seq<Part>): Part {
    if p == [] then ZERO else p[0]
  }

  function Tail(p: seq<Part>): seq<Part> {
    if p == [] then [] else p[1..]
  }

  /** Lexicographic order, with the shorter version continued by zeros. */
  predicate Gte(a: seq<Part>, b: seq<Part>)
    decreases |a| + |b|
  {
    if a == [] && b == [] then true
    else if Less(Head(b), Head(a)) then true
    else if Less(Head(a), Head(b)) then false
    else Gte(Tail(a), Tail(b))
  }

  function From(p: seq<Part>, i: nat): seq<Part> {
    if i <= |p| then p[i..] else []
  }

  lemma FromStep(p: seq<Part>, i: nat)
    ensures Head(From(p, i)) == (if i < |p| then p[i] else ZERO) && Tail(From(p, i)) == From(p, i + 1)
  {
  }

  method CompareParts(parts: seq<Part>, minParts: seq<Part>) returns (r: bool)
    ensures r == Gte(parts, minParts)
  {
    var i := 0;
    assert From(parts, 0) == parts && From(minParts, 0) == minParts;
    while i < |parts| || i < |minParts|
      invariant Gte(parts, minParts) == Gte(From(parts, i), From(minParts, i))
      decreases |parts| + |minParts| - i
    {
      FromStep(parts, i);
      FromStep(minParts, i);
      var a := if i < |parts| then parts[i] else ZERO;
      var b := if i < |minParts| then minParts[i] else ZERO;
      if a.num > b.num {
        return true;
      }
      if a.num < b.num {
        return false;
      }
      if a.pre != "" && b.pre == "" {
        return false;
      }
      if a.pre == "" && b.pre != "" {
        return true;
      }
      i := i + 1;
    }
    return true;
  }

  method IsVersionGte(version: Option<string>, minVersion: string) returns (r: bool)
    ensures r <==> version.Some? && version.value != "" && Gte(ParseVersion(version.value), ParseVersion(minVersion))
  {
    if version.None? || version.value == "" {
      return false;
    }
    r := CompareParts(ParseVersion(version.value), ParseVersion(minVersion));
  }

  /** The i-th part, with zeros after the end. */
  function At(p: seq<Part>, i: nat): Part {
    if i < |p| then p[i] else ZERO
  }

  /** The same number, and both pre-releases or both not: which pre-release does not matter. */
  predicate Same(a: Part, b: Part) {
    a.num == b.num && (a.pre == "" <==> b.pre == "")
  }

  ghost predicate SameUpTo(a: seq<Part>, b: seq<Part>, n: nat) {
    forall i: nat | i < n :: Same(At(a, i), At(b, i))
  }

  ghost predicate DecidedAt(a: seq<Part>, b: seq<Part>, n: nat) {
    SameUpTo(a, b, n) && Less(At(b, n), At(a, n))
  }

  lemma TailAt(a: seq<Part>, b: seq<Part>, n: nat)
    requires Same(Head(a), Head(b))
    ensures SameUpTo(Tail(a), Tail(b), n) <==> SameUpTo(a, b, n + 1)
    ensures DecidedAt(Tail(a), Tail(b), n) <==> DecidedAt(a, b, n + 1)
  {
    assert forall i: nat :: At(Tail(a), i) == At(a, i + 1) && At(Tail(b), i) == At(b, i + 1);
    if SameUpTo(Tail(a), Tail(b), n) {
      forall i: nat | i < n + 1 ensures Same(At(a, i), At(b, i)) {
        assert i > 0 ==> Same(At(Tail(a), i - 1), At(Tail(b), i - 1));
      }
    }
    if SameUpTo(a, b, n + 1) {
      forall i: nat | i < n ensures Same(At(Tail(a), i), At(Tail(b), i)) {
        assert Same(At(a, i + 1), At(b, i + 1));
      }
    }
  }

  function Longest(a: seq<Part>, b: seq<Part>): nat {
    if |a| >= |b| then |a| else |b|
  }

  /** What the comparison means: all parts are the same, or the first that are not decide. */
  lemma {:induction false} GteIff(a: seq<Part>, b: seq<Part>)
    ensures Gte(a, b) <==> SameUpTo(a, b, Longest(a, b)) || exists n: nat :: DecidedAt(a, b, n)
    decreases |a| + |b|
  {
    if a != [] || b != [] {
      if Same(Head(a), Head(b)) {
        GteIff(Tail(a), Tail(b));
        TailAt(a, b, Longest(a, b) - 1);
        if n: nat :| DecidedAt(Tail(a), Tail(b), n) {
          TailAt(a, b, n);
        }
        if n: nat :| DecidedAt(a, b, n) {
          assert n > 0;
          TailAt(a, b, n - 1);
        }
      } else {
        assert DecidedAt(a, b, 0) <==> Less(Head(b), Head(a));
        assert !Same(At(a, 0), At(b, 0));
      }
    }
  }

  lemma {:induction false} GteTotal(a: seq<Part>, b: seq<Part>)
    ensures Gte(a, b) || Gte(b, a)
    decreases |a| + |b|
  {
    if a != [] || b != [] {
      GteTotal(Tail(a), Tail(b));
    }
  }

  lemma {:induction false} GteTransitive(a: seq<Part>, b: seq<Part>, c: seq<Part>)
    requires Gte(a, b) && Gte(b, c)
    ensures Gte(a, c)
    decreases |a| + |b| + |c|
  {
    if a != [] || b != [] || c != [] {
      if !Less(Head(b), Head(a)) && !Less(Head(c), Head(b)) {
        if a == [] && b == [] {
          assert Gte(Tail(a), Tail(b));
        }
        if b == [] && c == [] {
          assert Gte(Tail(b), Tail(c));
        }
        GteTransitive(Tail(a), Tail(b), Tail(c));
      }
    }
  }

  lemma {:induction false} ZerosAtTheEnd(a: seq<Part>)
    ensures Gte(a, a + [ZERO]) && Gte(a + [ZERO], a)
    decreases |a|
  {
    if a == [] {
      assert Tail([ZERO]) == [];
    } else {
      assert (a + [ZERO])[1..] == a[1..] + [ZERO];
      ZerosAtTheEnd(a[1..]);
    }
  }

  lemma ZeroSegment()
    ensures ParseSegment("0") == ZERO
  {
    assert DashAt("0") == -1;
    assert LeadingDigits("0", 0) == LeadingDigits("", 0);
  }

  /** Appending `.0` to a version changes nothing. */
  lemma TrailingZeroIsNeutral(v: string)
    ensures Gte(ParseVersion(v), ParseVersion(v + ".0")) && Gte(ParseVersion(v + ".0"), ParseVersion(v))
  {
    SplitAppend(v, ".0", '.');
    var last := Last(Split(v, '.'));
    SplitPieces(v, '.');
    assert last + ".0" == last + ['.'] + "0";
    SplitLine(last, '.', "0");
    SplitWithoutSeparator("0", '.');
    assert Split(v + ".0", '.') == Split(v, '.') + ["0"];
    ZeroSegment();
    MapSnoc(ParseSegment, Split(v, '.'), "0");
    ZerosAtTheEnd(ParseVersion(v));
  }

  /** The comparison is a total preorder on versions. */
  lemma TotalPreorder(a: string, b: string, c: string)
    ensures Gte(ParseVersion(a), ParseVersion(b)) || Gte(ParseVersion(b), ParseVersion(a))
    ensures Gte(ParseVersion(a), ParseVersion(b)) && Gte(ParseVersion(b), ParseVersion(c)) ==>
              Gte(ParseVersion(a), ParseVersion(c))
  {
    GteTotal(ParseVersion(a), ParseVersion(b));
    if Gte(ParseVersion(a), ParseVersion(b)) && Gte(ParseVersion(b), ParseVersion(c)) {
      GteTransitive(ParseVersion(a), ParseVersion(b), ParseVersion(c));
    }
  }

  lemma {:induction false} NoDash(s: string)
    requires '-' !in s
    ensures DashAt(s) == -1
  {
    if s != "" {
      NoDash(s[1..]);
    }
  }

  lemma {:induction false} FirstDash(s: string, pre: string)
    requires '-' !in s
    ensures DashAt(s + "-" + pre) == |s|
  {
    if s == "" {
      assert (s + "-" + pre)[0] == '-';
    } else {
      assert (s + "-" + pre)[1..] == s[1..] + "-" + pre;
      FirstDash(s[1..], pre);
    }
  }

  lemma {:induction false} LastSegmentLess(a: seq<Part>, p: Part, q: Part)
    requires Less(p, q)
    ensures !Gte(a + [p], a + [q])
  {
    if a == [] {
      assert Head(a + [p]) == p && Head(a + [q]) == q;
    } else {
      assert (a + [p])[1..] == a[1..] + [p] && (a + [q])[1..] == a[1..] + [q];
      LastSegmentLess(a[1..], p, q);
    }
  }

  /** Text without a dot extends the last segment. */
  lemma LastSegmentGrows(v: string, tail: string)
    requires '.' !in tail
    ensures Split(v + tail, '.') == DropLast(Split(v, '.')) + [Last(Split(v, '.')) + tail]
  {
    SplitAppend(v, tail, '.');
    SplitPieces(v, '.');
    SplitWithoutSeparator(Last(Split(v, '.')) + tail, '.');
  }

  lemma PreReleaseSegment(segment: string, pre: string)
    requires '-' !in segment && pre != ""
    ensures Less(ParseSegment(segment + ("-" + pre)), ParseSegment(segment))
  {
    var s := segment + "-" + pre;
    assert segment + ("-" + pre) == s;
    FirstDash(segment, pre);
    NoDash(segment);
    assert s[..|segment|] == segment && s[|segment| + 1..] == pre;
  }

  /** A pre-release of a clean version is strictly less than the version. */
  lemma PreReleaseIsLess(v: string, pre: string)
    requires '-' !in v && '.' !in pre && pre != ""
    ensures !Gte(ParseVersion(v + ("-" + pre)), ParseVersion(v))
  {
    var tail := "-" + pre;
    LastSegmentGrows(v, tail);
    LastPieceNoDash(v);
    var init, last := DropLast(Split(v, '.')), Last(Split(v, '.'));
    assert Split(v, '.') == init + [last];
    PreReleaseSegment(last, pre);
    MapSnoc(ParseSegment, init, last);
    MapSnoc(ParseSegment, init, last + tail);
    LastSegmentLess(ParseSegments(init), ParseSegment(last + tail), ParseSegment(last));
  }

  lemma {:induction false} LastPieceNoDash(v: string)
    requires '-' !in v
    ensures forall i | 0 <= i < |Split(v, '.')| :: '-' !in Split(v, '.')[i]
  {
    if v != "" {
      LastPieceNoDash(v[1..]);
    }
  }

  // ---- versions of numbers ----

  lemma {:induction false} DigitsInTwo(s: string, rest: string, soFar: int)
    requires forall c | c in s :: IsDigit(c)
    ensures LeadingDigits(s + rest, soFar) == LeadingDigits(rest, LeadingDigits(s, soFar))
  {
    if s == "" {
      assert s + rest == rest;
    } else {
      assert (s + rest)[0] == s[0] && (s + rest)[1..] == s[1..] + rest;
      assert s[0] in s && forall c | c in s[1..] :: c in s;
      DigitsInTwo(s[1..], rest, soFar * 10 + (s[0] as int - '0' as int));
    }
  }

  lemma {:induction false} DecimalIsRead(n: nat)
    ensures LeadingDigits(Decimal(n), 0) == n
  {
    var last := [('0' as int + n % 10) as char];
    assert last[1..] == "";
    if n >= 10 {
      DecimalIsRead(n / 10);
      DigitsInTwo(Decimal(n / 10), last, 0);
    }
  }

  /** A segment in decimal digits is its number. */
  lemma SegmentIsNumber(n: nat)
    ensures ParseSegment(Decimal(n)) == Part(n, "") && '.' !in Decimal(n)
  {
    var s := Decimal(n);
    DecimalIsRead(n);
    assert s[0] in s;
    assert IsDecimal(s[0]);
    NoDash(s);
  }

  lemma NextSegment(segment: string, rest: string)
    requires '.' !in segment
    ensures ParseVersion(segment + ['.'] + rest) == [ParseSegment(segment)] + ParseVersion(rest)
  {
    SplitLine(segment, '.', rest);
    MapCons(ParseSegment, segment, Split(rest, '.'));
  }

  lemma LastSegment(segment: string)
    requires '.' !in segment
    ensures ParseVersion(segment) == [ParseSegment(segment)]
  {
    SplitWithoutSeparator(segment, '.');
  }

  /** A version of three numbers is read as these. */
  lemma VersionOfNumbers(a: nat, b: nat, c: nat)
    ensures ParseVersion(Decimal(a) + ['.'] + (Decimal(b) + ['.'] + Decimal(c))) ==
            [Part(a, "")] + ([Part(b, "")] + [Part(c, "")])
  {
    SegmentIsNumber(a);
    SegmentIsNumber(b);
    SegmentIsNumber(c);
    NextSegment(Decimal(a), Decimal(b) + ['.'] + Decimal(c));
    NextSegment(Decimal(b), Decimal(c));
    LastSegment(Decimal(c));
  }

  lemma FirstDecides(x: Part, p: seq<Part>, y: Part, q: seq<Part>)
    ensures Gte([x] + p, [y] + q) <==> Less(y, x) || (!Less(x, y) && Gte(p, q))
  {
    assert ([x] + p)[1..] == p && ([y] + q)[1..] == q;
  }

  /** Versions of numbers are ordered as numbers, the first that differs deciding: 1.10.0 is more than 1.9.9. */
  lemma NumbersDecide(a: nat, b: nat, c: nat, x: nat, y: nat, z: nat)
    ensures Gte([Part(a, "")] + ([Part(b, "")] + [Part(c, "")]), [Part(x, "")] + ([Part(y, "")] + [Part(z, "")]))
       <==> a > x || (a == x && (b > y || (b == y && c >= z)))
  {
    FirstDecides(Part(a, ""), [Part(b, "")] + [Part(c, "")], Part(x, ""), [Part(y, "")] + [Part(z, "")]);
    FirstDecides(Part(b, ""), [Part(c, "")], Part(y, ""), [Part(z, "")]);
    FirstDecides(Part(c, ""), [], Part(z, ""), []);
    assert [Part(c, "")] + [] == [Part(c, "")] && [Part(z, "")] + [] == [Part(z, "")];
  }
}
