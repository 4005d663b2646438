/** JavaScript string operations: split, join and the white space that trim removes. */
module Strings {

  /** `s.split(c)` for a one-character separator. */
  function Split(s: string, c: char): (parts: seq<string>)
    ensures |parts| >= 1
  {
    if s == "" then [""]
    else
      var rest := Split(s[1..], c);
      if s[0] == c then [""] + rest else [[s[0]] + rest[0]] + rest[1..]
  }

  function Last<T>(s: seq<T>): T
    requires |s| > 0
  {
    s[|s| - 1]
  }

  function DropLast<T>(s: seq<T>): seq<T>
    requires |s| > 0
  {
    s[..|s| - 1]
  }

  /** The pieces of a text with one more character in front. */
  function Front(x: char, r: seq<string>, c: char): seq<string>
    requires |r| >= 1
  {
    if x == c then [""] + r else [[x] + r[0]] + r[1..]
  }

  lemma SplitFront(x: char, s: string, c: char)
    ensures Split([x] + s, c) == Front(x, Split(s, c), c)
  {
    assert ([x] + s)[1..] == s;
  }

  lemma DropLastCons<T>(h: T, r: seq<T>)
    requires |r| >= 1
    ensures DropLast([h] + r) == [h] + DropLast(r) && Last([h] + r) == Last(r)
  {
  }

  lemma LongKeepsEnd(x: char, r: seq<string>, tail: seq<string>)
    requires |r| > 1
    ensures var front := [[x] + r[0]] + r[1..];
      && Last(front) == Last(r)
      && [[x] + (DropLast(r) + tail)[0]] + (DropLast(r) + tail)[1..] == DropLast(front) + tail
  {
    var h, rest := r[0], r[1..];
    assert r == [h] + rest;
    DropLastCons(h, rest);
    DropLastCons([x] + h, rest);
    var init := DropLast(rest);
    assert [h] + init + tail == [h] + (init + tail);
    assert ([h] + (init + tail))[1..] == init + tail;
  }

  lemma FrontKeepsEnd(x: char, r: seq<string>, tail: seq<string>, c: char)
    requires |r| >= 1 && |tail| >= 1 && (x == c || |r| > 1)
    ensures Last(Front(x, r, c)) == Last(r)
    ensures Front(x, DropLast(r) + tail, c) == DropLast(Front(x, r, c)) + tail
  {
    if x == c {
      DropLastCons("", r);
      assert [""] + (DropLast(r) + tail) == [""] + DropLast(r) + tail;
    } else {
      LongKeepsEnd(x, r, tail);
    }
  }

  lemma FrontAppend(x: char, r: seq<string>, b: string, c: char)
    requires |r| >= 1
    ensures Front(x, DropLast(r) + Split(Last(r) + b, c), c) ==
            DropLast(Front(x, r, c)) + Split(Last(Front(x, r, c)) + b, c)
  {
    var tail := Split(Last(r) + b, c);
    if x != c && |r| == 1 {
      SplitFront(x, r[0] + b, c);
      assert [x] + (r[0] + b) == [x] + r[0] + b;
      assert DropLast(r) + tail == tail;
    } else {
      FrontKeepsEnd(x, r, tail, c);
    }
  }

  /** Splitting can stop after any prefix and resume from the unfinished piece. */
  lemma {:induction false} SplitAppend(a: string, b: string, c: char)
    ensures Split(a + b, c) == DropLast(Split(a, c)) + Split(Last(Split(a, c)) + b, c)
  {
    if a == "" {
      assert a + b == b;
    } else {
      assert (a + b)[1..] == a[1..] + b;
      SplitAppend(a[1..], b, c);
      FrontAppend(a[0], Split(a[1..], c), b, c);
    }
  }

  lemma {:induction false} SplitWithoutSeparator(s: string, c: char)
    requires c !in s
    ensures Split(s, c) == [s]
  {
    if s != "" {
      SplitWithoutSeparator(s[1..], c);
      assert [s[0]] + s[1..] == s;
    }
  }

  /** The pieces never contain the separator. */
  lemma {:induction false} SplitPieces(s: string, c: char)
    ensures forall i | 0 <= i < |Split(s, c)| :: c !in Split(s, c)[i]
  {
    if s != "" {
      SplitPieces(s[1..], c);
    }
  }

  /** A terminated line is the first piece; what follows is split on its own. */
  lemma {:induction false} SplitLine(line: string, c: char, rest: string)
    requires c !in line
    ensures Split(line + [c] + rest, c) == [line] + Split(rest, c)
  {
    var s := line + [c] + rest;
    if line == "" {
      assert s[1..] == rest;
    } else {
      assert s[1..] == line[1..] + [c] + rest;
      SplitLine(line[1..], c, rest);
      assert [line[0]] + line[1..] == line;
    }
  }

  /** Every line with its terminator behind it. */
  function Terminated(lines: seq<string>, c: char): string {
    if lines == [] then "" else lines[0] + [c] + Terminated(lines[1..], c)
  }

  lemma {:induction false} SplitLines(lines: seq<string>, c: char)
    requires forall line | line in lines :: c !in line
    ensures Split(Terminated(lines, c), c) == lines + [""]
  {
    if lines != [] {
      SplitLines(lines[1..], c);
      SplitLine(lines[0], c, Terminated(lines[1..], c));
      assert [lines[0]] + (lines[1..] + [""]) == lines + [""];
    }
  }

  lemma {:induction false} TerminatedAppend(a: seq<string>, b: seq<string>, c: char)
    ensures Terminated(a + b, c) == Terminated(a, c) + Terminated(b, c)
  {
    if a == [] {
      assert a + b == b;
    } else {
      assert (a + b)[1..] == a[1..] + b;
      TerminatedAppend(a[1..], b, c);
    }
  }

  lemma TerminatedCons(line: string, rest: seq<string>, c: char)
    ensures Terminated([line] + rest, c) == line + [c] + Terminated(rest, c)
  {
    assert ([line] + rest)[1..] == rest;
  }

  function Flatten<T>(parts: seq<seq<T>>): seq<T> {
    if parts == [] then [] else parts[0] + Flatten(parts[1..])
  }

  lemma {:induction false} FlattenAppend<T>(a: seq<seq<T>>, b: seq<seq<T>>)
    ensures Flatten(a + b) == Flatten(a) + Flatten(b)
  {
    if a == [] {
      assert a + b == b;
    } else {
      assert (a + b)[1..] == a[1..] + b;
      FlattenAppend(a[1..], b);
    }
  }

  lemma FlattenSnoc<T>(a: seq<seq<T>>, x: seq<T>)
    ensures Flatten(a + [x]) == Flatten(a) + x
  {
    FlattenAppend(a, [x]);
  }

  function Map<A, B>(f: A -> B, xs: seq<A>): (r: seq<B>)
    ensures |r| == |xs| && forall i | 0 <= i < |xs| :: r[i] == f(xs[i])
  {
    seq(|xs|, i requires 0 <= i < |xs| => f(xs[i]))
  }

  lemma MapAppend<A, B>(f: A -> B, a: seq<A>, b: seq<A>)
    ensures Map(f, a + b) == Map(f, a) + Map(f, b)
  {
  }

  lemma MapCons<A, B>(f: A -> B, x: A, xs: seq<A>)
    ensures Map(f, [x] + xs) == [f(x)] + Map(f, xs)
  {
  }

  lemma MapSnoc<A, B>(f: A -> B, xs: seq<A>, x: A)
    ensures Map(f, xs + [x]) == Map(f, xs) + [f(x)]
  {
  }

  /** `parts.join(d)`. */
  function Join(parts: seq<string>, d: string): string {
    if parts == [] then ""
    else if |parts| == 1 then parts[0]
    else parts[0] + d + Join(parts[1..], d)
  }

  ghost predicate Free(parts: seq<string>, c: char) {
    forall i | 0 <= i < |parts| :: c !in parts[i]
  }

  /** Two words that a separator ends at the same text end at the same place. */
  lemma FirstSeparator(a: string, b: string, c: char, x: string, y: string)
    requires c !in a && c !in b
    requires a + [c] + x == b + [c] + y
    ensures a == b && x == y
  {
    var s, t := a + [c] + x, b + [c] + y;
    assert s[|a|] == c && t[|b|] == c;
    assert forall i | 0 <= i < |b| :: t[i] == b[i];
    assert forall i | 0 <= i < |a| :: s[i] == a[i];
    assert a == s[..|a|] && b == t[..|b|];
    assert x == s[|a| + 1..] && y == t[|b| + 1..];
  }

  /** Lists of the same length whose words avoid the delimiter's first character are told apart by their joins. */
  lemma {:induction false} JoinInjective(p: seq<string>, q: seq<string>, d: string)
    requires |p| == |q| && d != "" && Free(p, d[0]) && Free(q, d[0])
    requires Join(p, d) == Join(q, d)
    ensures p == q
  {
    if |p| > 1 {
      var x, y := Join(p[1..], d), Join(q[1..], d);
      assert p[0] + d + x == p[0] + [d[0]] + (d[1..] + x);
      assert q[0] + d + y == q[0] + [d[0]] + (d[1..] + y);
      FirstSeparator(p[0], q[0], d[0], d[1..] + x, d[1..] + y);
      assert x == (d[1..] + x)[|d| - 1..] && y == (d[1..] + y)[|d| - 1..];
      JoinInjective(p[1..], q[1..], d);
      assert p == [p[0]] + p[1..] && q == [q[0]] + q[1..];
    }
  }

  predicate IsDecimal(c: char) { '0' <= c <= '9' }

  /** A number in decimal digits. */
  function Decimal(n: nat): (s: string)
    ensures s != "" && forall c | c in s :: IsDecimal(c)
  {
    var last := [('0' as int + n % 10) as char];
    if n < 10 then last else Decimal(n / 10) + last
  }

  /** The characters `trim` removes (ECMAScript white space and line terminators). */
  predicate IsSpace(c: char) {
    c in "\t\n\r \U{000B}\U{000C}\U{00A0}\U{FEFF}\U{1680}\U{202F}\U{205F}\U{3000}\U{2028}\U{2029}"
    || '\U{2000}' <= c <= '\U{200A}'
  }

  /** `!s.trim()`: nothing is left of s once white space is removed. */
  predicate Blank(s: string) {
    forall c | c in s :: IsSpace(c)
  }
}
