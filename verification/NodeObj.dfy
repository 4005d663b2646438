/**
 Rust values turned into JavaScript values and back: which values come back equal. JavaScript numbers
 are doubles; integers are rounded to them as the `as f64` cast does.
 */
module NodeObj {
  import opened Wrappers

  datatype Double = Finite(r: real) | NotFinite(bits: nat)

  /** Integers of the Rust types i8 to u64. */
  type Integer = n: int | -0x8000_0000_0000_0000 <= n <= 0xFFFF_FFFF_FFFF_FFFF

  datatype Rust =
    | Absent                              // None and ()
    | Boolean(b: bool)
    | Text(s: string)
    | Number(n: Integer)
    | Float(d: Double)
    | List(items: seq<Rust>)
    | Dict(entries: map<string, Rust>)    // a map or a struct
    | OddKeys                             // a map with keys that are not strings
    | Unsupported                         // bytes, tuples, enum variants, newtype structs

  datatype Js =
    | Undefined
    | Null
    | Callable                            // a function
    | Foreign                             // a symbol or a bigint
    | Bool(b: bool)
    | Str(s: string)
    | Num(d: Double)
    | Array(items: seq<Js>)
    | Object(own: map<string, Js>)        // the own properties

  /** Setting this property sets the prototype of the object instead. */
  const PROTO := "__proto__"

  // ---- doubles ----

  const EXACT := 0x20_0000_0000_0000  // 2^53

  /** The distance of neighbouring doubles around a magnitude: a power of two. */
  function Spacing(m: nat, u: nat): (r: nat)
    requires u >= 1
    ensures r >= u && m <= EXACT * r
    decreases m - EXACT * u
  {
    if m <= EXACT * u then u else Spacing(m, 2 * u)
  }

  /** The multiple of u nearest to n, the even one of two. */
  function RoundTo(n: int, u: nat): int
    requires u >= 1
  {
    var q, r := n / u, n % u;
    if 2 * r < u || (2 * r == u && q % 2 == 0) then q * u else (q + 1) * u
  }

  function Abs(n: int): nat {
    if n < 0 then -n else n
  }

  /** `n as f64`. */
  function ToDouble(n: int): int {
    RoundTo(n, Spacing(Abs(n), 1))
  }

  lemma SmallIntegersAreExact(n: int)
    requires Abs(n) <= EXACT
    ensures ToDouble(n) == n
  {
  }

  // ---- serializing ----

  function Serialized(v: Rust): Option<Js> {
    match v
    case Absent => Some(Undefined)
    case Boolean(b) => Some(Bool(b))
    case Text(s) => Some(Str(s))
    case Number(n) => Some(Num(Finite(ToDouble(n) as real)))
    case Float(d) => Some(Num(d))
    case List(items) =>
      if forall i | 0 <= i < |items| :: Serialized(items[i]).Some? then
        Some(Array(seq(|items|, i requires 0 <= i < |items| && Serialized(items[i]).Some? =>
            Serialized(items[i]).value)))
      else None
    case Dict(entries) =>
      if forall k | k in entries :: Serialized(entries[k]).Some? then
        Some(Object(map k | k in entries && k != PROTO :: Serialized(entries[k]).value))
      else None
    case OddKeys => None
    case Unsupported => None
  }

  method Serialize(v: Rust) returns (r: Option<Js>)
    ensures r == Serialized(v)
    decreases v, 1
  {
    match v {
      case List(items) => r := SerializeSeq(v, items);
      case Dict(entries) => r := SerializeMap(v, entries);
      case _ => r := Serialized(v);
    }
  }

  /** The seq serializer: an array is filled index by index. */
  method SerializeSeq(ghost v: Rust, items: seq<Rust>) returns (r: Option<Js>)
    requires v == List(items)
    ensures r == Serialized(v)
    decreases v, 0
  {
    var elements: seq<Js> := [];
    for lastId := 0 to |items|
      invariant |elements| == lastId
      invariant forall i | 0 <= i < lastId :: Serialized(items[i]) == Some(elements[i])
    {
      var value := Serialize(items[lastId]);
      if value.None? {
        return None;
      }
      elements := elements + [value.value];
    }
    assert Serialized(v).Some? && Serialized(v).value.items == elements;
    return Some(Array(elements));
  }

  /** The map serializer: one property is set after the other, in any order. */
  method SerializeMap(ghost v: Rust, entries: map<string, Rust>) returns (r: Option<Js>)
    requires v == Dict(entries)
    ensures r == Serialized(v)
    decreases v, 0
  {
    var obj: map<string, Js> := map[];
    var todo := entries.Keys;
    while todo != {}
      invariant todo <= entries.Keys
      invariant forall k | k in entries && k !in todo :: Serialized(entries[k]).Some?
      invariant obj.Keys == entries.Keys - todo - {PROTO}
      invariant forall k | k in obj :: Serialized(entries[k]) == Some(obj[k])
      decreases |todo|
    {
      var k :| k in todo;
      var value := Serialize(entries[k]);
      if value.None? {
        return None;
      }
      if k != PROTO {
        obj := obj[k := value.value];
      }
      todo := todo - {k};
    }
    assert Serialized(v).Some? && Serialized(v).value.own == obj;
    return Some(Object(obj));
  }

  // ---- deserializing ----

  datatype Visit = U8 | U16 | U32 | U64 | I8 | I16 | I32 | I64

  const TWO64 := 0x1_0000_0000_0000_0000
  const TWO63 := 0x8000_0000_0000_0000

  /** The width a whole number is visited with; the bounds of the widest types are themselves rounded to doubles. */
  function Cascade(x: int): Option<Visit> {
    if 0 <= x <= 0xFF then Some(U8)
    else if 0 <= x <= 0xFFFF then Some(U16)
    else if 0 <= x <= 0xFFFF_FFFF then Some(U32)
    else if 0 <= x <= TWO64 then Some(U64)
    else if -0x80 <= x <= 0x7F then Some(I8)
    else if -0x8000 <= x <= 0x7FFF then Some(I16)
    else if -0x8000_0000 <= x <= 0x7FFF_FFFF then Some(I32)
    else if -TWO63 <= x <= TWO63 then Some(I64)
    else None
  }

  /** `value as u64` and the other casts: exact in range, and 2^64 saturates. */
  function Cast(x: int): Integer
    requires Cascade(x).Some?
  {
    if x == TWO64 then TWO64 - 1 else x
  }

  predicate Whole(r: real) {
    r == r.Floor as real
  }

  function NumberRead(d: Double): Option<Rust> {
    if d.NotFinite? || !Whole(d.r) then Some(Float(d))
    else if Cascade(d.r.Floor).Some? then Some(Number(Cast(d.r.Floor)))
    else None
  }

  function Deserialized(v: Js): Option<Rust> {
    match v
    case Undefined => Some(Absent)
    case Null => Some(Absent)
    case Callable => Some(Absent)
    case Foreign => None
    case Bool(b) => Some(Boolean(b))
    case Str(s) => Some(Text(s))
    case Num(d) => NumberRead(d)
    case Array(items) =>
      if forall i | 0 <= i < |items| :: Deserialized(items[i]).Some? then
        Some(List(seq(|items|, i requires 0 <= i < |items| && Deserialized(items[i]).Some? =>
            Deserialized(items[i]).value)))
      else None
    case Object(own) =>
      if forall k | k in own :: Deserialized(own[k]).Some? then
        Some(Dict(map k | k in own :: Deserialized(own[k]).value))
      else None
  }

  /** `deserialize_any`, with the index of the array accessor and the keys of the object accessor advancing. */
  method Deserialize(v: Js) returns (r: Option<Rust>)
    ensures r == Deserialized(v)
    decreases v
  {
    match v {
      case Array(items) =>
        var list: seq<Rust> := [];
        var index := 0;
        while index < |items|
          invariant 0 <= index <= |items| && |list| == index
          invariant forall i | 0 <= i < index :: Deserialized(items[i]) == Some(list[i])
        {
          var value := Deserialize(items[index]);
          index := index + 1;
          if value.None? {
            return None;
          }
          list := list + [value.value];
        }
        assert Deserialized(v).Some? && Deserialized(v).value.items == list;
        return Some(List(list));
      case Object(own) =>
        var dict: map<string, Rust> := map[];
        var keys := own.Keys;
        while keys != {}
          invariant keys <= own.Keys
          invariant dict.Keys == own.Keys - keys
          invariant forall k | k in dict :: Deserialized(own[k]) == Some(dict[k])
          decreases |keys|
        {
          var k :| k in keys;
          var value := Deserialize(own[k]);
          if value.None? {
            return None;
          }
          dict := dict[k := value.value];
          keys := keys - {k};
        }
        assert Deserialized(v).Some? && Deserialized(v).value.entries == dict;
        return Some(Dict(dict));
      case _ =>
        return Deserialized(v);
    }
  }

  // ---- there and back ----

  function RoundTrip(v: Rust): Option<Rust> {
    if Serialized(v).Some? then Deserialized(Serialized(v).value) else None
  }

  /** The values that come back: a condition on the tree alone. */
  ghost predicate Survives(v: Rust) {
    match v
    case Number(n) => ToDouble(n) == n || n == TWO64 - 1
    case Float(d) => d.NotFinite? || !Whole(d.r)
    case List(items) => forall i | 0 <= i < |items| :: Survives(items[i])
    case Dict(entries) => PROTO !in entries && forall k | k in entries :: Survives(entries[k])
    case OddKeys => false
    case Unsupported => false
    case _ => true
  }

  predicate IsUnit(u: nat) {
    u in {1, 2, 4, 8, 16, 32, 64, 128, 256, 512, 1024, 2048}
  }

  lemma {:induction false} SpacingIsUnit(m: nat, u: nat)
    requires IsUnit(u) && m <= TWO64
    ensures IsUnit(Spacing(m, u))
    decreases m - EXACT * u
  {
    if m > EXACT * u {
      assert EXACT * 2048 == TWO64;
      SpacingIsUnit(m, 2 * u);
    }
  }

  lemma Ordered(a: int, b: int, u: nat)
    requires u >= 1
    ensures a < b ==> a * u + u <= b * u
    ensures b < a ==> b * u + u <= a * u
  {
    if a < b {
      assert (b - a - 1) * u >= 0;
    } else if b < a {
      assert (a - b - 1) * u >= 0;
    }
  }

  lemma RoundBounds(n: int, u: nat, a: int, b: int)
    requires u >= 1 && a * u <= n <= b * u
    ensures a * u <= RoundTo(n, u) <= b * u
  {
    var q := n / u;
    assert q * u <= n < q * u + u;
    Ordered(q, a, u);
    Ordered(q, b, u);
    assert (q + 1) * u == q * u + u;
  }

  /** Rounding stays within the range that the cascade reads. */
  lemma ToDoubleBounds(n: Integer)
    ensures -TWO63 <= ToDouble(n) <= TWO64
  {
    var u := Spacing(Abs(n), 1);
    SpacingIsUnit(Abs(n), 1);
    assert TWO64 % u == 0 && TWO63 % u == 0;
    RoundBounds(n, u, -(TWO63 / u), TWO64 / u);
  }

  lemma LargestRoundsUp()
    ensures ToDouble(TWO64 - 1) == TWO64
  {
    var m := TWO64 - 1;
    assert Spacing(m, 2048) == 2048;
    assert Spacing(m, 512) == 2048;
    assert Spacing(m, 128) == 2048;
    assert Spacing(m, 32) == 2048;
    assert Spacing(m, 8) == 2048;
    assert Spacing(m, 2) == 2048;
    assert Spacing(m, 1) == 2048;
  }

  /** An integer comes back if and only if a double can hold it, or it is the largest of u64, which saturates back. */
  lemma NumberRoundTrip(n: Integer)
    ensures RoundTrip(Number(n)) == Some(Number(n)) <==> Survives(Number(n))
    ensures RoundTrip(Number(n)).Some?
  {
    ToDoubleBounds(n);
    LargestRoundsUp();
    var x := ToDouble(n);
    assert (x as real).Floor == x;
  }

  /** A tree comes back equal if and only if its leaves do and no key is called __proto__. */
  lemma {:induction false} RoundTripIff(v: Rust)
    ensures RoundTrip(v) == Some(v) <==> Survives(v)
    decreases v, 1
  {
    match v {
      case Number(n) => NumberRoundTrip(n);
      case List(items) => ListRoundTrip(v);
      case Dict(entries) => DictRoundTrip(v);
      case _ =>
    }
  }

  lemma {:induction false} ListRoundTrip(v: Rust)
    requires v.List?
    ensures RoundTrip(v) == Some(v) <==> Survives(v)
    decreases v, 0
  {
    var items := v.items;
    forall i | 0 <= i < |items| ensures RoundTrip(items[i]) == Some(items[i]) <==> Survives(items[i]) {
      RoundTripIff(items[i]);
    }
    if Survives(v) {
      assert forall i | 0 <= i < |items| :: Survives(items[i]);
      assert forall i | 0 <= i < |items| :: Serialized(items[i]).Some?;
      var js := Serialized(v).value;
      assert forall i | 0 <= i < |items| :: Deserialized(js.items[i]) == Some(items[i]);
      assert Deserialized(js).Some? && Deserialized(js).value.items == items;
    }
    if RoundTrip(v) == Some(v) {
      var js := Serialized(v).value;
      var back := Deserialized(js).value;
      forall i | 0 <= i < |items| ensures Survives(items[i]) {
        assert back.items[i] == items[i];
        assert js.items[i] == Serialized(items[i]).value;
        assert Deserialized(js.items[i]) == Some(back.items[i]);
      }
    }
  }

  lemma {:induction false} DictRoundTrip(v: Rust)
    requires v.Dict?
    ensures RoundTrip(v) == Some(v) <==> Survives(v)
    decreases v, 0
  {
    var entries := v.entries;
    forall k | k in entries ensures RoundTrip(entries[k]) == Some(entries[k]) <==> Survives(entries[k]) {
      RoundTripIff(entries[k]);
    }
    if Survives(v) {
      assert forall k | k in entries :: Serialized(entries[k]).Some?;
      var js := Serialized(v).value;
      assert forall k | k in entries :: Deserialized(js.own[k]) == Some(entries[k]);
      assert js.own.Keys == entries.Keys;
      var back := Deserialized(js).value;
      assert back.entries == entries;
    }
    if RoundTrip(v) == Some(v) {
      var js := Serialized(v).value;
      var back := Deserialized(js).value;
      assert PROTO !in entries by {
        assert back.entries.Keys == js.own.Keys;
      }
      forall k | k in entries ensures Survives(entries[k]) {
        assert back.entries[k] == entries[k];
        assert Deserialized(js.own[k]) == Some(entries[k]);
      }
    }
  }

  /** Ordinary data: integers of magnitude at most 2^53, fractions, texts, lists and dictionaries without __proto__. */
  ghost predicate Ordinary(v: Rust) {
    match v
    case Number(n) => Abs(n) <= EXACT
    case Float(d) => d.NotFinite? || !Whole(d.r)
    case List(items) => forall i | 0 <= i < |items| :: Ordinary(items[i])
    case Dict(entries) => PROTO !in entries && forall k | k in entries :: Ordinary(entries[k])
    case OddKeys => false
    case Unsupported => false
    case _ => true
  }

  lemma {:induction false} OrdinarySurvives(v: Rust)
    requires Ordinary(v)
    ensures Survives(v)
    decreases v
  {
    match v {
      case Number(n) => SmallIntegersAreExact(n);
      case List(items) =>
        forall i | 0 <= i < |items| ensures Survives(items[i]) {
          OrdinarySurvives(items[i]);
        }
      case Dict(entries) =>
        forall k | k in entries ensures Survives(entries[k]) {
          OrdinarySurvives(entries[k]);
        }
      case _ =>
    }
  }

  /** Every ordinary tree comes back equal. */
  lemma OrdinaryRoundTrip(v: Rust)
    requires Ordinary(v)
    ensures RoundTrip(v) == Some(v)
  {
    OrdinarySurvives(v);
    RoundTripIff(v);
  }

  /** 2^53 + 1 is the first integer that does not come back; a whole float comes back as an integer. */
  lemma FirstLosses()
    ensures RoundTrip(Number(EXACT + 1)) != Some(Number(EXACT + 1))
    ensures RoundTrip(Float(Finite(3.0))) == Some(Number(3))
  {
    NumberRoundTrip(EXACT + 1);
    assert Spacing(EXACT + 1, 2) == 2;
    assert (3.0).Floor == 3;
  }

  function Low(w: Visit): int {
    match w
    case U8 => 0 case U16 => 0 case U32 => 0 case U64 => 0
    case I8 => -0x80 case I16 => -0x8000 case I32 => -0x8000_0000 case I64 => -TWO63
  }

  function High(w: Visit): int {
    match w
    case U8 => 0xFF case U16 => 0xFFFF case U32 => 0xFFFF_FFFF case U64 => TWO64 - 1
    case I8 => 0x7F case I16 => 0x7FFF case I32 => 0x7FFF_FFFF case I64 => TWO63 - 1
  }

  predicate Holds(w: Visit, x: int) {
    Low(w) <= x <= High(w)
  }

  predicate Unsigned(w: Visit) {
    w.U8? || w.U16? || w.U32? || w.U64?
  }

  /**
   The cascade visits with the narrowest width of its kind that holds the value, unsigned for all but
   negative numbers.
   */
  lemma CascadeIsNarrowest(x: int, w: Visit)
    requires -TWO63 <= x <= TWO64
    ensures Cascade(x).Some? && Holds(Cascade(x).value, Cast(x)) && (Unsigned(Cascade(x).value) <==> x >= 0)
    ensures Unsigned(w) == Unsigned(Cascade(x).value) && Holds(w, Cast(x)) ==>
              High(Cascade(x).value) <= High(w) && Low(Cascade(x).value) >= Low(w)
  {
  }

  // ---- one direction at a time ----

  /** A list becomes an array index by index, a map an object key by key, and the leaves keep their values. */
  lemma JsOf(b: bool, s: string, d: Double, items: seq<Rust>, entries: map<string, Rust>)
    ensures Serialized(Boolean(b)) == Some(Bool(b)) && Serialized(Text(s)) == Some(Str(s))
    ensures Serialized(Float(d)) == Some(Num(d)) && Serialized(Absent) == Some(Undefined)
    ensures Serialized(List(items)).Some? <==> forall i | 0 <= i < |items| :: Serialized(items[i]).Some?
    ensures Serialized(List(items)).Some? ==>
              var a := Serialized(List(items)).value;
              && a.Array? && |a.items| == |items|
              && forall i | 0 <= i < |items| :: Serialized(items[i]) == Some(a.items[i])
    ensures Serialized(Dict(entries)).Some? <==> forall k | k in entries :: Serialized(entries[k]).Some?
    ensures Serialized(Dict(entries)).Some? ==>
              var o := Serialized(Dict(entries)).value;
              && o.Object? && o.own.Keys == entries.Keys - {PROTO}
              && forall k | k in o.own :: Serialized(entries[k]) == Some(o.own[k])
  {
  }

  lemma RustOf(b: bool, s: string, items: seq<Js>, own: map<string, Js>)
    ensures Deserialized(Bool(b)) == Some(Boolean(b)) && Deserialized(Str(s)) == Some(Text(s))
    ensures Deserialized(Null) == Deserialized(Undefined) == Deserialized(Callable) == Some(Absent)
    ensures Deserialized(Array(items)).Some? <==> forall i | 0 <= i < |items| :: Deserialized(items[i]).Some?
    ensures Deserialized(Array(items)).Some? ==>
              var l := Deserialized(Array(items)).value;
              && l.List? && |l.items| == |items|
              && forall i | 0 <= i < |items| :: Deserialized(items[i]) == Some(l.items[i])
    ensures Deserialized(Object(own)).Some? <==> forall k | k in own :: Deserialized(own[k]).Some?
    ensures Deserialized(Object(own)).Some? ==>
              var m := Deserialized(Object(own)).value;
              && m.Dict? && m.entries.Keys == own.Keys
              && forall k | k in own :: Deserialized(own[k]) == Some(m.entries[k])
  {
  }

  /** A whole number is read as itself if it fits 64 bits, 2^64 as the largest one, anything larger not at all. */
  lemma WholeNumbersRead(x: int)
    ensures NumberRead(Finite(x as real)) ==
            if -TWO63 <= x < TWO64 then Some(Number(x)) else if x == TWO64 then Some(Number(TWO64 - 1)) else None
  {
    assert (x as real).Floor == x;
  }

  /** No multiple of the unit is nearer than the one rounded to; of two that are equally near, it is the even one. */
  lemma NearestMultiple(n: int, u: nat, k: int)
    requires u >= 1
    ensures Abs(RoundTo(n, u) - n) <= Abs(k * u - n)
    ensures RoundTo(n, u) == k * u || Abs(RoundTo(n, u) - n) < Abs(k * u - n) || k % 2 == 1
  {
    var q := n / u;
    assert n == q * u + n % u && (q + 1) * u == q * u + u;
    Ordered(k, q, u);
    Ordered(k, q + 1, u);
  }

  /** The unit of a magnitude is the least power of two of which 2^53 reach it. */
  lemma {:induction false} SpacingIs(m: nat, u: nat)
    requires u >= 1
    ensures m <= EXACT * Spacing(m, u)
    ensures Spacing(m, u) == u || EXACT * Spacing(m, u) < 2 * m
    decreases m - EXACT * u
  {
    if m > EXACT * u {
      SpacingIs(m, 2 * u);
    }
  }
}
