/** Plain JavaScript objects used as dictionaries: inherited names and the order of own keys. */
module JsObject {
  import opened Wrappers
  import opened Strings

  /** Every plain object answers to these names without owning them. */
  const PROTOTYPE_NAMES: set<string> := {
    "constructor", "hasOwnProperty", "isPrototypeOf", "propertyIsEnumerable", "toLocaleString", "toString",
    "valueOf", "__proto__", "__defineGetter__", "__defineSetter__", "__lookupGetter__", "__lookupSetter__"
  }

  /** Assigning to this name sets the prototype and creates no property. */
  const PROTO := "__proto__"

  const MAX_INDEX := 0xFFFF_FFFE

  function Digits(k: string): Option<nat> {
    if k == "" then Some(0)
    else
      var init := Digits(DropLast(k));
      var c := Last(k);
      if init.Some? && '0' <= c <= '9' then Some(init.value * 10 + (c as int - '0' as int)) else None
  }

  /** The number of a canonical array index: digits without a leading zero. */
  function IndexOf(k: string): Option<nat> {
    var n := Digits(k);
    if k != "" && (k == "0" || k[0] != '0') && n.Some? && n.value <= MAX_INDEX then n else None
  }

  predicate Before(a: string, b: string) {
    IndexOf(a).Some? && (IndexOf(b).None? || IndexOf(a).value < IndexOf(b).value)
  }

  function Place(k: string, keys: seq<string>): seq<string> {
    if keys == [] then [k]
    else if Before(k, keys[0]) then [k] + keys
    else [keys[0]] + Place(k, keys[1..])
  }

  /** `Object.keys` for keys in order of first insertion: array indices in ascending order, then the other names. */
  function OwnKeys(inserted: seq<string>): seq<string> {
    if inserted == [] then [] else Place(Last(inserted), OwnKeys(DropLast(inserted)))
  }

  ghost predicate NoRepeat<T>(s: seq<T>) {
    forall i, j | 0 <= i < j < |s| :: s[i] != s[j]
  }

  lemma {:induction false} PlaceElements(k: string, keys: seq<string>)
    ensures forall x :: x in Place(k, keys) <==> x == k || x in keys
    ensures NoRepeat(keys) && k !in keys ==> NoRepeat(Place(k, keys))
  {
    if keys != [] {
      PlaceElements(k, keys[1..]);
      assert keys == [keys[0]] + keys[1..];
      if NoRepeat(keys) && k !in keys && !Before(k, keys[0]) {
        var p := Place(k, keys[1..]);
        forall i, j | 0 <= i < j < |[keys[0]] + p| ensures ([keys[0]] + p)[i] != ([keys[0]] + p)[j] {
          assert ([keys[0]] + p)[j] == p[j - 1];
          assert p[j - 1] in p;
        }
      }
    }
  }

  /** Own keys are the inserted names, each once. */
  lemma {:induction false} OwnKeysElements(inserted: seq<string>)
    ensures forall x :: x in OwnKeys(inserted) <==> x in inserted
    ensures NoRepeat(inserted) ==> NoRepeat(OwnKeys(inserted))
  {
    if inserted != [] {
      var init := DropLast(inserted);
      OwnKeysElements(init);
      PlaceElements(Last(inserted), OwnKeys(init));
      assert inserted == init + [Last(inserted)];
      assert NoRepeat(inserted) ==> Last(inserted) !in init;
    }
  }

  /** No array index comes after another name or after a larger index. */
  ghost predicate InOrder(keys: seq<string>) {
    forall i, j | 0 <= i < j < |keys| :: !Before(keys[j], keys[i])
  }

  lemma {:induction false} PlaceInOrder(k: string, keys: seq<string>)
    requires InOrder(keys)
    ensures InOrder(Place(k, keys))
  {
    if keys != [] {
      if Before(k, keys[0]) {
        forall j | 0 <= j < |keys| ensures !Before(keys[j], k) {
          assert j > 0 ==> !Before(keys[j], keys[0]);
        }
      } else {
        PlaceInOrder(k, keys[1..]);
        PlaceElements(k, keys[1..]);
        var p := Place(k, keys[1..]);
        forall j | 0 <= j < |p| ensures !Before(p[j], keys[0]) {
          assert p[j] in p;
          if p[j] != k {
            var m :| 0 <= m < |keys[1..]| && keys[1..][m] == p[j];
            assert keys[m + 1] == p[j];
          }
        }
      }
    }
  }

  lemma {:induction false} OwnKeysInOrder(inserted: seq<string>)
    ensures InOrder(OwnKeys(inserted))
  {
    if inserted != [] {
      OwnKeysInOrder(DropLast(inserted));
      PlaceInOrder(Last(inserted), OwnKeys(DropLast(inserted)));
    }
  }

  lemma {:induction false} DigitsOfDecimal(n: nat)
    ensures Digits(Decimal(n)) == Some(n) && (n > 0 ==> Decimal(n)[0] != '0')
  {
    var last := ('0' as int + n % 10) as char;
    if n < 10 {
      assert DropLast([last]) == "";
    } else {
      DigitsOfDecimal(n / 10);
      assert DropLast(Decimal(n)) == Decimal(n / 10) && Last(Decimal(n)) == last;
    }
  }

  lemma {:induction false} CanonicalDigits(k: string)
    requires k != "" && (k == "0" || k[0] != '0') && Digits(k).Some?
    ensures k == Decimal(Digits(k).value)
  {
    var init, c := DropLast(k), Last(k);
    assert k == init + [c];
    if init != "" {
      CanonicalDigits(init);
      DigitsOfDecimal(Digits(init).value);
      assert Decimal(0) == "0";
    }
  }

  /** The names that count as array indexes are the numbers below 2^32 - 1, in decimal digits as they are printed. */
  lemma IndexIs(k: string, n: nat)
    ensures IndexOf(k) == Some(n) <==> n < 4_294_967_295 && k == Decimal(n)
  {
    if IndexOf(k) == Some(n) {
      CanonicalDigits(k);
    }
    if k == Decimal(n) {
      DigitsOfDecimal(n);
    }
  }

  /** The name is that array index. */
  predicate IsIndex(k: string, n: nat) {
    n < 4_294_967_295 && k == Decimal(n)
  }

  /** Indexes are ordered as numbers, and before every other name. */
  lemma BeforeIff(a: string, b: string)
    ensures Before(a, b) <==>
            (exists m :: IsIndex(a, m)) && forall m, n | IsIndex(a, m) && IsIndex(b, n) :: m < n
  {
    forall m: nat ensures IsIndex(a, m) <==> IndexOf(a) == Some(m) {
      IndexIs(a, m);
    }
    forall n: nat ensures IsIndex(b, n) <==> IndexOf(b) == Some(n) {
      IndexIs(b, n);
    }
    if IndexOf(a).Some? {
      assert IsIndex(a, IndexOf(a).value);
    }
    if IndexOf(b).Some? {
      assert IsIndex(b, IndexOf(b).value);
    }
  }

  /** The names that are no indexes. */
  function Others(keys: seq<string>): seq<string> {
    if keys == [] then [] else Others(DropLast(keys)) + if IndexOf(Last(keys)).None? then [Last(keys)] else []
  }

  lemma {:induction false} OthersAppend(a: seq<string>, b: seq<string>)
    ensures Others(a + b) == Others(a) + Others(b)
  {
    if b == [] {
      assert a + b == a;
    } else {
      assert DropLast(a + b) == a + DropLast(b) && Last(a + b) == Last(b);
      OthersAppend(a, DropLast(b));
    }
  }

  lemma OthersOne(k: string)
    ensures Others([k]) == if IndexOf(k).None? then [k] else []
  {
    assert DropLast([k]) == [];
  }

  lemma {:induction false} PlaceOthers(k: string, keys: seq<string>)
    ensures Others(Place(k, keys)) == Others(keys) + if IndexOf(k).None? then [k] else []
  {
    OthersOne(k);
    if keys != [] {
      OthersAppend([k], keys);
      OthersAppend([keys[0]], keys[1..]);
      OthersAppend([keys[0]], Place(k, keys[1..]));
      assert [keys[0]] + keys[1..] == keys;
      PlaceOthers(k, keys[1..]);
    }
  }

  /** Names that are no indexes keep the order in which they were inserted. */
  lemma {:induction false} OthersInInsertionOrder(inserted: seq<string>)
    ensures Others(OwnKeys(inserted)) == Others(inserted)
  {
    if inserted != [] {
      OthersInInsertionOrder(DropLast(inserted));
      PlaceOthers(Last(inserted), OwnKeys(DropLast(inserted)));
    }
  }
}
