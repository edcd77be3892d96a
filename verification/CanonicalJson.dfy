/**
 The canonical JSON text of an artifact's data part: two values have the same
 text exactly when they are the same JSON value.
 */
module CanonicalJson {
  import opened Outcomes
  import opened Utf16
  import opened JsonText

  // ---- Property order -----------------------------------------------------------

  predicate IsDigits(t: Text) {
    forall i | 0 <= i < |t| :: 0x30 <= t[i] <= 0x39
  }

  function DecimalValue(t: Text): nat
    requires IsDigits(t)
  {
    if t == [] then 0 else 10 * DecimalValue(t[..|t| - 1]) + (t[|t| - 1] - 0x30)
  }

  /** The greatest array index, 2^32 - 2. */
  const MAX_INDEX := 0xFFFF_FFFE

  /** Keys that objects enumerate first: array indices in their canonical decimal form. */
  predicate IsIndex(key: Text) {
    key != [] && IsDigits(key) && (key[0] != 0x30 || |key| == 1) && DecimalValue(key) <= MAX_INDEX
  }

  predicate IsName(key: Text) {
    !IsIndex(key)
  }

  predicate IndexLess(a: Text, b: Text) {
    IsIndex(a) && IsIndex(b) && DecimalValue(a) < DecimalValue(b)
  }

  function Insert<N>(before: (Text, Text) -> bool, m: Member<N>, ms: seq<Member<N>>): seq<Member<N>> {
    if ms == [] || before(m.key, ms[0].key) then [m] + ms else [ms[0]] + Insert(before, m, ms[1..])
  }

  function Sort<N>(before: (Text, Text) -> bool, ms: seq<Member<N>>): seq<Member<N>> {
    if ms == [] then [] else Insert(before, ms[0], Sort(before, ms[1..]))
  }

  function Select<N>(wanted: Text -> bool, ms: seq<Member<N>>): seq<Member<N>> {
    if ms == [] then []
    else (if wanted(ms[0].key) then [ms[0]] else []) + Select(wanted, ms[1..])
  }

  /** How an object enumerates members added in the given order. */
  function Enumerated<N>(added: seq<Member<N>>): seq<Member<N>> {
    Sort(IndexLess, Select(IsIndex, added)) + Select(IsName, added)
  }

  /** The members as the canonical object enumerates them: it adds them in sorted key order. */
  function Arranged<N>(ms: seq<Member<N>>): seq<Member<N>> {
    Enumerated(Sort(Less, ms))
  }

  // ---- Canonical values and text ---------------------------------------------------

  /** Whether canonicalization accepts a value; it refuses numbers that are not finite and foreign values. */
  predicate Acceptable<N>(v: Json<N>) {
    match v
    case Num(n) => !n.NotFinite?
    case Arr(items) => forall i | 0 <= i < |items| :: Acceptable(items[i])
    case Obj(members) => forall i | 0 <= i < |members| :: Acceptable(members[i].value)
    case Foreign => false
    case _ => true
  }

  function CanonicalNumber<N>(zero: N, n: Number<N>): Number<N> {
    if n.NegativeZero? then Finite(zero) else n
  }

  function CanonicalValue<N>(zero: N, v: Json<N>): Json<N> {
    match v
    case Num(n) => Num(CanonicalNumber(zero, n))
    case Arr(items) => Arr(CanonicalItems(zero, items))
    case Obj(members) => Obj(Arranged(CanonicalMembers(zero, members)))
    case _ => v
  }

  function CanonicalItems<N>(zero: N, items: seq<Json<N>>): (r: seq<Json<N>>)
    ensures |r| == |items|
    ensures forall i | 0 <= i < |items| :: r[i] == CanonicalValue(zero, items[i])
  {
    if items == [] then [] else [CanonicalValue(zero, items[0])] + CanonicalItems(zero, items[1..])
  }

  function CanonicalMembers<N>(zero: N, members: seq<Member<N>>): (r: seq<Member<N>>)
    ensures |r| == |members|
    ensures forall i | 0 <= i < |members| :: r[i] == Member(members[i].key, CanonicalValue(zero, members[i].value))
  {
    if members == [] then []
    else [Member(members[0].key, CanonicalValue(zero, members[0].value))] + CanonicalMembers(zero, members[1..])
  }

  function CanonicalText<N>(format: NumberFormat<N>, zero: N, v: Json<N>): Option<Text> {
    if Acceptable(v) then Some(Print(format, CanonicalValue(zero, v))) else None
  }

  // ---- The same JSON value ------------------------------------------------------------

  ghost predicate DistinctKeys<N>(ms: seq<Member<N>>) {
    forall i, j | 0 <= i < j < |ms| :: ms[i].key != ms[j].key
  }

  /** Objects never have two members of one name. */
  ghost predicate IsValue<N>(v: Json<N>) {
    match v
    case Arr(items) => forall i | 0 <= i < |items| :: IsValue(items[i])
    case Obj(ms) => DistinctKeys(ms) && forall i | 0 <= i < |ms| :: IsValue(ms[i].value)
    case _ => true
  }

  ghost function Keys<N>(ms: seq<Member<N>>): set<Text> {
    set i | 0 <= i < |ms| :: ms[i].key
  }

  /** Equality of JSON values: objects are finite maps, whatever their order, and -0 is 0. */
  ghost predicate Same<N>(zero: N, a: Json<N>, b: Json<N>) {
    match (a, b)
    case (Num(n), Num(m)) => CanonicalNumber(zero, n) == CanonicalNumber(zero, m)
    case (Arr(xs), Arr(ys)) => |xs| == |ys| && forall i | 0 <= i < |xs| :: Same(zero, xs[i], ys[i])
    case (Obj(ms), Obj(ns)) =>
      Keys(ms) == Keys(ns)
      && forall i, j | 0 <= i < |ms| && 0 <= j < |ns| && ms[i].key == ns[j].key :: Same(zero, ms[i].value, ns[j].value)
    case _ => a == b
  }

  // ---- Sorting ------------------------------------------------------------------------

  ghost predicate Sorted<N>(before: (Text, Text) -> bool, ms: seq<Member<N>>) {
    forall i, j | 0 <= i < j < |ms| :: before(ms[i].key, ms[j].key)
  }

  /** A strict total order on the keys that satisfy `on`. */
  ghost predicate TotalOrder(before: (Text, Text) -> bool, on: Text -> bool) {
    && (forall a, b, c | on(a) && on(b) && on(c) && before(a, b) && before(b, c) :: before(a, c))
    && (forall a, b | on(a) && on(b) && a != b :: before(a, b) || before(b, a))
  }

  ghost predicate AllKeys<N>(on: Text -> bool, ms: seq<Member<N>>) {
    forall i | 0 <= i < |ms| :: on(ms[i].key)
  }

  lemma {:induction false} InsertContents<N(!new)>(before: (Text, Text) -> bool, m: Member<N>, ms: seq<Member<N>>)
    ensures multiset(Insert(before, m, ms)) == multiset([m]) + multiset(ms)
  {
    if ms != [] && !before(m.key, ms[0].key) {
      InsertContents(before, m, ms[1..]);
      assert ms == [ms[0]] + ms[1..];
    }
  }

  lemma {:induction false} SortContents<N(!new)>(before: (Text, Text) -> bool, ms: seq<Member<N>>)
    ensures multiset(Sort(before, ms)) == multiset(ms)
  {
    if ms != [] {
      SortContents(before, ms[1..]);
      InsertContents(before, ms[0], Sort(before, ms[1..]));
      assert ms == [ms[0]] + ms[1..];
    }
  }

  lemma SameMembers<N(!new)>(a: seq<Member<N>>, b: seq<Member<N>>)
    requires multiset(a) == multiset(b)
    ensures forall m :: m in a <==> m in b
  {
    forall m ensures m in a <==> m in b {
      assert m in a <==> m in multiset(a);
      assert m in b <==> m in multiset(b);
    }
  }

  lemma KeysOfContents<N(!new)>(on: Text -> bool, a: seq<Member<N>>, b: seq<Member<N>>)
    requires (forall m :: m in a ==> m in b) && AllKeys(on, b)
    ensures AllKeys(on, a)
  {
    forall i | 0 <= i < |a| ensures on(a[i].key) {
      var m := a[i];
      assert m in a;
      assert m in b;
    }
  }

  lemma {:induction false} InsertSorted<N(!new)>(before: (Text, Text) -> bool, on: Text -> bool, m: Member<N>, ms: seq<Member<N>>)
    requires TotalOrder(before, on) && AllKeys(on, ms) && on(m.key)
    requires Sorted(before, ms) && forall i | 0 <= i < |ms| :: ms[i].key != m.key
    ensures Sorted(before, Insert(before, m, ms))
  {
    if ms == [] {
    } else if before(m.key, ms[0].key) {
      forall i | 0 <= i < |ms| ensures before(m.key, ms[i].key) {
        if i > 0 { assert before(ms[0].key, ms[i].key); }
      }
    } else {
      InsertSorted(before, on, m, ms[1..]);
      InsertContents(before, m, ms[1..]);
      var rest := Insert(before, m, ms[1..]);
      forall i | 0 <= i < |rest| ensures before(ms[0].key, rest[i].key) {
        assert rest[i] in multiset(rest);
        assert rest[i] == m || rest[i] in ms[1..];
      }
    }
  }

  lemma {:induction false} SortSorted<N(!new)>(before: (Text, Text) -> bool, on: Text -> bool, ms: seq<Member<N>>)
    requires TotalOrder(before, on) && AllKeys(on, ms) && DistinctKeys(ms)
    ensures Sorted(before, Sort(before, ms))
  {
    if ms != [] {
      SortSorted(before, on, ms[1..]);
      var rest := Sort(before, ms[1..]);
      SortContents(before, ms[1..]);
      SameMembers(rest, ms[1..]);
      KeysOfContents((key: Text) => on(key) && key != ms[0].key, rest, ms[1..]);
      InsertSorted(before, on, ms[0], rest);
    }
  }

  lemma {:induction false} SelectMembers<N(!new)>(wanted: Text -> bool, ms: seq<Member<N>>)
    ensures forall m :: m in Select(wanted, ms) <==> m in ms && wanted(m.key)
  {
    if ms != [] {
      SelectMembers(wanted, ms[1..]);
      assert ms == [ms[0]] + ms[1..];
    }
  }

  lemma {:induction false} SelectSorted<N(!new)>(before: (Text, Text) -> bool, wanted: Text -> bool, ms: seq<Member<N>>)
    requires Sorted(before, ms)
    ensures Sorted(before, Select(wanted, ms))
  {
    if ms != [] {
      SelectSorted(before, wanted, ms[1..]);
      SelectMembers(wanted, ms[1..]);
      var rest := Select(wanted, ms[1..]);
      KeysOfContents((key: Text) => before(ms[0].key, key), rest, ms[1..]);
    }
  }

  lemma LessIsTotal()
    ensures TotalOrder(Less, _ => true)
  {
    forall a, b, c | Less(a, b) && Less(b, c) ensures Less(a, c) {
      LessTransitive(a, b, c);
    }
    forall a, b: Text | a != b ensures Less(a, b) || Less(b, a) {
      LessTotal(a, b);
    }
  }

  lemma {:induction false} DecimalBounds(t: Text)
    requires t != [] && IsDigits(t) && t[0] != 0x30
    ensures DecimalValue(t) >= 1
    ensures |t| > 1 ==> DecimalValue(t) >= 10
  {
    if |t| > 1 {
      DecimalBounds(t[..|t| - 1]);
    }
  }

  /** Decimal forms without leading zeros are determined by their value. */
  lemma {:induction false} DecimalInjective(a: Text, b: Text)
    requires a != [] && IsDigits(a) && (a[0] != 0x30 || |a| == 1)
    requires b != [] && IsDigits(b) && (b[0] != 0x30 || |b| == 1)
    requires DecimalValue(a) == DecimalValue(b)
    ensures a == b
    decreases |a|
  {
    var a', b' := a[..|a| - 1], b[..|b| - 1];
    var x, y := DecimalValue(a'), DecimalValue(b');
    assert 10 * x + (a[|a| - 1] - 0x30) == 10 * y + (b[|b| - 1] - 0x30);
    assert x == y && a[|a| - 1] == b[|b| - 1];
    assert a == a' + [a[|a| - 1]] && b == b' + [b[|b| - 1]];
    if |a| > 1 && |b| > 1 {
      DecimalInjective(a', b');
    } else if |a| > 1 {
      DecimalBounds(a');
    } else if |b| > 1 {
      DecimalBounds(b');
    }
  }

  lemma IndexLessIsTotal()
    ensures TotalOrder(IndexLess, IsIndex)
  {
    forall a, b | IsIndex(a) && IsIndex(b) && a != b ensures IndexLess(a, b) || IndexLess(b, a) {
      if DecimalValue(a) == DecimalValue(b) {
        DecimalInjective(a, b);
      }
    }
  }

  // ---- The enumeration order is a function of the key set -------------------------------

  /** The order of the canonical object's keys: array indices by value, then the others by code units. */
  predicate KeyOrder(a: Text, b: Text) {
    if IsIndex(a) then !IsIndex(b) || DecimalValue(a) < DecimalValue(b)
    else !IsIndex(b) && Less(a, b)
  }

  lemma KeyOrderAsymmetric(a: Text, b: Text)
    ensures !(KeyOrder(a, b) && KeyOrder(b, a))
  {
    LessAsymmetric(a, b);
  }

  lemma DistinctWhenSorted<N(!new)>(ms: seq<Member<N>>)
    requires Sorted(Less, ms)
    ensures DistinctKeys(ms)
  {
    forall i, j | 0 <= i < j < |ms| ensures ms[i].key != ms[j].key {
      assert Less(ms[i].key, ms[j].key);
      LessAsymmetric(ms[i].key, ms[j].key);
    }
  }

  lemma ArrangedMembers<N(!new)>(ms: seq<Member<N>>)
    ensures forall m :: m in Arranged(ms) <==> m in ms
  {
    var added := Sort(Less, ms);
    SortContents(Less, ms);
    SameMembers(added, ms);
    SelectMembers(IsIndex, added);
    SelectMembers(IsName, added);
    SortContents(IndexLess, Select(IsIndex, added));
    SameMembers(Sort(IndexLess, Select(IsIndex, added)), Select(IsIndex, added));
  }

  lemma PartsInOrder<N(!new)>(indexed: seq<Member<N>>, named: seq<Member<N>>)
    requires Sorted(IndexLess, indexed) && AllKeys(IsIndex, indexed)
    requires Sorted(Less, named) && AllKeys(IsName, named)
    ensures Sorted(KeyOrder, indexed + named)
  {
    var all := indexed + named;
    forall i, j | 0 <= i < j < |all| ensures KeyOrder(all[i].key, all[j].key) {
      assert i < |indexed| ==> IsIndex(all[i].key);
      assert j >= |indexed| ==> IsName(all[j].key);
    }
  }

  lemma SelectedKeys<N(!new)>(wanted: Text -> bool, ms: seq<Member<N>>)
    ensures AllKeys(wanted, Select(wanted, ms))
  {
    SelectMembers(wanted, ms);
    forall i | 0 <= i < |Select(wanted, ms)| ensures wanted(Select(wanted, ms)[i].key) {
      assert Select(wanted, ms)[i] in Select(wanted, ms);
    }
  }

  lemma SortedIndices<N(!new)>(indexed: seq<Member<N>>)
    requires Sorted(Less, indexed) && AllKeys(IsIndex, indexed)
    ensures Sorted(IndexLess, Sort(IndexLess, indexed)) && AllKeys(IsIndex, Sort(IndexLess, indexed))
  {
    DistinctWhenSorted(indexed);
    IndexLessIsTotal();
    SortSorted(IndexLess, IsIndex, indexed);
    var first := Sort(IndexLess, indexed);
    SortContents(IndexLess, indexed);
    SameMembers(first, indexed);
    KeysOfContents(IsIndex, first, indexed);
  }

  lemma ArrangedSorted<N(!new)>(ms: seq<Member<N>>)
    requires DistinctKeys(ms)
    ensures Sorted(KeyOrder, Arranged(ms))
  {
    var added := Sort(Less, ms);
    LessIsTotal();
    SortSorted(Less, _ => true, ms);
    SelectSorted(Less, IsName, added);
    SelectedKeys(IsName, added);
    SelectSorted(Less, IsIndex, added);
    SelectedKeys(IsIndex, added);
    SortedIndices(Select(IsIndex, added));
    PartsInOrder(Sort(IndexLess, Select(IsIndex, added)), Select(IsName, added));
  }

  /** Two lists in key order with the same members are the same list. */
  lemma {:induction false} SortedUnique<N(!new)>(a: seq<Member<N>>, b: seq<Member<N>>)
    requires Sorted(KeyOrder, a) && Sorted(KeyOrder, b)
    requires forall m :: m in a <==> m in b
    ensures a == b
  {
    if a == [] {
      assert forall i | 0 <= i < |b| :: b[i] in b;
    } else {
      assert a[0] in b;
      HeadsAgree(a, b);
      forall m ensures m in a[1..] <==> m in b[1..] {
        TailMembers(a, m);
        TailMembers(b, m);
      }
      SortedUnique(a[1..], b[1..]);
      assert a == [a[0]] + a[1..] && b == [b[0]] + b[1..];
    }
  }

  lemma HeadsAgree<N(!new)>(a: seq<Member<N>>, b: seq<Member<N>>)
    requires Sorted(KeyOrder, a) && Sorted(KeyOrder, b) && a != [] && b != []
    requires forall m :: m in a <==> m in b
    ensures a[0] == b[0]
  {
    assert a[0] in b && b[0] in a;
    var i :| 0 <= i < |b| && b[i] == a[0];
    var j :| 0 <= j < |a| && a[j] == b[0];
    KeyOrderAsymmetric(a[0].key, b[0].key);
  }

  lemma TailMembers<N(!new)>(ms: seq<Member<N>>, m: Member<N>)
    requires Sorted(KeyOrder, ms) && ms != []
    ensures m in ms[1..] <==> m in ms && m != ms[0]
  {
    if m in ms[1..] {
      var i :| 0 <= i < |ms[1..]| && ms[1..][i] == m;
      assert KeyOrder(ms[0].key, ms[i + 1].key);
      KeyOrderAsymmetric(m.key, m.key);
    }
    if m in ms && m != ms[0] {
      var i :| 0 <= i < |ms| && ms[i] == m;
      assert ms[1..][i - 1] == m;
    }
  }

  /** The canonical order depends on the members alone, not on the order they were given in. */
  lemma ArrangedUnique<N(!new)>(a: seq<Member<N>>, b: seq<Member<N>>)
    requires DistinctKeys(a) && DistinctKeys(b)
    ensures Arranged(a) == Arranged(b) <==> forall m :: m in a <==> m in b
  {
    ArrangedMembers(a);
    ArrangedMembers(b);
    if forall m :: m in a <==> m in b {
      ArrangedSorted(a);
      ArrangedSorted(b);
      SortedUnique(Arranged(a), Arranged(b));
    }
  }

  // ---- Canonical values decide sameness ---------------------------------------------------

  /** Canonicalization identifies exactly the values that are the same. */
  lemma {:induction false} CanonicalValueDecides<N(!new)>(zero: N, a: Json<N>, b: Json<N>)
    requires IsValue(a) && IsValue(b)
    ensures CanonicalValue(zero, a) == CanonicalValue(zero, b) <==> Same(zero, a, b)
    decreases a, 1
  {
    match (a, b)
    case (Arr(xs), Arr(ys)) =>
      if |xs| == |ys| {
        forall i | 0 <= i < |xs|
          ensures CanonicalValue(zero, xs[i]) == CanonicalValue(zero, ys[i]) <==> Same(zero, xs[i], ys[i])
        {
          CanonicalValueDecides(zero, xs[i], ys[i]);
        }
      }
    case (Obj(ms), Obj(ns)) =>
      CanonicalObjectsDecide(zero, ms, ns);
    case _ =>
  }

  lemma {:induction false} CanonicalObjectsDecide<N(!new)>(zero: N, ms: seq<Member<N>>, ns: seq<Member<N>>)
    requires IsValue(Obj(ms)) && IsValue(Obj(ns))
    ensures CanonicalValue(zero, Obj(ms)) == CanonicalValue(zero, Obj(ns)) <==> Same(zero, Obj(ms), Obj(ns))
    decreases ms, 2
  {
    var cms, cns := CanonicalMembers(zero, ms), CanonicalMembers(zero, ns);
    forall i, j | 0 <= i < |ms| && 0 <= j < |ns|
      ensures CanonicalValue(zero, ms[i].value) == CanonicalValue(zero, ns[j].value)
              <==> Same(zero, ms[i].value, ns[j].value)
    {
      CanonicalValueDecides(zero, ms[i].value, ns[j].value);
    }
    ArrangedUnique(cms, cns);
    ImagesDecide(v => CanonicalValue(zero, v), ms, ns, cms, cns);
  }

  // ---- Members and their images -------------------------------------------------------

  /** The members with their values mapped. */
  ghost predicate IsImage<N>(value: Json<N> -> Json<N>, ms: seq<Member<N>>, image: seq<Member<N>>) {
    |image| == |ms| && forall i | 0 <= i < |ms| :: image[i] == Member(ms[i].key, value(ms[i].value))
  }

  /** Every member of the second sequence is a member of the first. */
  ghost predicate Covers<N(!new)>(a: seq<Member<N>>, b: seq<Member<N>>) {
    forall m :: m in b ==> m in a
  }

  ghost predicate Agree<N>(value: Json<N> -> Json<N>, ms: seq<Member<N>>, ns: seq<Member<N>>) {
    forall i, j | 0 <= i < |ms| && 0 <= j < |ns| && ms[i].key == ns[j].key :: value(ms[i].value) == value(ns[j].value)
  }

  lemma MemberIndex<N(!new)>(m: Member<N>, ns: seq<Member<N>>) returns (j: nat)
    requires m in ns
    ensures j < |ns| && ns[j] == m
  {
    j :| 0 <= j < |ns| && ns[j] == m;
  }

  lemma KeysCovered<N(!new)>(value: Json<N> -> Json<N>, ms: seq<Member<N>>, ns: seq<Member<N>>, cms: seq<Member<N>>, cns: seq<Member<N>>)
    requires IsImage(value, ms, cms) && IsImage(value, ns, cns) && Covers(cns, cms)
    ensures Keys(ms) <= Keys(ns)
  {
    forall i | 0 <= i < |ms| ensures ms[i].key in Keys(ns) {
      assert cms[i] in cms;
      var j := MemberIndex(cms[i], cns);
      assert ns[j].key == ms[i].key;
    }
  }

  lemma CoveredAgree<N(!new)>(value: Json<N> -> Json<N>, ms: seq<Member<N>>, ns: seq<Member<N>>, cms: seq<Member<N>>, cns: seq<Member<N>>)
    requires IsImage(value, ms, cms) && IsImage(value, ns, cns) && Covers(cns, cms) && DistinctKeys(ns)
    ensures Agree(value, ms, ns)
  {
    forall i, j | 0 <= i < |ms| && 0 <= j < |ns| && ms[i].key == ns[j].key ensures value(ms[i].value) == value(ns[j].value) {
      assert cms[i] in cms;
      var k := MemberIndex(cms[i], cns);
      assert ns[k].key == ns[j].key;
    }
  }

  lemma AgreeCovers<N(!new)>(value: Json<N> -> Json<N>, ms: seq<Member<N>>, ns: seq<Member<N>>, cms: seq<Member<N>>, cns: seq<Member<N>>)
    requires IsImage(value, ms, cms) && IsImage(value, ns, cns) && Keys(ms) <= Keys(ns) && Agree(value, ms, ns)
    ensures Covers(cns, cms)
  {
    forall i | 0 <= i < |cms| ensures cms[i] in cns {
      assert ms[i].key in Keys(ns);
      var j :| 0 <= j < |ns| && ns[j].key == ms[i].key;
      assert cns[j] == cms[i];
    }
  }

  /** Two images have the same members exactly when the keys are the same and the values at each key agree. */
  lemma ImagesDecide<N(!new)>(value: Json<N> -> Json<N>, ms: seq<Member<N>>, ns: seq<Member<N>>, cms: seq<Member<N>>, cns: seq<Member<N>>)
    requires IsImage(value, ms, cms) && IsImage(value, ns, cns) && DistinctKeys(ms) && DistinctKeys(ns)
    ensures (forall m :: m in cms <==> m in cns) <==> Keys(ms) == Keys(ns) && Agree(value, ms, ns)
  {
    if Covers(cns, cms) && Covers(cms, cns) {
      KeysCovered(value, ms, ns, cms, cns);
      KeysCovered(value, ns, ms, cns, cms);
      CoveredAgree(value, ms, ns, cms, cns);
    }
    if Keys(ms) == Keys(ns) && Agree(value, ms, ns) {
      AgreeCovers(value, ms, ns, cms, cns);
      AgreeCovers(value, ns, ms, cns, cms);
    }
  }

  lemma PrintableContents<N(!new)>(a: seq<Member<N>>, b: seq<Member<N>>)
    requires (forall m :: m in a ==> m in b) && Printable(Obj(b))
    ensures Printable(Obj(a))
  {
    forall i | 0 <= i < |a| ensures Printable(a[i].value) {
      var m := a[i];
      assert m in a;
      assert m in b;
    }
  }

  lemma {:induction false} CanonicalIsPrintable<N(!new)>(zero: N, v: Json<N>)
    requires Acceptable(v)
    ensures Printable(CanonicalValue(zero, v))
    decreases v
  {
    match v
    case Arr(items) =>
      forall i | 0 <= i < |items| ensures Printable(CanonicalValue(zero, items[i])) {
        CanonicalIsPrintable(zero, items[i]);
      }
    case Obj(ms) =>
      var cms := CanonicalMembers(zero, ms);
      forall i | 0 <= i < |ms| ensures Printable(cms[i].value) {
        CanonicalIsPrintable(zero, ms[i].value);
      }
      ArrangedMembers(cms);
      PrintableContents(Arranged(cms), cms);
    case _ =>
  }

  /** A value is refused exactly for a number that is not finite or a foreign value, itself or anywhere inside. */
  lemma RefusedExactlyWhen<N(!new)>(format: NumberFormat<N>, zero: N, v: Json<N>)
    ensures v.Null? || v.Bool? || v.Str? ==> CanonicalText(format, zero, v).Some?
    ensures v.Foreign? ==> CanonicalText(format, zero, v).None?
    ensures v.Num? ==> (CanonicalText(format, zero, v).None? <==> v.number.NotFinite?)
    ensures v.Arr? ==>
              (CanonicalText(format, zero, v).None? <==> exists i :: 0 <= i < |v.items| && CanonicalText(format, zero, v.items[i]).None?)
    ensures v.Obj? ==>
              (CanonicalText(format, zero, v).None? <==> exists i :: 0 <= i < |v.members| && CanonicalText(format, zero, v.members[i].value).None?)
  {
    if v.Arr? {
      assert forall i | 0 <= i < |v.items| :: CanonicalText(format, zero, v.items[i]).None? <==> !Acceptable(v.items[i]);
    } else if v.Obj? {
      assert forall i | 0 <= i < |v.members| :: CanonicalText(format, zero, v.members[i].value).None? <==> !Acceptable(v.members[i].value);
    }
  }

  /** The canonical text can be read back as the canonical value. */
  lemma CanonicalTextReadsBack<N(!new)>(format: NumberFormat<N>, zero: N, v: Json<N>)
    requires Faithful(format) && Acceptable(v)
    ensures Read(format, CanonicalText(format, zero, v).value) == Some((CanonicalValue(zero, v), []))
  {
    CanonicalIsPrintable(zero, v);
    ReadInvertsPrint(format, CanonicalValue(zero, v), []);
    assert Print(format, CanonicalValue(zero, v)) + [] == Print(format, CanonicalValue(zero, v));
  }

  /** Canonical JSON is canonical: equal texts exactly for the same JSON value. */
  lemma CanonicalTextDecides<N(!new)>(format: NumberFormat<N>, zero: N, a: Json<N>, b: Json<N>)
    requires Faithful(format) && IsValue(a) && IsValue(b) && Acceptable(a) && Acceptable(b)
    ensures CanonicalText(format, zero, a) == CanonicalText(format, zero, b) <==> Same(zero, a, b)
  {
    CanonicalTextReadsBack(format, zero, a);
    CanonicalTextReadsBack(format, zero, b);
    CanonicalValueDecides(zero, a, b);
  }

  // ---- The number format assumption can be met -----------------------------------------------

  function DecimalText(n: nat): (t: Text)
    ensures t != [] && IsDigits(t)
  {
    if n < 10 then [0x30 + n] else DecimalText(n / 10) + [0x30 + n % 10]
  }

  lemma {:induction false} DecimalRoundTrip(n: nat)
    ensures DecimalValue(DecimalText(n)) == n
  {
    var t := DecimalText(n);
    if n < 10 {
      assert t[..0] == [];
    } else {
      DecimalRoundTrip(n / 10);
      assert t[..|t| - 1] == DecimalText(n / 10);
    }
  }

  function DecimalFormat(): NumberFormat<nat> {
    NumberFormat(n => DecimalText(n), (t: Text) => if IsDigits(t) then Some(DecimalValue(t)) else None)
  }

  /** Decimal printing of natural numbers is a faithful number format. */
  lemma DecimalFormatIsFaithful()
    ensures Faithful(DecimalFormat())
  {
    var format := DecimalFormat();
    forall n: nat ensures IsNumberText(format.show(n)) && format.read(format.show(n)) == Some(n) {
      DecimalRoundTrip(n);
    }
  }

  // ---- The order of keys, by their text -----------------------------------------------------------

  lemma {:induction false} NoLeadingZero(n: nat)
    ensures DecimalText(n)[0] != 0x30 || |DecimalText(n)| == 1
    ensures n > 0 ==> DecimalText(n)[0] != 0x30
  {
    if n >= 10 { NoLeadingZero(n / 10); }
  }

  /** An integer-like key is the decimal form of a number below 2^32 - 1. */
  lemma IndexIsDecimal(key: Text)
    ensures IsIndex(key) <==> exists n: nat :: n < 4_294_967_295 && key == DecimalText(n)
  {
    if IsIndex(key) {
      var n := DecimalValue(key);
      DecimalRoundTrip(n);
      NoLeadingZero(n);
      DecimalInjective(key, DecimalText(n));
    }
    forall n: nat | n < 4_294_967_295 && key == DecimalText(n) ensures IsIndex(key) {
      DecimalRoundTrip(n);
      NoLeadingZero(n);
    }
  }

  /**
   The canonical order of two keys: of two numbers the smaller first, a number before any
   other key, and other keys in lexicographic order of their code units.
   */
  lemma KeysInOrder<N(!new)>(ms: seq<Member<N>>, i: nat, j: nat)
    requires DistinctKeys(ms) && i < j < |Arranged(ms)|
    ensures var a, b := Arranged(ms)[i].key, Arranged(ms)[j].key;
            && (forall m: nat, n: nat | m < 4_294_967_295 && n < 4_294_967_295 && a == DecimalText(m) && b == DecimalText(n) :: m < n)
            && (IsIndex(b) ==> IsIndex(a))
            && (!IsIndex(a) && !IsIndex(b) ==> exists k: nat :: DiffersAt(a, b, k))
  {
    ArrangedSorted(ms);
    var a, b := Arranged(ms)[i].key, Arranged(ms)[j].key;
    assert KeyOrder(a, b);
    LessIsLexicographic(a, b);
    forall m: nat, n: nat | m < 4_294_967_295 && n < 4_294_967_295 && a == DecimalText(m) && b == DecimalText(n) ensures m < n {
      DecimalRoundTrip(m);
      DecimalRoundTrip(n);
      IndexIsDecimal(a);
      IndexIsDecimal(b);
    }
  }
}
