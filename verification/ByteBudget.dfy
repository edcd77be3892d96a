/**
 A byte budget threaded through a sequence of items: each is normalized under what the
 items before it have left, and no two may share a key. The parts of an artifact and
 the artifacts of a bundle are both handled like this.
 */
module ByteBudget {
  import opened Outcomes

  const MAX_SAFE := 0x1F_FFFF_FFFF_FFFF

  predicate IsBudget(n: int) {
    0 <= n <= MAX_SAFE
  }

  datatype ThreadError<E> = Refused(error: E) | Duplicate(key: string) | AggregateTooLarge

  /** How one item is normalized under a budget, what the result weighs, and the key it must not share. */
  datatype Rule<!X, !E> = Rule(step: (X, int) -> Result<X, E>, size: X -> int, key: X -> Option<string>)

  function Thread<X, E>(rule: Rule<X, E>, items: seq<X>, remaining: int, seen: set<string>): Result<seq<X>, ThreadError<E>>
    decreases |items|
  {
    if items == [] then Ok([])
    else
      match rule.step(items[0], remaining)
      case Err(e) => Err(Refused(e))
      case Ok(x) =>
        if rule.key(x).Some? && rule.key(x).value in seen then Err(Duplicate(rule.key(x).value))
        else if remaining - rule.size(x) < 0 then Err(AggregateTooLarge)
        else
          match Thread(rule, items[1..], remaining - rule.size(x), WithKey(rule, x, seen))
          case Err(e) => Err(e)
          case Ok(rest) => Ok([x] + rest)
  }

  function WithKey<X, E>(rule: Rule<X, E>, x: X, seen: set<string>): set<string> {
    if rule.key(x).Some? then seen + {rule.key(x).value} else seen
  }

  // ---- What the rule must do ------------------------------------------------------------

  /** A budget only limits: under each budget that covers it an item becomes the same, and no size is negative. */
  ghost predicate OnlyLimits<X, E>(rule: Rule<X, E>, x: X, budget: int) {
    var free := rule.step(x, MAX_SAFE);
    && (free.Ok? ==> rule.size(free.value) >= 0)
    && (rule.step(x, budget).Ok? <==> free.Ok? && rule.size(free.value) <= budget)
    && (rule.step(x, budget).Ok? ==> rule.step(x, budget) == free)
  }

  ghost predicate IsRule<X(!new), E>(rule: Rule<X, E>) {
    && (forall x, b | IsBudget(b) :: OnlyLimits(rule, x, b))
    && (forall x :: Settles(rule, x))
  }

  /** What was normalized once stays as it is. */
  ghost predicate Settles<X, E>(rule: Rule<X, E>, x: X) {
    rule.step(x, MAX_SAFE).Ok? ==> rule.step(rule.step(x, MAX_SAFE).value, MAX_SAFE) == rule.step(x, MAX_SAFE)
  }

  // ---- Without a budget --------------------------------------------------------------------

  predicate Acceptable<X, E>(rule: Rule<X, E>, items: seq<X>) {
    items == [] || (rule.step(items[0], MAX_SAFE).Ok? && Acceptable(rule, items[1..]))
  }

  /** Each item normalized on its own. */
  function Free<X, E>(rule: Rule<X, E>, items: seq<X>): (r: seq<X>)
    requires Acceptable(rule, items)
    ensures |r| == |items|
  {
    if items == [] then [] else [rule.step(items[0], MAX_SAFE).value] + Free(rule, items[1..])
  }

  function Total<X, E>(rule: Rule<X, E>, items: seq<X>): int {
    if items == [] then 0 else rule.size(items[0]) + Total(rule, items[1..])
  }

  predicate KeysFresh<X, E>(rule: Rule<X, E>, items: seq<X>, seen: set<string>) {
    items == [] || (!(rule.key(items[0]).Some? && rule.key(items[0]).value in seen)
                    && KeysFresh(rule, items[1..], WithKey(rule, items[0], seen)))
  }

  // ---- Results -------------------------------------------------------------------------------

  lemma {:induction false} FreeTotalIsNatural<X(!new), E>(rule: Rule<X, E>, items: seq<X>)
    requires IsRule(rule) && Acceptable(rule, items)
    ensures Total(rule, Free(rule, items)) >= 0
  {
    if items != [] {
      FreeTotalIsNatural(rule, items[1..]);
      assert OnlyLimits(rule, items[0], MAX_SAFE);
      var free := Free(rule, items);
      assert free[0] == rule.step(items[0], MAX_SAFE).value && free[1..] == Free(rule, items[1..]);
    }
  }

  /**
   The threaded budget accepts exactly the items that are acceptable one by one, share
   no key and fit together, and then does to each what would be done to it alone. It is
   never found overdrawn after the fact.
   */
  lemma {:induction false} ThreadAcceptsExactly<X(!new), E>(rule: Rule<X, E>, items: seq<X>, remaining: int, seen: set<string>)
    requires IsRule(rule) && IsBudget(remaining)
    ensures Thread(rule, items, remaining, seen) != Err(AggregateTooLarge)
    ensures Thread(rule, items, remaining, seen).Ok? <==>
            Acceptable(rule, items) && KeysFresh(rule, Free(rule, items), seen) && Total(rule, Free(rule, items)) <= remaining
    ensures Thread(rule, items, remaining, seen).Ok? ==> Thread(rule, items, remaining, seen) == Ok(Free(rule, items))
    decreases |items|
  {
    if items != [] {
      assert OnlyLimits(rule, items[0], remaining);
      if rule.step(items[0], MAX_SAFE).Ok? {
        var x := rule.step(items[0], MAX_SAFE).value;
        if Acceptable(rule, items) {
          FreeTotalIsNatural(rule, items[1..]);
          var free := Free(rule, items);
          assert free[0] == x && free[1..] == Free(rule, items[1..]);
        }
        if rule.size(x) <= remaining {
          ThreadAcceptsExactly(rule, items[1..], remaining - rule.size(x), WithKey(rule, x, seen));
        }
      }
    }
  }

  lemma {:induction false} FreeSettles<X(!new), E>(rule: Rule<X, E>, items: seq<X>)
    requires IsRule(rule) && Acceptable(rule, items)
    ensures Acceptable(rule, Free(rule, items)) && Free(rule, Free(rule, items)) == Free(rule, items)
  {
    if items != [] {
      FreeSettles(rule, items[1..]);
      assert Settles(rule, items[0]);
      var free := Free(rule, items);
      assert free[0] == rule.step(items[0], MAX_SAFE).value && free[1..] == Free(rule, items[1..]);
    }
  }

  /** Accepted items pass again unchanged, under any budget that covers their total. */
  lemma ThreadSettles<X(!new), E>(rule: Rule<X, E>, items: seq<X>, remaining: int, seen: set<string>, other: int)
    requires IsRule(rule) && IsBudget(remaining) && IsBudget(other) && Thread(rule, items, remaining, seen).Ok?
    ensures var xs := Thread(rule, items, remaining, seen).value;
            0 <= Total(rule, xs) <= remaining && (Total(rule, xs) <= other ==> Thread(rule, xs, other, seen) == Ok(xs))
  {
    ThreadAcceptsExactly(rule, items, remaining, seen);
    FreeTotalIsNatural(rule, items);
    FreeSettles(rule, items);
    ThreadAcceptsExactly(rule, Free(rule, items), other, seen);
  }

  /** With a key for every item, fresh keys are distinct keys. */
  lemma {:induction false} FreshKeysAreDistinct<X, E>(rule: Rule<X, E>, items: seq<X>, seen: set<string>)
    requires KeysFresh(rule, items, seen) && forall i | 0 <= i < |items| :: rule.key(items[i]).Some?
    ensures forall i | 0 <= i < |items| :: rule.key(items[i]).value !in seen
    ensures forall i, j | 0 <= i < j < |items| :: rule.key(items[i]) != rule.key(items[j])
  {
    if items != [] {
      var rest := items[1..];
      FreshKeysAreDistinct(rule, rest, WithKey(rule, items[0], seen));
      forall i | 0 < i < |items| ensures rule.key(items[i]).value !in seen && rule.key(items[i]) != rule.key(items[0]) {
        assert items[i] == rest[i - 1];
      }
      forall i, j | 0 < i < j < |items| ensures rule.key(items[i]) != rule.key(items[j]) {
        assert items[i] == rest[i - 1] && items[j] == rest[j - 1];
      }
    }
  }

  // ---- The loop --------------------------------------------------------------------------------

  ghost function Prefixed<X, E>(done: seq<X>, rest: Result<seq<X>, ThreadError<E>>): Result<seq<X>, ThreadError<E>> {
    match rest
    case Err(e) => Err(e)
    case Ok(xs) => Ok(done + xs)
  }

  lemma PrefixedTwice<X, E>(done: seq<X>, x: X, rest: Result<seq<X>, ThreadError<E>>)
    ensures Prefixed(done, Prefixed([x], rest)) == Prefixed(done + [x], rest)
  {
    if rest.Ok? { assert done + ([x] + rest.value) == (done + [x]) + rest.value; }
  }

  lemma NothingDone<X, E>(rule: Rule<X, E>, items: seq<X>, budget: int)
    ensures items[0..] == items && Prefixed([], Thread(rule, items, budget, {})) == Thread(rule, items, budget, {})
  {
    var all := Thread(rule, items, budget, {});
    if all.Ok? { assert [] + all.value == all.value; }
  }

  /** One pass over the items with the running rest of the budget and the keys seen so far. */
  method ThreadBudget<X, E>(rule: Rule<X, E>, items: seq<X>, budget: int) returns (r: Result<seq<X>, ThreadError<E>>)
    ensures r == Thread(rule, items, budget, {})
  {
    var remaining, seen, done, i := budget, {}, [], 0;
    NothingDone(rule, items, budget);
    while i < |items|
      invariant 0 <= i <= |items|
      invariant Thread(rule, items, budget, {}) == Prefixed(done, Thread(rule, items[i..], remaining, seen))
    {
      assert items[i..][0] == items[i] && items[i..][1..] == items[i+1..];
      var next := rule.step(items[i], remaining);
      if next.Err? { return Err(Refused(next.error)); }
      var x := next.value;
      if rule.key(x).Some? {
        if rule.key(x).value in seen { return Err(Duplicate(rule.key(x).value)); }
      }
      if remaining - rule.size(x) < 0 { return Err(AggregateTooLarge); }
      PrefixedTwice(done, x, Thread(rule, items[i+1..], remaining - rule.size(x), WithKey(rule, x, seen)));
      remaining, seen := remaining - rule.size(x), WithKey(rule, x, seen);
      done := done + [x];
      i := i + 1;
    }
    assert items[i..] == [] && done + [] == done;
    return Ok(done);
  }
}
