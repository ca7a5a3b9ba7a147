// Items as the item-container helpers see them, and the filtering every
// container listing ends with.

module Items {
  import opened Wrappers

  /** One entry of a client item container. `name` is `None` where the
      client has no name for the item. */
  datatype Item = Item(
    id: int,
    name: Option<string>,
    quantity: int,
    placeholder: bool,
    slot: int,
    widgetId: int,
    actionParam: int)

  /** An entry is listed only when it has an id, a name, and the name is
      not the literal "null" the client uses for empty entries. */
  predicate Usable(it: Item) {
    it.id != -1 && it.name.Some? && it.name.value != "null"
  }

  /** The entries of `s` that `keep` accepts, in their order. */
  function Select(s: seq<Item>, keep: Item -> bool): (r: seq<Item>)
    ensures |r| <= |s|
    ensures forall x :: x in r <==> x in s && keep(x)
  {
    if s == [] then []
    else Select(s[..|s| - 1], keep) + (if keep(s[|s| - 1]) then [s[|s| - 1]] else [])
  }

  /** Slots strictly increase along `s`. */
  predicate SlotsIncreasing(s: seq<Item>) {
    forall a, b :: 0 <= a < b < |s| ==> s[a].slot < s[b].slot
  }

  /** Selecting from a concatenation selects from each part. */
  lemma {:induction false} SelectAppend(a: seq<Item>, b: seq<Item>, keep: Item -> bool)
    ensures Select(a + b, keep) == Select(a, keep) + Select(b, keep)
    decreases |b|
  {
    if b == [] {
      assert a + b == a;
    } else {
      var b' := b[..|b| - 1];
      assert (a + b)[..|a + b| - 1] == a + b';
      assert (a + b)[|a + b| - 1] == b[|b| - 1];
      SelectAppend(a, b', keep);
    }
  }

  /** Filtering twice is filtering by both tests at once. */
  lemma {:induction false} SelectTwice(s: seq<Item>, f: Item -> bool, g: Item -> bool)
    ensures Select(Select(s, f), g) == Select(s, x => f(x) && g(x))
    decreases |s|
  {
    if s != [] {
      var init := s[..|s| - 1];
      var last := s[|s| - 1];
      SelectTwice(init, f, g);
      SelectAppend(Select(init, f), if f(last) then [last] else [], g);
      assert Select([last], g) == (if g(last) then [last] else []) by {
        assert [last][..0] == [];
      }
      assert Select([], g) == [];
    }
  }

  /** Two tests that agree on every entry select the same entries. */
  lemma {:induction false} SelectSameTest(s: seq<Item>, f: Item -> bool, g: Item -> bool)
    requires forall x :: f(x) == g(x)
    ensures Select(s, f) == Select(s, g)
    decreases |s|
  {
    if s != [] {
      SelectSameTest(s[..|s| - 1], f, g);
    }
  }

  /** A test that accepts everything selects everything. */
  lemma {:induction false} SelectEverything(s: seq<Item>, keep: Item -> bool)
    requires forall x :: keep(x)
    ensures Select(s, keep) == s
    decreases |s|
  {
    if s != [] {
      SelectEverything(s[..|s| - 1], keep);
      assert s[..|s| - 1] + [s[|s| - 1]] == s;
    }
  }

  /** Selection keeps entries in order: increasing slots stay increasing. */
  lemma {:induction false} SelectKeepsSlotOrder(s: seq<Item>, keep: Item -> bool)
    requires SlotsIncreasing(s)
    ensures SlotsIncreasing(Select(s, keep))
    decreases |s|
  {
    if s != [] {
      var init := s[..|s| - 1];
      var last := s[|s| - 1];
      assert SlotsIncreasing(init);
      SelectKeepsSlotOrder(init, keep);
      var r := Select(init, keep);
      forall x | x in r
        ensures x.slot < last.slot
      {
        var k :| 0 <= k < |init| && init[k] == x;
      }
    }
  }
}
