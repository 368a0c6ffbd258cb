/**
 * The comparison-results page: the user's stored results arrive ordered by price,
 * are grouped by grocery item keeping at most three per item, and each card marks
 * its first result "Best Price" and every unavailable result "Out of Stock".
 */
module ComparisonResults {
  import opened Common

  /** One row of `scraped_results` as the page reads it. */
  datatype ScrapedResult = ScrapedResult(
    id: string,
    groceryItem: string,
    productName: string,
    price: real,
    unitSize: Option<string>,
    specialOffer: Option<string>,
    isAvailable: bool)

  /** One entry of the grouped object: an item and the results kept for it. */
  datatype Group = Group(item: string, results: seq<ScrapedResult>)

  /** The largest number of results kept per item. */
  const MaxPerItem: nat := 3

  ghost predicate SortedByPrice(rows: seq<ScrapedResult>)
  {
    forall i, j :: 0 <= i < j < |rows| ==> rows[i].price <= rows[j].price
  }

  /** The rows of one item, in input order. */
  function Matching(rows: seq<ScrapedResult>, item: string): (r: seq<ScrapedResult>)
    ensures |r| <= |rows|
    ensures forall x :: x in r <==> x in rows && x.groceryItem == item
  {
    if rows == [] then []
    else
      var n := |rows| - 1;
      assert rows == rows[..n] + [rows[n]];
      Matching(rows[..n], item) + (if rows[n].groceryItem == item then [rows[n]] else [])
  }

  /** Selecting one item's rows distributes over concatenation, so the kept rows stay in input order. */
  lemma {:induction false} MatchingAppend(a: seq<ScrapedResult>, b: seq<ScrapedResult>, item: string)
    ensures Matching(a + b, item) == Matching(a, item) + Matching(b, item)
    decreases |b|
  {
    if b == [] {
      assert a + b == a;
    } else {
      var n := |b| - 1;
      assert (a + b)[..|a + b| - 1] == a + b[..n];
      MatchingAppend(a, b[..n], item);
    }
  }

  /** The distinct items of the rows, in the order they are first seen. */
  function DistinctItems(rows: seq<ScrapedResult>): (r: seq<string>)
    ensures forall x :: x in r <==> exists k :: 0 <= k < |rows| && rows[k].groceryItem == x
    ensures forall i, j :: 0 <= i < j < |r| ==> r[i] != r[j]
    ensures r == [] <==> rows == []
  {
    if rows == [] then []
    else
      var n := |rows| - 1;
      var seen := DistinctItems(rows[..n]);
      assert forall k :: 0 <= k < n ==> rows[..n][k] == rows[k];
      if rows[n].groceryItem in seen then seen else seen + [rows[n].groceryItem]
  }

  /** The first `MaxPerItem` elements, or all of them if there are fewer. */
  function FirstThree(s: seq<ScrapedResult>): seq<ScrapedResult>
  {
    if |s| <= MaxPerItem then s else s[..MaxPerItem]
  }

  lemma UnseenItemHasNoRows(rows: seq<ScrapedResult>, item: string)
    requires item !in DistinctItems(rows)
    ensures Matching(rows, item) == []
  {
  }

  lemma DistinctItemsStep(rows: seq<ScrapedResult>, i: nat)
    requires i < |rows|
    ensures DistinctItems(rows[..i + 1]) ==
      if rows[i].groceryItem in DistinctItems(rows[..i]) then DistinctItems(rows[..i])
      else DistinctItems(rows[..i]) + [rows[i].groceryItem]
  {
    assert rows[..i + 1][..i] == rows[..i];
  }

  lemma MatchingStep(rows: seq<ScrapedResult>, i: nat, item: string)
    requires i < |rows|
    ensures Matching(rows[..i + 1], item)
         == Matching(rows[..i], item) + (if rows[i].groceryItem == item then [rows[i]] else [])
  {
    assert rows[..i + 1][..i] == rows[..i];
  }

  lemma FirstThreeStep(m: seq<ScrapedResult>, r: ScrapedResult)
    ensures |FirstThree(m)| < MaxPerItem <==> |m| < MaxPerItem
    ensures FirstThree(m + [r]) == if |m| < MaxPerItem then FirstThree(m) + [r] else FirstThree(m)
  {
    if |m| >= MaxPerItem {
      assert (m + [r])[..MaxPerItem] == m[..MaxPerItem];
    }
  }

  /** One step of the `reduce` keeps the accumulator equal to the first three rows of each item. */
  lemma AccumulatorStep(rows: seq<ScrapedResult>, i: nat, acc: map<string, seq<ScrapedResult>>, next: map<string, seq<ScrapedResult>>)
    requires i < |rows| && rows[i].groceryItem in acc
    requires forall x :: x in acc ==> acc[x] == FirstThree(Matching(rows[..i], x))
    requires var key := rows[i].groceryItem;
      next == if |acc[key]| < MaxPerItem then acc[key := acc[key] + [rows[i]]] else acc
    ensures next.Keys == acc.Keys
    ensures forall x :: x in next ==> next[x] == FirstThree(Matching(rows[..i + 1], x))
  {
    var key := rows[i].groceryItem;
    forall x | x in next ensures next[x] == FirstThree(Matching(rows[..i + 1], x)) {
      MatchingStep(rows, i, x);
      if x == key {
        FirstThreeStep(Matching(rows[..i], x), rows[i]);
      }
    }
  }

  /**
   * The `reduce` of `fetchResults`: for each distinct item, in first-seen order, a
   * key holding the first three rows of that item. The key order is that of the
   * object's own string keys.
   */
  method GroupByItem(rows: seq<ScrapedResult>) returns (keys: seq<string>, acc: map<string, seq<ScrapedResult>>)
    ensures keys == DistinctItems(rows)
    ensures forall x :: x in acc <==> x in keys
    ensures forall x :: x in acc ==> acc[x] == FirstThree(Matching(rows, x))
  {
    acc, keys := map[], [];
    for i := 0 to |rows|
      invariant keys == DistinctItems(rows[..i])
      invariant forall x :: x in acc <==> x in keys
      invariant forall x :: x in acc ==> acc[x] == FirstThree(Matching(rows[..i], x))
    {
      var result := rows[i];
      var key := result.groceryItem;
      if key !in acc {
        UnseenItemHasNoRows(rows[..i], key);
        acc := acc[key := []];
        keys := keys + [key];
      }
      ghost var before := acc;
      if |acc[key]| < MaxPerItem {
        acc := acc[key := acc[key] + [result]];
      }
      AccumulatorStep(rows, i, before, acc);
      DistinctItemsStep(rows, i);
    }
    assert rows[..|rows|] == rows;
  }

  /**
   * `fetchResults` followed by `Object.entries`: a group per distinct item in
   * first-seen order, each holding the first three rows of that item. A missing
   * `data` is treated as no rows.
   */
  method GroupResults(data: Option<seq<ScrapedResult>>) returns (groups: seq<Group>)
    ensures var rows := if data.None? then [] else data.value;
      && |groups| == |DistinctItems(rows)|
      && forall k :: 0 <= k < |groups| ==>
           groups[k].item == DistinctItems(rows)[k] && groups[k].results == FirstThree(Matching(rows, groups[k].item))
    ensures ShowsNoResults(groups) <==> data.None? || data.value == []
  {
    var rows := if data.None? then [] else data.value;
    var keys, acc := GroupByItem(rows);
    groups := seq(|keys|, k requires 0 <= k < |keys| => Group(keys[k], acc[keys[k]]));
  }

  // ---------------------------------------------------------------------------
  // The reduce over a plain object, as written
  // ---------------------------------------------------------------------------

  /** The properties `{}` inherits from `Object.prototype` whose values are functions (of `length` 0 to 2). */
  const InheritedMethods: set<string> := {
    "constructor", "hasOwnProperty", "isPrototypeOf", "propertyIsEnumerable", "toLocaleString", "toString",
    "valueOf", "__defineGetter__", "__defineSetter__", "__lookupGetter__", "__lookupSetter__"}

  /** The inherited accessor whose value is `Object.prototype` itself, which has no `length`. */
  const ProtoKey: string := "__proto__"

  /** The object `acc` of the `reduce`: its own keys in insertion order and their arrays. */
  datatype Accumulator = Accumulator(keys: seq<string>, arrays: map<string, seq<ScrapedResult>>)

  /**
   * The `reduce` callback as the code runs it on a plain `{}`, or `None` when it
   * throws. For an inherited method name, `acc[key]` is a function: it is truthy,
   * so no array is created, its `length` is below 3, and calling `push` on it
   * throws a TypeError. For `__proto__`, `acc[key]` is an object whose `length`
   * is undefined, so the comparison with 3 is false and the row is dropped.
   */
  function PushAsWritten(acc: Accumulator, r: ScrapedResult): Option<Accumulator>
  {
    var key := r.groceryItem;
    if key in InheritedMethods then None
    else if key == ProtoKey then Some(acc)
    else Some(PushOwn(acc, r))
  }

  /** The callback on an own key: create the array if it is missing, then push while it holds fewer than three. */
  function PushOwn(acc: Accumulator, r: ScrapedResult): Accumulator
  {
    var key := r.groceryItem;
    var created := Created(acc, key);
    if |created.arrays[key]| < MaxPerItem then
      created.(arrays := created.arrays[key := created.arrays[key] + [r]])
    else created
  }

  /** The `reduce` as written: the callback applied row after row until one throws. */
  function ReduceAsWritten(rows: seq<ScrapedResult>): Option<Accumulator>
  {
    if rows == [] then Some(Accumulator([], map[]))
    else
      match ReduceAsWritten(rows[..|rows| - 1])
      case None => None
      case Some(acc) => PushAsWritten(acc, rows[|rows| - 1])
  }

  /**
   * The number of cards the page shows with the code as written: a throw is
   * caught before `setGroupedResults`, so the initial `{}` stays and the page
   * shows "No results found".
   */
  function CardCountAsWritten(rows: seq<ScrapedResult>): nat
  {
    match ReduceAsWritten(rows)
    case None => 0
    case Some(acc) => |acc.keys|
  }

  /**
   * One row whose item is named `toString` hides every result of the page, and
   * a row whose item is `__proto__` is dropped; grouping by item gives those
   * rows cards.
   */
  lemma PrototypeKeyHidesResults()
    ensures var milk := ScrapedResult("1", "milk", "Toned Milk", 30.0, None, None, true);
      var odd := milk.(id := "2", groceryItem := "toString");
      && CardCountAsWritten([milk, odd]) == 0
      && DistinctItems([milk, odd]) == ["milk", "toString"]
    ensures var proto := ScrapedResult("3", "__proto__", "Bread", 40.0, None, None, true);
      && CardCountAsWritten([proto]) == 0
      && DistinctItems([proto]) == ["__proto__"]
  {
    var milk := ScrapedResult("1", "milk", "Toned Milk", 30.0, None, None, true);
    var odd := milk.(id := "2", groceryItem := "toString");
    assert [milk, odd][..1] == [milk];
    assert [milk][..0] == [];
    assert "milk" !in InheritedMethods && "milk" != ProtoKey;
    assert ReduceAsWritten([milk]).Some?;
    var proto := ScrapedResult("3", "__proto__", "Bread", 40.0, None, None, true);
    assert [proto][..0] == [];
    assert "__proto__" !in InheritedMethods;
  }

  /** The accumulator of the first `i` rows, keyed by the items seen so far in first-seen order. */
  ghost predicate GroupsPrefix(rows: seq<ScrapedResult>, i: nat, acc: Accumulator)
    requires i <= |rows|
  {
    && acc.keys == DistinctItems(rows[..i])
    && (forall x :: x in acc.arrays <==> x in acc.keys)
    && (forall x :: x in acc.arrays ==> acc.arrays[x] == FirstThree(Matching(rows[..i], x)))
  }

  /** The accumulator once `acc[key]` is known to exist: a new key gets an empty array at the end of the keys. */
  function Created(acc: Accumulator, key: string): Accumulator
  {
    if key in acc.arrays then acc else Accumulator(acc.keys + [key], acc.arrays[key := []])
  }

  /** Creating the array of the next row's item keeps each array the first three rows of its item. */
  lemma CreatedStep(rows: seq<ScrapedResult>, i: nat, acc: Accumulator)
    requires i < |rows| && GroupsPrefix(rows, i, acc)
    ensures var created := Created(acc, rows[i].groceryItem);
      && rows[i].groceryItem in created.arrays
      && created.keys == DistinctItems(rows[..i + 1])
      && (forall x :: x in created.arrays <==> x in created.keys)
      && (forall x :: x in created.arrays ==> created.arrays[x] == FirstThree(Matching(rows[..i], x)))
  {
    var key := rows[i].groceryItem;
    if key !in acc.arrays {
      UnseenItemHasNoRows(rows[..i], key);
    }
    DistinctItemsStep(rows, i);
  }

  /** The three facts of `GroupsPrefix`, gathered. */
  lemma GroupsPrefixIntro(rows: seq<ScrapedResult>, i: nat, acc: Accumulator)
    requires i <= |rows|
    requires acc.keys == DistinctItems(rows[..i])
    requires forall x :: x in acc.arrays <==> x in acc.keys
    requires forall x :: x in acc.arrays ==> acc.arrays[x] == FirstThree(Matching(rows[..i], x))
    ensures GroupsPrefix(rows, i, acc)
  {
  }

  /** One call of the callback on an own key keeps each array the first three rows of its item. */
  lemma PushOwnStep(rows: seq<ScrapedResult>, i: nat, acc: Accumulator)
    requires i < |rows| && GroupsPrefix(rows, i, acc)
    ensures var pushed := PushOwn(acc, rows[i]);
      && pushed.keys == DistinctItems(rows[..i + 1])
      && (forall x :: x in pushed.arrays <==> x in pushed.keys)
      && (forall x :: x in pushed.arrays ==> pushed.arrays[x] == FirstThree(Matching(rows[..i + 1], x)))
  {
    var key := rows[i].groceryItem;
    var created := Created(acc, key);
    var next := if |created.arrays[key]| < MaxPerItem then created.arrays[key := created.arrays[key] + [rows[i]]]
                else created.arrays;
    assert PushOwn(acc, rows[i]) == Accumulator(created.keys, next);
    CreatedStep(rows, i, acc);
    AccumulatorStep(rows, i, created.arrays, next);
  }

  /** One call of the callback on an own key keeps the accumulator grouping by item. */
  lemma AsWrittenStep(rows: seq<ScrapedResult>, i: nat, acc: Accumulator)
    requires i < |rows| && GroupsPrefix(rows, i, acc)
    ensures GroupsPrefix(rows, i + 1, PushOwn(acc, rows[i]))
  {
    PushOwnStep(rows, i, acc);
    GroupsPrefixIntro(rows, i + 1, PushOwn(acc, rows[i]));
  }

  /** Away from the inherited names, the object-based `reduce` is grouping by item. */
  lemma {:induction false} ReduceAsWrittenAwayFromPrototypeKeys(rows: seq<ScrapedResult>, i: nat)
    requires i <= |rows|
    requires forall k :: 0 <= k < |rows| ==> rows[k].groceryItem !in InheritedMethods && rows[k].groceryItem != ProtoKey
    ensures ReduceAsWritten(rows[..i]).Some? && GroupsPrefix(rows, i, ReduceAsWritten(rows[..i]).value)
  {
    if i == 0 {
      assert rows[..0] == [];
    } else {
      ReduceAsWrittenAwayFromPrototypeKeys(rows, i - 1);
      AsWrittenStep(rows, i - 1, ReduceAsWritten(rows[..i - 1]).value);
      assert rows[..i][..i - 1] == rows[..i - 1] && rows[..i][i - 1] == rows[i - 1];
    }
  }

  /** The "Best Price" badge is shown on the result at index 0 of its card. */
  predicate ShowsBestPrice(index: nat)
  {
    index == 0
  }

  /** The "Out of Stock" label is shown exactly for a result that is not available. */
  predicate ShowsOutOfStock(r: ScrapedResult)
  {
    !r.isAvailable
  }

  /** The "No results found" state is shown when the grouped object has no keys. */
  predicate ShowsNoResults(groups: seq<Group>)
  {
    |groups| == 0
  }

  /** Every group holds at most three results, all of its item, none missing among the first three. */
  lemma GroupShape(rows: seq<ScrapedResult>, item: string)
    ensures |FirstThree(Matching(rows, item))| <= MaxPerItem
    ensures |FirstThree(Matching(rows, item))| == if |Matching(rows, item)| < MaxPerItem then |Matching(rows, item)| else MaxPerItem
    ensures forall x :: x in FirstThree(Matching(rows, item)) ==> x in rows && x.groceryItem == item
    ensures FirstThree(Matching(rows, item)) == Matching(rows, item)[..|FirstThree(Matching(rows, item))|]
  {
  }

  /** Every row, available or not, is grouped under its item, and its item is a key. */
  lemma UnavailableRowsAreGrouped(rows: seq<ScrapedResult>, r: ScrapedResult)
    requires r in rows
    ensures r in Matching(rows, r.groceryItem)
    ensures r.groceryItem in DistinctItems(rows)
  {
    var k :| 0 <= k < |rows| && rows[k] == r;
  }

  /** The rows with the availability of row `i` set to `available`. */
  function WithAvailability(rows: seq<ScrapedResult>, i: nat, available: bool): seq<ScrapedResult>
    requires i < |rows|
  {
    rows[i := rows[i].(isAvailable := available)]
  }

  /** Changing the availability of one row changes none of the keys. */
  lemma {:induction false} AvailabilityKeepsKeys(rows: seq<ScrapedResult>, i: nat, available: bool)
    requires i < |rows|
    ensures DistinctItems(WithAvailability(rows, i, available)) == DistinctItems(rows)
    decreases |rows|
  {
    var flipped := WithAvailability(rows, i, available);
    var n := |rows| - 1;
    if i == n {
      assert flipped[..n] == rows[..n];
    } else {
      AvailabilityKeepsKeys(rows[..n], i, available);
      assert flipped[..n] == WithAvailability(rows[..n], i, available);
    }
  }

  /** The same rows, by id and item, at the same positions; availability and the other fields may differ. */
  ghost predicate SameRows(a: seq<ScrapedResult>, b: seq<ScrapedResult>)
  {
    |a| == |b| && forall k :: 0 <= k < |a| ==> a[k].id == b[k].id && a[k].groceryItem == b[k].groceryItem
  }

  lemma SameRowsAppend(a: seq<ScrapedResult>, b: seq<ScrapedResult>, c: seq<ScrapedResult>, d: seq<ScrapedResult>)
    requires SameRows(a, b) && SameRows(c, d)
    ensures SameRows(a + c, b + d)
  {
  }

  /** Rows that agree on their prefixes and on their last row, by id and item, select the same rows of an item. */
  lemma SameRowsStep(rows: seq<ScrapedResult>, other: seq<ScrapedResult>, item: string)
    requires |rows| == |other| > 0
    requires rows[|rows| - 1].id == other[|rows| - 1].id && rows[|rows| - 1].groceryItem == other[|rows| - 1].groceryItem
    requires SameRows(Matching(other[..|rows| - 1], item), Matching(rows[..|rows| - 1], item))
    ensures SameRows(Matching(other, item), Matching(rows, item))
  {
    var n := |rows| - 1;
    var tail := if rows[n].groceryItem == item then [rows[n]] else [];
    var tail' := if other[n].groceryItem == item then [other[n]] else [];
    SameRowsAppend(Matching(other[..n], item), Matching(rows[..n], item), tail', tail);
  }

  /**
   * Availability is only a label: changing whether one row shows "Out of Stock"
   * changes, for any item, neither how many rows are grouped under it nor which
   * rows (by id) stand at which positions.
   */
  lemma {:induction false} AvailabilityDoesNotFilter(rows: seq<ScrapedResult>, i: nat, available: bool, item: string)
    requires i < |rows|
    ensures ShowsOutOfStock(WithAvailability(rows, i, available)[i]) == !available
    ensures SameRows(Matching(WithAvailability(rows, i, available), item), Matching(rows, item))
    decreases |rows|
  {
    var flipped := WithAvailability(rows, i, available);
    var n := |rows| - 1;
    if i == n {
      assert flipped[..n] == rows[..n];
    } else {
      AvailabilityDoesNotFilter(rows[..n], i, available, item);
      assert flipped[..n] == WithAvailability(rows[..n], i, available);
    }
    SameRowsStep(rows, flipped, item);
  }

  /** The index of the first row of `item`, or `|rows|` when it has none. */
  function FirstIndex(rows: seq<ScrapedResult>, item: string): (k: nat)
    ensures k <= |rows|
    ensures forall m :: 0 <= m < k ==> rows[m].groceryItem != item
    ensures k < |rows| ==> rows[k].groceryItem == item
  {
    if rows == [] then 0
    else if rows[0].groceryItem == item then 0
    else 1 + FirstIndex(rows[1..], item)
  }

  lemma {:induction false} FirstIndexSnoc(rows: seq<ScrapedResult>, r: ScrapedResult, item: string)
    ensures FirstIndex(rows + [r], item) ==
      if FirstIndex(rows, item) < |rows| then FirstIndex(rows, item)
      else if r.groceryItem == item then |rows| else |rows| + 1
  {
    if rows != [] {
      assert (rows + [r])[1..] == rows[1..] + [r];
      FirstIndexSnoc(rows[1..], r, item);
    }
  }

  /** A key already seen keeps its first index when a row is appended, and that index lies before the new row. */
  lemma FirstIndexOfSeenKey(rows: seq<ScrapedResult>, r: ScrapedResult, x: string)
    requires x in DistinctItems(rows)
    ensures FirstIndex(rows + [r], x) == FirstIndex(rows, x) < |rows|
  {
    var k :| 0 <= k < |rows| && rows[k].groceryItem == x;
    FirstIndexSnoc(rows, r, x);
  }

  /** The keys come in first-seen order: an earlier key's first row precedes a later key's first row. */
  lemma {:induction false} DistinctItemsFirstSeen(rows: seq<ScrapedResult>)
    ensures var keys := DistinctItems(rows);
      forall i, j :: 0 <= i < j < |keys| ==> FirstIndex(rows, keys[i]) < FirstIndex(rows, keys[j])
  {
    if rows != [] {
      var n := |rows| - 1;
      var prefix, last := rows[..n], rows[n];
      DistinctItemsFirstSeen(prefix);
      assert rows == prefix + [last];
      var keys, seen := DistinctItems(rows), DistinctItems(prefix);
      assert keys[..|seen|] == seen;
      forall i, j | 0 <= i < j < |keys|
        ensures FirstIndex(rows, keys[i]) < FirstIndex(rows, keys[j])
      {
        FirstIndexOfSeenKey(prefix, last, keys[i]);
        if j < |seen| {
          FirstIndexOfSeenKey(prefix, last, keys[j]);
        } else {
          FirstIndexSnoc(prefix, last, keys[j]);
        }
      }
    }
  }

  /** Keeping the rows of one item keeps them in input order, so sorted input gives sorted rows. */
  lemma {:induction false} MatchingSorted(rows: seq<ScrapedResult>, item: string)
    requires SortedByPrice(rows)
    ensures SortedByPrice(Matching(rows, item))
  {
    if rows != [] {
      var n := |rows| - 1;
      assert SortedByPrice(rows[..n]);
      MatchingSorted(rows[..n], item);
      var m := Matching(rows[..n], item);
      if rows[n].groceryItem == item {
        forall x | x in m ensures x.price <= rows[n].price {
          var k :| 0 <= k < n && rows[..n][k] == x;
        }
      }
    }
  }

  /**
   * With the rows ordered by price, each group is ordered by price and holds the
   * cheapest rows of its item: its result at index 0, the one with the "Best
   * Price" badge, costs no more than any row of the item.
   */
  lemma GroupHoldsCheapest(rows: seq<ScrapedResult>, item: string)
    requires SortedByPrice(rows)
    ensures var all := Matching(rows, item);
      var group := FirstThree(all);
      && SortedByPrice(group)
      && (forall j, k :: 0 <= j < |group| <= k < |all| ==> group[j].price <= all[k].price)
      && (forall j :: 0 <= j < |group| && ShowsBestPrice(j) ==>
            forall r :: r in rows && r.groceryItem == item ==> group[j].price <= r.price)
  {
    MatchingSorted(rows, item);
    var all := Matching(rows, item);
    var group := FirstThree(all);
    if group != [] {
      forall r | r in rows && r.groceryItem == item ensures group[0].price <= r.price {
        assert r in all;
        var k :| 0 <= k < |all| && all[k] == r;
        assert group[0] == all[0];
      }
    }
  }
}
