/**
 * The cart summary: the flat sequence of products added to the cart folded into one line per
 * distinct product id, each with the number of times that id was added.
 *
 * The source folds the cart into a plain object keyed by `_id` and returns `Object.values` of
 * it. For keys that are not integer-like, `Object.values` lists them in the order they were
 * first created, so the accumulator here is the object together with that creation order.
 */
module CartUtils {
  import opened Seqs
  import opened Entities

  /** One line of the summary: the product fields plus a quantity. */
  datatype SummaryLine = SummaryLine(product: Product, quantity: nat)

  /** The fold's accumulator: the `summary` object and the order its keys were created in. */
  datatype Acc = Acc(summary: map<string, SummaryLine>, order: seq<string>)

  /**
   * What the fold keeps true of its accumulator: the key order lists each key of the object
   * exactly once, and every line sits under its own product's id with a positive quantity.
   */
  predicate WellFormed(acc: Acc) {
    && Distinct(acc.order)
    && (forall k :: k in acc.summary ==> k in acc.order)
    && (forall k :: k in acc.order ==> k in acc.summary)
    && (forall k :: k in acc.summary ==> acc.summary[k].product.id == k && acc.summary[k].quantity >= 1)
  }

  /** The empty object the fold starts from. */
  const Empty := Acc(map[], [])

  /**
   * One pass of the loop body: an id seen before has its line's quantity bumped in place; a new
   * id gets a copy of the item with quantity 1, created after all existing keys.
   */
  function Step(acc: Acc, item: Product): Acc {
    if item.id in acc.summary then
      var line := acc.summary[item.id];
      Acc(acc.summary[item.id := line.(quantity := line.quantity + 1)], acc.order)
    else
      Acc(acc.summary[item.id := SummaryLine(item, 1)], acc.order + [item.id])
  }

  /** The fold of `items` into `acc`, in cart order. */
  function FoldFrom(acc: Acc, items: seq<Product>): Acc
    decreases |items|
  {
    if |items| == 0 then acc
    else
      var prev := FoldFrom(acc, items[..|items| - 1]);
      Step(prev, items[|items| - 1])
  }

  /** `Object.values(summary)`: the lines in key creation order. */
  function Values(acc: Acc): seq<SummaryLine>
    requires forall i :: 0 <= i < |acc.order| ==> acc.order[i] in acc.summary
  {
    seq(|acc.order|, i requires 0 <= i < |acc.order| => acc.summary[acc.order[i]])
  }

  // ---------------------------------------------------------------------------------------
  // Reference definitions, independent of the fold

  /** The ids of the cart items, in cart order. */
  function Ids(cart: seq<Product>): (r: seq<string>)
    ensures |r| == |cart|
    ensures forall i :: 0 <= i < |cart| ==> r[i] == cart[i].id
  {
    if |cart| == 0 then [] else Ids(cart[..|cart| - 1]) + [cart[|cart| - 1].id]
  }

  /** The elements of `s` with later repetitions dropped: first-occurrence order. */
  function Dedup(s: seq<string>): (r: seq<string>)
    ensures Distinct(r)
    ensures forall k :: k in r <==> k in s
  {
    if |s| == 0 then []
    else
      var d := Dedup(s[..|s| - 1]);
      assert forall k :: k in s <==> k in s[..|s| - 1] || k == s[|s| - 1] by {
        assert s == s[..|s| - 1] + [s[|s| - 1]];
      }
      if s[|s| - 1] in d then d else d + [s[|s| - 1]]
  }

  /** The distinct ids of the cart in the order they were first added. */
  function FirstIds(cart: seq<Product>): seq<string> {
    Dedup(Ids(cart))
  }

  /** How many cart items carry the id `k`. */
  function Count(cart: seq<Product>, k: string): nat {
    if |cart| == 0 then 0
    else Count(cart[..|cart| - 1], k) + (if cart[|cart| - 1].id == k then 1 else 0)
  }

  /** The first cart item with the id `k`. */
  function FirstWith(cart: seq<Product>, k: string): (p: Product)
    requires k in Ids(cart)
    ensures p in cart && p.id == k
  {
    var init := cart[..|cart| - 1];
    if k in Ids(init) then
      var p := FirstWith(init, k);
      assert p in init;
      p
    else cart[|cart| - 1]
  }

  /** The ids of summary lines, in line order. */
  function LineIds(lines: seq<SummaryLine>): (r: seq<string>)
    ensures |r| == |lines|
    ensures forall i :: 0 <= i < |lines| ==> r[i] == lines[i].product.id
  {
    seq(|lines|, i requires 0 <= i < |lines| => lines[i].product.id)
  }

  /** The sum of the quantities of the lines. */
  function TotalQuantity(lines: seq<SummaryLine>): nat {
    if |lines| == 0 then 0 else TotalQuantity(lines[..|lines| - 1]) + lines[|lines| - 1].quantity
  }

  /**
   * The summary as described apart from any fold: the cart's distinct ids in the order first
   * added, each with the first item carrying it and the number of items carrying it.
   */
  function SpecSummary(cart: seq<Product>): seq<SummaryLine> {
    var ids := FirstIds(cart);
    seq(|ids|, i requires 0 <= i < |ids| => SummaryLine(FirstWith(cart, ids[i]), Count(cart, ids[i])))
  }

  // ---------------------------------------------------------------------------------------
  // The operation

  /** `getCartSummary`: the fold of the cart into the object, then `Object.values` of it. */
  function GetCartSummary(cart: seq<Product>): (lines: seq<SummaryLine>)
    ensures lines == SpecSummary(cart)
  {
    FoldIsSpec(cart);
    Values(FoldFrom(Empty, cart))
  }

  /** The quantities of the summary add up to the number of items in the cart. */
  lemma SummaryTotal(cart: seq<Product>)
    ensures TotalQuantity(GetCartSummary(cart)) == |cart|
  {
    FoldTotal(Empty, cart);
  }

  /**
   * The summary lists each id of the cart exactly once, and no other id, in the order the ids
   * were first added; an empty cart, and only an empty cart, gives an empty summary.
   */
  lemma SummaryIdsMatchCart(cart: seq<Product>)
    ensures var lines := GetCartSummary(cart);
            && LineIds(lines) == FirstIds(cart)
            && Distinct(LineIds(lines))
            && (forall k :: k in LineIds(lines) <==> k in Ids(cart))
            && (cart == [] <==> lines == [])
  {
    var lines := GetCartSummary(cart);
    assert LineIds(lines) == FirstIds(cart);
    if cart != [] {
      assert cart[0].id in Ids(cart);
    }
  }

  /**
   * Each line has quantity at least 1, equal to the number of items with its id, and carries the
   * fields of the first item with that id: later duplicates only bump the quantity.
   */
  lemma SummaryLinesDescribeItems(cart: seq<Product>)
    ensures var lines := GetCartSummary(cart);
            forall i :: 0 <= i < |lines| ==>
              && lines[i].product.id in Ids(cart)
              && lines[i].quantity == Count(cart, lines[i].product.id) >= 1
              && lines[i].product == FirstWith(cart, lines[i].product.id)
  {
    var lines := GetCartSummary(cart);
    var ids := FirstIds(cart);
    forall i | 0 <= i < |lines|
      ensures lines[i].product.id in Ids(cart) && Count(cart, lines[i].product.id) >= 1
    {
      assert ids[i] in Ids(cart);
      CountPresent(cart, ids[i]);
    }
  }

  // ---------------------------------------------------------------------------------------
  // Lemmas about the fold

  /**
   * The fold from the empty object records, for every id, the number of items with it and the
   * first item with it, and creates the keys in first-occurrence order.
   */
  lemma {:induction false} FoldMatchesReference(cart: seq<Product>)
    ensures var acc := FoldFrom(Empty, cart);
            && acc.order == FirstIds(cart)
            && (forall k :: k in acc.summary <==> k in Ids(cart))
            && (forall k :: k in acc.summary ==>
                  k in Ids(cart) && acc.summary[k].quantity == Count(cart, k)
                  && acc.summary[k].product == FirstWith(cart, k))
    decreases |cart|
  {
    if |cart| > 0 {
      var init := cart[..|cart| - 1];
      var item := cart[|cart| - 1];
      FoldMatchesReference(init);
      var prev := FoldFrom(Empty, init);
      var acc := FoldFrom(Empty, cart);
      assert acc == Step(prev, item);
      assert Ids(cart) == Ids(init) + [item.id];
      forall k | k in acc.summary
        ensures acc.summary[k].quantity == Count(cart, k)
        ensures acc.summary[k].product == FirstWith(cart, k)
      {
        if k == item.id && k !in Ids(init) {
          assert Count(init, k) == 0 by { CountAbsent(init, k); }
        }
      }
    }
  }

  /** `Object.values` of the folded cart is the summary described apart from the fold. */
  lemma FoldIsSpec(cart: seq<Product>)
    ensures WellFormed(FoldFrom(Empty, cart))
    ensures Values(FoldFrom(Empty, cart)) == SpecSummary(cart)
  {
    FoldTotal(Empty, cart);
    FoldMatchesReference(cart);
    var acc := FoldFrom(Empty, cart);
    var lines := Values(acc);
    forall i | 0 <= i < |lines|
      ensures lines[i] == SpecSummary(cart)[i]
    {
      assert acc.order[i] in acc.summary;
      assert lines[i].product.id == acc.order[i];
    }
  }

  /** An id that is not among the cart's ids is counted zero times. */
  lemma {:induction false} CountAbsent(cart: seq<Product>, k: string)
    requires k !in Ids(cart)
    ensures Count(cart, k) == 0
    decreases |cart|
  {
    if |cart| > 0 {
      assert Ids(cart) == Ids(cart[..|cart| - 1]) + [cart[|cart| - 1].id];
      CountAbsent(cart[..|cart| - 1], k);
    }
  }

  /** An id among the cart's ids is counted at least once. */
  lemma {:induction false} CountPresent(cart: seq<Product>, k: string)
    requires k in Ids(cart)
    ensures Count(cart, k) >= 1
    decreases |cart|
  {
    assert Ids(cart) == Ids(cart[..|cart| - 1]) + [cart[|cart| - 1].id];
    if cart[|cart| - 1].id != k {
      CountPresent(cart[..|cart| - 1], k);
    }
  }

  /** Replacing one line changes the total by the difference of the two quantities. */
  lemma {:induction false} TotalUpdate(lines: seq<SummaryLine>, j: nat, line: SummaryLine)
    requires j < |lines|
    ensures TotalQuantity(lines[j := line]) + lines[j].quantity == TotalQuantity(lines) + line.quantity
    decreases |lines|
  {
    var n := |lines|;
    var updated := lines[j := line];
    assert updated[..n - 1] == if j < n - 1 then lines[..n - 1][j := line] else lines[..n - 1];
    if j < n - 1 {
      TotalUpdate(lines[..n - 1], j, line);
    }
  }

  /** Each step of the fold keeps the accumulator well formed. */
  lemma StepWellFormed(acc: Acc, item: Product)
    requires WellFormed(acc)
    ensures WellFormed(Step(acc, item))
  {
    var next := Step(acc, item);
    if item.id !in acc.summary {
      assert item.id !in acc.order;
      assert next.order == acc.order + [item.id];
      assert Distinct(next.order);
    }
  }

  /** Bumping the line of a listed id bumps exactly that position of `Object.values`. */
  lemma BumpValues(acc: Acc, item: Product, j: nat)
    requires WellFormed(acc) && item.id in acc.summary
    requires j < |acc.order| && acc.order[j] == item.id
    ensures var line := acc.summary[item.id];
            Values(Step(acc, item)) == Values(acc)[j := line.(quantity := line.quantity + 1)]
  {
    var next := Step(acc, item);
    var line := acc.summary[item.id];
    forall i | 0 <= i < |acc.order|
      ensures Values(next)[i] == Values(acc)[j := line.(quantity := line.quantity + 1)][i]
    {
      if i != j {
        assert acc.order[i] != item.id;
      }
    }
  }

  /** A new id appends its line, with quantity 1, to `Object.values`. */
  lemma AppendTotal(acc: Acc, item: Product)
    requires WellFormed(acc) && item.id !in acc.summary
    ensures Values(Step(acc, item)) == Values(acc) + [SummaryLine(item, 1)]
    ensures TotalQuantity(Values(Step(acc, item))) == TotalQuantity(Values(acc)) + 1
  {
    var vs := Values(Step(acc, item));
    assert vs[..|vs| - 1] == Values(acc);
    assert vs[|vs| - 1] == SummaryLine(item, 1);
  }

  /** Each step of the fold adds exactly one to the total quantity of the listed lines. */
  lemma StepTotal(acc: Acc, item: Product)
    requires WellFormed(acc)
    ensures WellFormed(Step(acc, item))
    ensures TotalQuantity(Values(Step(acc, item))) == TotalQuantity(Values(acc)) + 1
  {
    StepWellFormed(acc, item);
    if item.id in acc.summary {
      var j :| 0 <= j < |acc.order| && acc.order[j] == item.id;
      var line := acc.summary[item.id];
      BumpValues(acc, item, j);
      TotalUpdate(Values(acc), j, line.(quantity := line.quantity + 1));
    } else {
      AppendTotal(acc, item);
    }
  }

  /** Folding `items` into `acc` adds `|items|` to the total quantity. */
  lemma {:induction false} FoldTotal(acc: Acc, items: seq<Product>)
    requires WellFormed(acc)
    ensures WellFormed(FoldFrom(acc, items))
    ensures TotalQuantity(Values(FoldFrom(acc, items))) == TotalQuantity(Values(acc)) + |items|
    decreases |items|
  {
    if |items| > 0 {
      FoldTotal(acc, items[..|items| - 1]);
      StepTotal(FoldFrom(acc, items[..|items| - 1]), items[|items| - 1]);
    }
  }

  // ---------------------------------------------------------------------------------------
  // Round trip: summarising a cart rebuilt from a summary gives back that summary

  /** `n` copies of `p`. */
  function Repeat(p: Product, n: nat): (r: seq<Product>)
    ensures |r| == n
    ensures forall i :: 0 <= i < n ==> r[i] == p
  {
    if n == 0 then [] else Repeat(p, n - 1) + [p]
  }

  /** The cart that adds each line's product `quantity` times, line after line. */
  function Expand(lines: seq<SummaryLine>): seq<Product> {
    if |lines| == 0 then []
    else
      var last := lines[|lines| - 1];
      Expand(lines[..|lines| - 1]) + Repeat(last.product, last.quantity)
  }

  /** Summary lines that could have come out of a summary: distinct ids, positive quantities. */
  predicate IsSummary(lines: seq<SummaryLine>) {
    && Distinct(LineIds(lines))
    && forall i :: 0 <= i < |lines| ==> lines[i].quantity >= 1
  }

  /** The lines keyed by product id. */
  function ByProductId(lines: seq<SummaryLine>): (m: map<string, SummaryLine>)
    ensures forall k :: k in m <==> k in LineIds(lines)
  {
    if |lines| == 0 then map[]
    else
      var init := lines[..|lines| - 1];
      assert LineIds(lines) == LineIds(init) + [lines[|lines| - 1].product.id];
      ByProductId(init)[lines[|lines| - 1].product.id := lines[|lines| - 1]]
  }

  /** Folding two pieces of a cart one after the other is folding the whole cart. */
  lemma {:induction false} FoldAppend(acc: Acc, a: seq<Product>, b: seq<Product>)
    ensures FoldFrom(acc, a + b) == FoldFrom(FoldFrom(acc, a), b)
    decreases |b|
  {
    if |b| == 0 {
      assert a + b == a;
    } else {
      var ab := a + b;
      assert ab[..|ab| - 1] == a + b[..|b| - 1];
      assert ab[|ab| - 1] == b[|b| - 1];
      FoldAppend(acc, a, b[..|b| - 1]);
      var mid := FoldFrom(acc, a);
      calc {
        FoldFrom(acc, ab);
        Step(FoldFrom(acc, a + b[..|b| - 1]), b[|b| - 1]);
        Step(FoldFrom(mid, b[..|b| - 1]), b[|b| - 1]);
        FoldFrom(mid, b);
      }
    }
  }

  /** Folding `n` copies of a product whose id is new creates one line with quantity `n`. */
  lemma {:induction false} FoldRepeat(acc: Acc, p: Product, n: nat)
    requires p.id !in acc.summary && n >= 1
    ensures FoldFrom(acc, Repeat(p, n)) == Acc(acc.summary[p.id := SummaryLine(p, n)], acc.order + [p.id])
    decreases n
  {
    var items := Repeat(p, n);
    assert items[..n - 1] == Repeat(p, n - 1);
    assert items[n - 1] == p;
    if n == 1 {
      assert FoldFrom(acc, items[..0]) == acc;
    } else {
      FoldRepeat(acc, p, n - 1);
      var prev := Acc(acc.summary[p.id := SummaryLine(p, n - 1)], acc.order + [p.id]);
      assert FoldFrom(acc, items) == Step(prev, p);
    }
  }

  /** Folding the expansion of a summary rebuilds exactly its object and key order. */
  lemma {:induction false} FoldExpand(lines: seq<SummaryLine>)
    requires IsSummary(lines)
    ensures FoldFrom(Empty, Expand(lines)) == Acc(ByProductId(lines), LineIds(lines))
    decreases |lines|
  {
    if |lines| > 0 {
      var init := lines[..|lines| - 1];
      var last := lines[|lines| - 1];
      assert LineIds(lines) == LineIds(init) + [last.product.id];
      FoldExpand(init);
      FoldAppend(Empty, Expand(init), Repeat(last.product, last.quantity));
      assert last.product.id !in LineIds(init);
      FoldRepeat(FoldFrom(Empty, Expand(init)), last.product, last.quantity);
    }
  }

  /** Under distinct ids, each line is what the id map holds for its id. */
  lemma {:induction false} ByProductIdLookup(lines: seq<SummaryLine>, i: nat)
    requires Distinct(LineIds(lines)) && i < |lines|
    ensures lines[i].product.id in ByProductId(lines)
    ensures ByProductId(lines)[lines[i].product.id] == lines[i]
    decreases |lines|
  {
    var init := lines[..|lines| - 1];
    assert LineIds(lines) == LineIds(init) + [lines[|lines| - 1].product.id];
    if i < |lines| - 1 {
      ByProductIdLookup(init, i);
    }
  }

  /**
   * A cart rebuilt from a summary, by adding each line's product `quantity` times, summarises
   * back to that same summary.
   */
  lemma SummaryOfExpansion(lines: seq<SummaryLine>)
    requires IsSummary(lines)
    ensures GetCartSummary(Expand(lines)) == lines
  {
    FoldExpand(lines);
    var acc := FoldFrom(Empty, Expand(lines));
    forall i | 0 <= i < |lines|
      ensures Values(acc)[i] == lines[i]
    {
      ByProductIdLookup(lines, i);
    }
  }

  /** Summarising is idempotent on its own output, read back as a cart. */
  lemma SummaryIdempotent(cart: seq<Product>)
    ensures GetCartSummary(Expand(GetCartSummary(cart))) == GetCartSummary(cart)
  {
    SummaryIdsMatchCart(cart);
    SummaryLinesDescribeItems(cart);
    SummaryOfExpansion(GetCartSummary(cart));
  }

  /** The example cart [X, Y, X] gives [X x2, Y x1], in that order. */
  lemma ExampleCart(x: Product, y: Product)
    requires x.id != y.id
    ensures GetCartSummary([x, y, x]) == [SummaryLine(x, 2), SummaryLine(y, 1)]
  {
    var cart := [x, y, x];
    assert cart[..2] == [x, y] && [x, y][..1] == [x] && [x][..0] == [];
    var a1 := Acc(map[x.id := SummaryLine(x, 1)], [x.id]);
    var a2 := Acc(a1.summary[y.id := SummaryLine(y, 1)], [x.id, y.id]);
    var a3 := Acc(a2.summary[x.id := SummaryLine(x, 2)], [x.id, y.id]);
    assert FoldFrom(Empty, [x]) == Step(Empty, x) == a1;
    assert FoldFrom(Empty, [x, y]) == Step(a1, y) == a2;
    assert FoldFrom(Empty, cart) == Step(a2, x) == a3;
    assert Values(a3) == [SummaryLine(x, 2), SummaryLine(y, 1)];
  }
}
