/** The first-occurrence-wins merge both scrapers run over freshly parsed
    products: a product whose `product_id` was already collected is skipped,
    every other one is appended and its id remembered. */
module Dedup {
  import opened Records

  /** The ids of a product list. */
  function Ids(ps: seq<Product>): set<string> {
    if ps == [] then {} else Ids(ps[..|ps| - 1]) + {ps[|ps| - 1].productId}
  }

  /** The id set holds exactly the ids carried by the list's products. */
  lemma IdsMembers(ps: seq<Product>)
    ensures forall id :: id in Ids(ps) <==> exists k :: 0 <= k < |ps| && ps[k].productId == id
  {
    IdsHas(ps);
    IdsWitness(ps);
  }

  lemma {:induction false} IdsHas(ps: seq<Product>)
    ensures forall k :: 0 <= k < |ps| ==> ps[k].productId in Ids(ps)
  {
    if ps != [] {
      var init := ps[..|ps| - 1];
      IdsHas(init);
      assert forall k :: 0 <= k < |init| ==> ps[k] == init[k];
    }
  }

  lemma {:induction false} IdsWitness(ps: seq<Product>)
    ensures forall id :: id in Ids(ps) ==> exists k :: 0 <= k < |ps| && ps[k].productId == id
  {
    if ps != [] {
      var init := ps[..|ps| - 1];
      IdsWitness(init);
      forall id | id in Ids(ps) ensures exists k :: 0 <= k < |ps| && ps[k].productId == id {
        if id in Ids(init) {
          var k :| 0 <= k < |init| && init[k].productId == id;
          assert ps[k] == init[k];
        } else {
          assert ps[|ps| - 1].productId == id;
        }
      }
    }
  }

  lemma IdsSnoc(ps: seq<Product>, p: Product)
    ensures Ids(ps + [p]) == Ids(ps) + {p.productId}
  {
    assert (ps + [p])[..|ps|] == ps;
  }

  lemma {:induction false} IdsAppend(ps: seq<Product>, qs: seq<Product>)
    ensures Ids(ps + qs) == Ids(ps) + Ids(qs)
    decreases |qs|
  {
    if qs == [] {
      assert ps + qs == ps;
    } else {
      var init, q := qs[..|qs| - 1], qs[|qs| - 1];
      assert qs == init + [q];
      assert ps + qs == (ps + init) + [q];
      IdsSnoc(ps + init, q);
      IdsAppend(ps, init);
      IdsSnoc(init, q);
    }
  }

  lemma IdsCons(q: Product, rest: seq<Product>)
    ensures Ids([q] + rest) == {q.productId} + Ids(rest)
  {
    IdsAppend([q], rest);
    assert [q] == [] + [q];
    IdsSnoc([], q);
  }

  /** No two products share an id. */
  predicate DistinctIds(ps: seq<Product>) {
    forall i, j :: 0 <= i < j < |ps| ==> ps[i].productId != ps[j].productId
  }

  /** The collected list after running the loop over `batch` with `acc`
      already collected (and the seen set equal to the ids of `acc`). */
  function Merge(acc: seq<Product>, batch: seq<Product>): (r: seq<Product>)
    ensures |acc| <= |r| <= |acc| + |batch|
    ensures r[..|acc|] == acc
  {
    if batch == [] then acc
    else
      var m := Merge(acc, batch[..|batch| - 1]);
      var p := batch[|batch| - 1];
      if p.productId in Ids(m) then m else m + [p]
  }

  /** Reference definition read left to right: keep a product when its id is
      neither in `seen` nor carried by an earlier product of the batch. */
  function FirstOccurrences(batch: seq<Product>, seen: set<string>): seq<Product> {
    if batch == [] then []
    else if batch[0].productId in seen then FirstOccurrences(batch[1..], seen)
    else [batch[0]] + FirstOccurrences(batch[1..], seen + {batch[0].productId})
  }

  lemma {:induction false} FirstOccurrencesIds(batch: seq<Product>, seen: set<string>)
    ensures seen + Ids(FirstOccurrences(batch, seen)) == seen + Ids(batch)
    decreases |batch|
  {
    if batch != [] {
      var p := batch[0];
      assert batch == [p] + batch[1..];
      IdsAppend([p], batch[1..]);
      if p.productId in seen {
        FirstOccurrencesIds(batch[1..], seen);
      } else {
        FirstOccurrencesIds(batch[1..], seen + {p.productId});
        IdsAppend([p], FirstOccurrences(batch[1..], seen + {p.productId}));
      }
    }
  }

  lemma {:induction false} FirstOccurrencesSnoc(batch: seq<Product>, p: Product, seen: set<string>)
    ensures FirstOccurrences(batch + [p], seen)
         == FirstOccurrences(batch, seen) + (if p.productId in seen + Ids(batch) then [] else [p])
    decreases |batch|
  {
    if batch == [] {
      assert [p][1..] == [];
    } else {
      var q, rest := batch[0], batch[1..];
      assert (batch + [p])[0] == q;
      assert (batch + [p])[1..] == rest + [p];
      assert batch == [q] + rest;
      IdsCons(q, rest);
      if q.productId in seen {
        FirstOccurrencesSnoc(rest, p, seen);
        assert seen + Ids(batch) == seen + Ids(rest);
      } else {
        FirstOccurrencesSnoc(rest, p, seen + {q.productId});
        assert seen + Ids(batch) == (seen + {q.productId}) + Ids(rest);
      }
    }
  }

  lemma MergeSnoc(acc: seq<Product>, batch: seq<Product>, p: Product)
    ensures Merge(acc, batch + [p])
         == if p.productId in Ids(Merge(acc, batch)) then Merge(acc, batch) else Merge(acc, batch) + [p]
  {
    assert (batch + [p])[..|batch|] == batch;
  }

  /** The merge loop equals the reference: the collected list grows by
      exactly the first occurrences of the ids it did not hold yet. */
  lemma {:induction false} MergeIsFirstOccurrences(acc: seq<Product>, batch: seq<Product>)
    ensures Merge(acc, batch) == acc + FirstOccurrences(batch, Ids(acc))
    decreases |batch|
  {
    if batch != [] {
      var init := batch[..|batch| - 1];
      var p := batch[|batch| - 1];
      assert batch == init + [p];
      MergeIsFirstOccurrences(acc, init);
      FirstOccurrencesSnoc(init, p, Ids(acc));
      var f := FirstOccurrences(init, Ids(acc));
      IdsAppend(acc, f);
      FirstOccurrencesIds(init, Ids(acc));
    }
  }

  /** The collected ids are the old ones together with the batch's. */
  lemma MergeIds(acc: seq<Product>, batch: seq<Product>)
    ensures Ids(Merge(acc, batch)) == Ids(acc) + Ids(batch)
  {
    MergeIsFirstOccurrences(acc, batch);
    IdsAppend(acc, FirstOccurrences(batch, Ids(acc)));
    FirstOccurrencesIds(batch, Ids(acc));
  }

  /** A batch whose ids were all collected already adds nothing. */
  lemma {:induction false} MergeNothingNew(acc: seq<Product>, batch: seq<Product>)
    requires Ids(batch) <= Ids(acc)
    ensures Merge(acc, batch) == acc
    decreases |batch|
  {
    if batch != [] {
      var init := batch[..|batch| - 1];
      assert Ids(init) <= Ids(batch);
      MergeNothingNew(acc, init);
    }
  }

  /** A list with distinct ids keeps distinct ids through a merge. */
  lemma {:induction false} MergeDistinct(acc: seq<Product>, batch: seq<Product>)
    requires DistinctIds(acc)
    ensures DistinctIds(Merge(acc, batch))
    decreases |batch|
  {
    if batch != [] {
      var init := batch[..|batch| - 1];
      var p := batch[|batch| - 1];
      MergeDistinct(acc, init);
      var m := Merge(acc, init);
      if p.productId !in Ids(m) {
        IdsHas(m);
        var r := m + [p];
        forall i, j | 0 <= i < j < |r|
          ensures r[i].productId != r[j].productId
        {
          if j == |r| - 1 {
            assert r[i] == m[i];
          }
        }
      }
    }
  }

  /** `for p in batch: if p["product_id"] not in seen_ids: seen_ids.add(...);
      all_products.append(p); new_count += 1`. */
  method MergeNew(acc: seq<Product>, seen: set<string>, batch: seq<Product>)
    returns (all: seq<Product>, seenOut: set<string>, newCount: nat)
    requires seen == Ids(acc)
    ensures all == Merge(acc, batch)
    ensures seenOut == Ids(all)
    ensures newCount == |all| - |acc|
  {
    all, seenOut, newCount := acc, seen, 0;
    var i := 0;
    while i < |batch|
      invariant 0 <= i <= |batch|
      invariant all == Merge(acc, batch[..i])
      invariant seenOut == Ids(all)
      invariant newCount == |all| - |acc|
    {
      var p := batch[i];
      assert batch[..i + 1] == batch[..i] + [p];
      MergeSnoc(acc, batch[..i], p);
      if p.productId !in seenOut {
        IdsSnoc(all, p);
        seenOut := seenOut + {p.productId};
        all := all + [p];
        newCount := newCount + 1;
      }
      i := i + 1;
    }
    assert batch[..|batch|] == batch;
  }

  /** The merge across several lists (categories): each list is merged in turn. */
  function MergeAll(acc: seq<Product>, lists: seq<seq<Product>>): (r: seq<Product>)
    ensures |acc| <= |r| && r[..|acc|] == acc
  {
    if lists == [] then acc
    else
      var m := MergeAll(acc, lists[..|lists| - 1]);
      var r := Merge(m, lists[|lists| - 1]);
      assert r[..|acc|] == m[..|acc|];
      r
  }

  lemma {:induction false} MergeAllDistinct(acc: seq<Product>, lists: seq<seq<Product>>)
    requires DistinctIds(acc)
    ensures DistinctIds(MergeAll(acc, lists))
  {
    if lists != [] {
      MergeAllDistinct(acc, lists[..|lists| - 1]);
      MergeDistinct(MergeAll(acc, lists[..|lists| - 1]), lists[|lists| - 1]);
    }
  }

  /** `for category in categories: for cp in scrape(category): ...`, with the
      seen set shared across categories. */
  method MergeCategories(lists: seq<seq<Product>>) returns (all: seq<Product>)
    ensures all == MergeAll([], lists)
    ensures DistinctIds(all)
  {
    all := [];
    var seen: set<string> := {};
    var i := 0;
    while i < |lists|
      invariant 0 <= i <= |lists|
      invariant all == MergeAll([], lists[..i])
      invariant seen == Ids(all)
    {
      assert lists[..i + 1][..i] == lists[..i];
      var n;
      all, seen, n := MergeNew(all, seen, lists[i]);
      i := i + 1;
    }
    assert lists[..|lists|] == lists;
    MergeAllDistinct([], lists);
  }
}
