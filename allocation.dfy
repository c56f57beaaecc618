/** The allocator: applying the FIFO walk to the ledger. Each take records a
    usage, decrements the lot and decrements the stock counter of the
    product that owns the lot (which may be another product of the same
    name than the one sold). */
module Allocation {
  import opened Models
  import opened Fifo

  /** One pass of the allocator's loop body: take `x` units from lot `j` for
      sale `sid`. */
  function Debit(b: Books, sid: nat, j: nat, x: real): Books
    requires j < |b.lots|
  {
    var lot := b.lots[j];
    Books(b.lots[j := lot.(remaining := lot.remaining - x)],
          if lot.product in b.products
          then b.products[lot.product := b.products[lot.product].(currentStock := b.products[lot.product].currentStock - x)]
          else b.products,
          b.usages + [Usage(sid, j, x)])
  }

  /** The takes `t` applied in order to the lots `order[..|t|]`. Only the
      remaining quantities and stock counters change, and one usage per take
      is appended. */
  function Apply(b: Books, sid: nat, order: seq<nat>, t: seq<real>): (r: Books)
    requires |t| <= |order| && WithinLots(order, b.lots)
    ensures |r.lots| == |b.lots|
    ensures forall j :: 0 <= j < |b.lots| ==> r.lots[j] == b.lots[j].(remaining := r.lots[j].remaining)
    ensures r.products.Keys == b.products.Keys
    ensures forall p :: p in b.products ==> r.products[p].name == b.products[p].name
    ensures |r.usages| == |b.usages| + |t| && r.usages[..|b.usages|] == b.usages
    ensures forall k :: 0 <= k < |t| ==> r.usages[|b.usages| + k] == Usage(sid, order[k], t[k])
    decreases |t|
  {
    if t == [] then b
    else
      var n := |t| - 1;
      var r' := Apply(b, sid, order, t[..n]);
      assert forall k :: 0 <= k < n ==> t[..n][k] == t[k];
      Debit(r', sid, order[n], t[n])
  }

  /** Applying one more take is one more debit. */
  lemma ApplyStep(b: Books, sid: nat, order: seq<nat>, t: seq<real>, i: nat)
    requires i < |t| <= |order| && WithinLots(order, b.lots)
    ensures |Apply(b, sid, order, t[..i]).lots| == |b.lots|
    ensures Apply(b, sid, order, t[..i + 1]) == Debit(Apply(b, sid, order, t[..i]), sid, order[i], t[i])
  {
    assert t[..i + 1][..i] == t[..i];
  }

  /** The allocation a sale of `need` units makes from the lots `order`, as
      read from `b` before any write. */
  function Allocate(b: Books, sid: nat, order: seq<nat>, need: real): Books
    requires WithinLots(order, b.lots)
  {
    Apply(b, sid, order, Takes(Rows(order, b.lots), need))
  }

  /** Total quantity drawn by a sequence of usages. */
  function Drawn(us: seq<Usage>): real
  {
    if us == [] then 0.0 else us[0].used + Drawn(us[1..])
  }

  lemma {:induction false} DrawnIsSum(us: seq<Usage>, t: seq<real>)
    requires |us| == |t| && forall k :: 0 <= k < |t| ==> us[k].used == t[k]
    ensures Drawn(us) == Sum(t)
  {
    if us != [] {
      DrawnIsSum(us[1..], t[1..]);
    }
  }

  /** A take keeps every lot's accounting gap and every product's drift. */
  lemma DebitBalances(b: Books, sid: nat, j: nat, x: real)
    requires j < |b.lots|
    ensures forall i :: 0 <= i < |b.lots| ==> Gap(Debit(b, sid, j, x), i) == Gap(b, i)
    ensures forall p :: p in b.products ==> Drift(Debit(b, sid, j, x), p) == Drift(b, p)
  {
    var d := Debit(b, sid, j, x);
    forall i | 0 <= i < |b.lots| ensures Gap(d, i) == Gap(b, i) {
      UsedOnAppend(b.usages, Usage(sid, j, x), i);
    }
    forall p | p in b.products ensures Drift(d, p) == Drift(b, p) {
      StockOfUpdate(b.lots, j, b.lots[j].remaining - x, p);
    }
  }

  lemma {:induction false} ApplyBalances(b: Books, sid: nat, order: seq<nat>, t: seq<real>)
    requires |t| <= |order| && WithinLots(order, b.lots)
    ensures forall i :: 0 <= i < |b.lots| ==> Gap(Apply(b, sid, order, t), i) == Gap(b, i)
    ensures forall p :: p in b.products ==> Drift(Apply(b, sid, order, t), p) == Drift(b, p)
    decreases |t|
  {
    if t != [] {
      var n := |t| - 1;
      ApplyBalances(b, sid, order, t[..n]);
      DebitBalances(Apply(b, sid, order, t[..n]), sid, order[n], t[n]);
    }
  }

  /** Over a duplicate-free order, take k lowers lot order[k] by t[k] and
      every lot not drawn from is left as it was. */
  lemma {:induction false} ApplyEffect(b: Books, sid: nat, order: seq<nat>, t: seq<real>)
    requires |t| <= |order| && WithinLots(order, b.lots) && Distinct(order)
    ensures forall k :: 0 <= k < |t| ==>
      Apply(b, sid, order, t).lots[order[k]].remaining == b.lots[order[k]].remaining - t[k]
    ensures forall j :: 0 <= j < |b.lots| && j !in order[..|t|] ==> Apply(b, sid, order, t).lots[j] == b.lots[j]
    decreases |t|
  {
    if t != [] {
      var n := |t| - 1;
      ApplyEffect(b, sid, order, t[..n]);
      assert order[n] !in order[..n];
      forall j | 0 <= j < |b.lots| && j !in order[..|t|]
        ensures Apply(b, sid, order, t).lots[j] == b.lots[j]
      {
        assert order[..|t|] == order[..n] + [order[n]];
      }
    }
  }

  /** A sale's allocation keeps the ledger consistent (lots within bounds,
      every lot's drawn total matching its usages) and keeps every product's
      stock counter exactly as far from the sum over its own lots as before. */
  lemma AllocateKeepsConsistent(b: Books, sales: set<nat>, sid: nat, order: seq<nat>, need: real)
    requires Consistent(b, sales) && sid in sales
    requires WithinLots(order, b.lots) && Distinct(order)
    requires forall k :: 0 <= k < |order| ==> b.lots[order[k]].remaining > 0.0
    ensures Consistent(Allocate(b, sid, order, need), sales)
    ensures forall p :: p in b.products ==> Drift(Allocate(b, sid, order, need), p) == Drift(b, p)
  {
    var t := Takes(Rows(order, b.lots), need);
    ApplyBalances(b, sid, order, t);
    AllocateBounded(b, sid, order, need);
    AllocateLinked(b, sales, sid, order, need);
  }

  /** No lot is drawn below zero, since each take is at most what the lot
      holds and each lot is drawn from once. */
  lemma AllocateBounded(b: Books, sid: nat, order: seq<nat>, need: real)
    requires Bounded(b.lots)
    requires WithinLots(order, b.lots) && Distinct(order)
    requires forall k :: 0 <= k < |order| ==> b.lots[order[k]].remaining > 0.0
    ensures Bounded(Allocate(b, sid, order, need).lots)
  {
    var rows := Rows(order, b.lots);
    TakesBounds(rows, need);
    ApplyBounded(b, sid, order, Takes(rows, need));
  }

  /** Takes within their lots' stock, over distinct lots, keep every lot
      between zero and its initial quantity. */
  lemma {:induction false} ApplyBounded(b: Books, sid: nat, order: seq<nat>, t: seq<real>)
    requires Bounded(b.lots)
    requires |t| <= |order| && WithinLots(order, b.lots) && Distinct(order)
    requires forall k :: 0 <= k < |t| ==> 0.0 <= t[k] <= b.lots[order[k]].remaining
    ensures Bounded(Apply(b, sid, order, t).lots)
    decreases |t|
  {
    if t != [] {
      var n := |t| - 1;
      assert forall k :: 0 <= k < n ==> t[..n][k] == t[k];
      ApplyBounded(b, sid, order, t[..n]);
      ApplyEffect(b, sid, order, t[..n]);
      assert order[n] !in order[..n];
    }
  }

  /** Every usage the allocation records names an existing lot, the sale and
      a positive quantity. */
  lemma AllocateLinked(b: Books, sales: set<nat>, sid: nat, order: seq<nat>, need: real)
    requires Linked(b, sales) && sid in sales
    requires WithinLots(order, b.lots)
    requires forall k :: 0 <= k < |order| ==> b.lots[order[k]].remaining > 0.0
    ensures Linked(Allocate(b, sid, order, need), sales)
  {
    var rows := Rows(order, b.lots);
    var t := Takes(rows, need);
    var r := Allocate(b, sid, order, need);
    TakesBounds(rows, need);
    forall k | 0 <= k < |r.usages|
      ensures r.usages[k].lot < |r.lots| && r.usages[k].sale in sales && r.usages[k].used > 0.0
    {
      if k < |b.usages| {
        assert r.usages[k] == r.usages[..|b.usages|][k];
      } else {
        assert r.usages[k] == Usage(sid, order[k - |b.usages|], t[k - |b.usages|]);
      }
    }
  }

  /** On a request the group can cover, the sale's usages draw exactly the
      requested quantity, from a prefix of the FIFO order, each within the
      lot's stock, and every lot drawn from except the last is left empty. */
  lemma AllocationShape(b: Books, sid: nat, order: seq<nat>, need: real)
    requires WithinLots(order, b.lots) && Distinct(order)
    requires forall k :: 0 <= k < |order| ==> b.lots[order[k]].remaining > 0.0
    ensures var r := Allocate(b, sid, order, need);
      var taken := r.usages[|b.usages|..];
      && |taken| <= |order|
      && (forall k :: 0 <= k < |taken| ==>
            taken[k].sale == sid && taken[k].lot == order[k]
            && 0.0 < taken[k].used <= b.lots[order[k]].remaining
            && r.lots[order[k]].remaining == b.lots[order[k]].remaining - taken[k].used)
      && (forall k :: 0 <= k < |taken| - 1 ==> r.lots[order[k]].remaining == 0.0)
      && (0.0 <= need <= Avail(Rows(order, b.lots)) ==> Drawn(taken) == need)
      && (need > Avail(Rows(order, b.lots)) ==> Drawn(taken) == Avail(Rows(order, b.lots)))
  {
    AllocationTakes(b, sid, order, need);
    AllocationLots(b, sid, order, need);
    AllocationTotal(b, sid, order, need);
  }

  lemma AllocationTakes(b: Books, sid: nat, order: seq<nat>, need: real)
    requires WithinLots(order, b.lots)
    requires forall k :: 0 <= k < |order| ==> b.lots[order[k]].remaining > 0.0
    ensures var taken := Allocate(b, sid, order, need).usages[|b.usages|..];
      && |taken| <= |order|
      && (forall k :: 0 <= k < |taken| ==>
            taken[k].sale == sid && taken[k].lot == order[k] && 0.0 < taken[k].used <= b.lots[order[k]].remaining)
  {
    var rows := Rows(order, b.lots);
    TakesBounds(rows, need);
    TakenUsages(b, sid, order, Takes(rows, need));
  }

  lemma AllocationLots(b: Books, sid: nat, order: seq<nat>, need: real)
    requires WithinLots(order, b.lots) && Distinct(order)
    requires forall k :: 0 <= k < |order| ==> b.lots[order[k]].remaining > 0.0
    ensures var r := Allocate(b, sid, order, need);
      var taken := r.usages[|b.usages|..];
      && (forall k :: 0 <= k < |taken| ==> r.lots[order[k]].remaining == b.lots[order[k]].remaining - taken[k].used)
      && (forall k :: 0 <= k < |taken| - 1 ==> r.lots[order[k]].remaining == 0.0)
  {
    var rows := Rows(order, b.lots);
    var t := Takes(rows, need);
    TakesDrain(rows, need);
    TakenUsages(b, sid, order, t);
    ApplyEffect(b, sid, order, t);
  }

  lemma AllocationTotal(b: Books, sid: nat, order: seq<nat>, need: real)
    requires WithinLots(order, b.lots)
    requires forall k :: 0 <= k < |order| ==> b.lots[order[k]].remaining > 0.0
    ensures var taken := Allocate(b, sid, order, need).usages[|b.usages|..];
      && (0.0 <= need <= Avail(Rows(order, b.lots)) ==> Drawn(taken) == need)
      && (need > Avail(Rows(order, b.lots)) ==> Drawn(taken) == Avail(Rows(order, b.lots)))
  {
    var rows := Rows(order, b.lots);
    var t := Takes(rows, need);
    var taken := Allocate(b, sid, order, need).usages[|b.usages|..];
    TakesShape(rows, need);
    TakenUsages(b, sid, order, t);
    DrawnIsSum(taken, t);
  }

  /** The usages an application appends, one per take. */
  lemma TakenUsages(b: Books, sid: nat, order: seq<nat>, t: seq<real>)
    requires |t| <= |order| && WithinLots(order, b.lots)
    ensures var taken := Apply(b, sid, order, t).usages[|b.usages|..];
      |taken| == |t| && forall k :: 0 <= k < |t| ==> taken[k] == Usage(sid, order[k], t[k])
  {
    var r := Apply(b, sid, order, t);
    forall k | 0 <= k < |t| ensures r.usages[|b.usages|..][k] == Usage(sid, order[k], t[k]) {
      assert r.usages[|b.usages|..][k] == r.usages[|b.usages| + k];
    }
  }
}
