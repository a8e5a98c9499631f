// A freelancer's earnings: one pass over the payments that groups them by
// contract in a mutable map, against "filter by contract, then sum".

module Earnings {
  import opened Sums

  /** `amount` is the decimal in stroops; `cents` below is what the float conversion makes of it. */
  datatype Payment = Payment(contractId: string, jobTitle: Option<string>, amount: int)

  datatype Info = Info(jobTitle: Option<string>, amount: int, count: nat)

  datatype Group = Group(contractId: string, info: Info)

  function Of(payments: seq<Payment>, contractId: string): seq<Payment> {
    if payments == [] then []
    else
      var earlier := Of(payments[..|payments| - 1], contractId);
      var last := payments[|payments| - 1];
      if last.contractId == contractId then earlier + [last] else earlier
  }

  function Cents(cents: int -> int, payments: seq<Payment>): int {
    if payments == [] then 0
    else Cents(cents, payments[..|payments| - 1]) + cents(payments[|payments| - 1].amount)
  }

  /** The specification of one group. */
  function InfoOf(cents: int -> int, payments: seq<Payment>, contractId: string): Info {
    var mine := Of(payments, contractId);
    Info(if mine == [] then None else mine[0].jobTitle, Cents(cents, mine), |mine|)
  }

  function Contracts(payments: seq<Payment>): set<string> {
    set p | p in payments :: p.contractId
  }

  ghost predicate Distinct(ids: seq<string>) {
    forall i, j :: 0 <= i < j < |ids| ==> ids[i] != ids[j]
  }

  function Ids(order: seq<string>): set<string> {
    set id | id in order
  }

  /** The map the loop builds, for the payments seen so far. */
  ghost predicate Grouped(cents: int -> int, payments: seq<Payment>, infos: map<string, Info>) {
    && infos.Keys == Contracts(payments)
    && forall id :: id in infos ==> infos[id] == InfoOf(cents, payments, id)
  }

  function Amounts(infos: map<string, Info>): map<string, int> {
    map id | id in infos :: infos[id].amount
  }

  function Counts(infos: map<string, Info>): map<string, int> {
    map id | id in infos :: infos[id].count as int
  }

  function Add(infos: map<string, Info>, p: Payment, worth: int): map<string, Info> {
    infos[p.contractId :=
      if p.contractId in infos
      then infos[p.contractId].(amount := infos[p.contractId].amount + worth, count := infos[p.contractId].count + 1)
      else Info(p.jobTitle, worth, 1)]
  }

  lemma {:induction false} OfPresent(payments: seq<Payment>, id: string)
    ensures Of(payments, id) != [] <==> id in Contracts(payments)
  {
    if payments != [] {
      var (front, last) := (payments[..|payments| - 1], payments[|payments| - 1]);
      OfPresent(front, id);
      assert payments == front + [last];
    }
  }

  lemma CentsAppend(cents: int -> int, payments: seq<Payment>, p: Payment)
    ensures Cents(cents, payments + [p]) == Cents(cents, payments) + cents(p.amount)
  {
    assert (payments + [p])[..|payments|] == payments;
  }

  /** What one more payment does to the specification of a group. */
  lemma InfoOfAppend(cents: int -> int, payments: seq<Payment>, p: Payment, id: string)
    ensures InfoOf(cents, payments + [p], id)
         == if id != p.contractId then InfoOf(cents, payments, id)
            else if id !in Contracts(payments) then Info(p.jobTitle, cents(p.amount), 1)
            else
              var before := InfoOf(cents, payments, id);
              before.(amount := before.amount + cents(p.amount), count := before.count + 1)
  {
    assert (payments + [p])[..|payments|] == payments;
    OfPresent(payments, id);
    CentsAppend(cents, Of(payments, id), p);
  }

  lemma AddGrouped(cents: int -> int, payments: seq<Payment>, infos: map<string, Info>, p: Payment)
    requires Grouped(cents, payments, infos)
    ensures Grouped(cents, payments + [p], Add(infos, p, cents(p.amount)))
  {
    hide InfoOf;
    assert Contracts(payments + [p]) == Contracts(payments) + {p.contractId};
    forall id | id in Contracts(payments + [p])
      ensures Add(infos, p, cents(p.amount))[id] == InfoOf(cents, payments + [p], id)
    {
      InfoOfAppend(cents, payments, p, id);
    }
  }

  lemma AddTotals(infos: map<string, Info>, p: Payment, worth: int)
    ensures Total(Amounts(Add(infos, p, worth))) == Total(Amounts(infos)) + worth
    ensures Total(Counts(Add(infos, p, worth))) == Total(Counts(infos)) + 1
  {
    var after := Add(infos, p, worth)[p.contractId];
    TotalPut(Amounts(infos), p.contractId, after.amount);
    assert Amounts(Add(infos, p, worth)) == Amounts(infos)[p.contractId := after.amount];
    TotalPut(Counts(infos), p.contractId, after.count);
    assert Counts(Add(infos, p, worth)) == Counts(infos)[p.contractId := after.count];
  }

  function AmountSum(groups: seq<Group>): int {
    if groups == [] then 0 else AmountSum(groups[..|groups| - 1]) + groups[|groups| - 1].info.amount
  }

  function CountSum(groups: seq<Group>): int {
    if groups == [] then 0 else CountSum(groups[..|groups| - 1]) + groups[|groups| - 1].info.count
  }

  ghost predicate ListedFrom(groups: seq<Group>, order: seq<string>, infos: map<string, Info>) {
    && |groups| == |order|
    && forall i :: 0 <= i < |order| ==> order[i] in infos && groups[i] == Group(order[i], infos[order[i]])
  }

  function Restrict(infos: map<string, Info>, order: seq<string>): map<string, Info> {
    map id | id in infos && id in order :: infos[id]
  }

  /** A sum taken in any order of the keys is the sum of the map. */
  lemma {:induction false} SumInOrder(groups: seq<Group>, order: seq<string>, infos: map<string, Info>)
    requires Distinct(order) && ListedFrom(groups, order, infos)
    ensures AmountSum(groups) == Total(Amounts(Restrict(infos, order)))
    ensures CountSum(groups) == Total(Counts(Restrict(infos, order)))
  {
    hide Restrict, Amounts, Counts, Total;
    if order == [] {
      RestrictNone(infos);
    } else {
      var n := |order| - 1;
      SumInOrder(groups[..n], order[..n], infos);
      RestrictOne(infos, order[..n], order[n]);
      assert order == order[..n] + [order[n]];
    }
  }

  lemma RestrictNone(infos: map<string, Info>)
    ensures Total(Amounts(Restrict(infos, []))) == 0 == Total(Counts(Restrict(infos, [])))
  {
    assert Restrict(infos, []).Keys == {};
  }

  lemma RestrictOne(infos: map<string, Info>, front: seq<string>, last: string)
    requires last in infos && last !in front
    ensures Total(Amounts(Restrict(infos, front + [last])))
         == Total(Amounts(Restrict(infos, front))) + infos[last].amount
    ensures Total(Counts(Restrict(infos, front + [last]))) == Total(Counts(Restrict(infos, front))) + infos[last].count
  {
    var (before, after) := (Restrict(infos, front), Restrict(infos, front + [last]));
    assert Amounts(after) == Amounts(before)[last := infos[last].amount];
    TotalPut(Amounts(before), last, infos[last].amount);
    assert Counts(after) == Counts(before)[last := infos[last].count];
    TotalPut(Counts(before), last, infos[last].count);
  }

  /** The groups listed in order are the specification's. */
  lemma Listed(cents: int -> int, payments: seq<Payment>, groups: seq<Group>, order: seq<string>,
               infos: map<string, Info>)
    requires Grouped(cents, payments, infos) && ListedFrom(groups, order, infos)
    requires Distinct(order) && Ids(order) == infos.Keys
    ensures ByContract(cents, payments, groups)
    ensures AmountSum(groups) == Total(Amounts(infos)) && CountSum(groups) == Total(Counts(infos))
  {
    SumInOrder(groups, order, infos);
    assert Restrict(infos, order) == infos by {
      assert forall id :: id in infos ==> id in Ids(order);
    }
    forall id | id in Contracts(payments) ensures exists g :: g in groups && g.contractId == id {
      assert id in Ids(order);
      var i :| 0 <= i < |order| && order[i] == id;
      assert groups[i] in groups;
    }
    forall g | g in groups ensures g.contractId in infos && g.info == infos[g.contractId] {
      var i :| 0 <= i < |groups| && groups[i] == g;
      assert order[i] in infos;
    }
    forall i, j | 0 <= i < j < |groups| ensures groups[i].contractId != groups[j].contractId {
      assert order[i] != order[j];
    }
  }

  /** Every contract with a payment appears exactly once, with exactly its own payments. */
  ghost predicate ByContract(cents: int -> int, payments: seq<Payment>, groups: seq<Group>) {
    && (forall i, j :: 0 <= i < j < |groups| ==> groups[i].contractId != groups[j].contractId)
    && (forall id :: id in Contracts(payments) ==> exists g :: g in groups && g.contractId == id)
    && (forall g :: g in groups ==>
          g.contractId in Contracts(payments) && g.info == InfoOf(cents, payments, g.contractId))
  }

  /** What the loop has gathered from the payments seen so far. */
  ghost predicate Tallied(cents: int -> int, seen: seq<Payment>, total: int, infos: map<string, Info>) {
    && Grouped(cents, seen, infos)
    && total == Cents(cents, seen) == Total(Amounts(infos))
    && Total(Counts(infos)) == |seen|
  }

  lemma TallyOne(cents: int -> int, seen: seq<Payment>, total: int, infos: map<string, Info>, p: Payment)
    requires Tallied(cents, seen, total, infos)
    ensures Tallied(cents, seen + [p], total + cents(p.amount), Add(infos, p, cents(p.amount)))
  {
    AddGrouped(cents, seen, infos, p);
    AddTotals(infos, p, cents(p.amount));
    CentsAppend(cents, seen, p);
    hide Grouped, Amounts, Counts, Cents;
  }

  lemma TallyAll(cents: int -> int, seen: seq<Payment>, total: int, infos: map<string, Info>)
    requires Tallied(cents, seen, total, infos)
    ensures Grouped(cents, seen, infos)
    ensures total == Cents(cents, seen) == Total(Amounts(infos)) && Total(Counts(infos)) == |seen|
  {
  }

  /** The contracts in the order of their first payment. */
  function FirstSeen(payments: seq<Payment>): seq<string> {
    if payments == [] then []
    else
      var earlier := FirstSeen(payments[..|payments| - 1]);
      var id := payments[|payments| - 1].contractId;
      if id in earlier then earlier else earlier + [id]
  }

  ghost predicate InOrderOf(groups: seq<Group>, ids: seq<string>) {
    |groups| == |ids| && forall i :: 0 <= i < |ids| ==> groups[i].contractId == ids[i]
  }

  lemma SeenOne(payments: seq<Payment>, p: Payment)
    ensures FirstSeen(payments + [p])
         == FirstSeen(payments) + if p.contractId in FirstSeen(payments) then [] else [p.contractId]
  {
    assert (payments + [p])[..|payments|] == payments;
  }

  /** The one-pass loop; the groups come in the order of their first payment and add up to the totals. */
  method GetEarnings(cents: int -> int, payments: seq<Payment>)
    returns (total: int, count: nat, byContract: seq<Group>)
    ensures total == Cents(cents, payments) && count == |payments|
    ensures ByContract(cents, payments, byContract)
    ensures AmountSum(byContract) == total && CountSum(byContract) == count
    ensures InOrderOf(byContract, FirstSeen(payments))
  {
    hide Tallied, Grouped, ByContract, Amounts, Counts, Cents, Ids, Distinct, InfoOf, FirstSeen;
    total := 0;
    var order: seq<string> := [];
    var infos: map<string, Info> := map[];
    GroupedStart(cents);
    for i := 0 to |payments|
      invariant Tallied(cents, payments[..i], total, infos)
      invariant Distinct(order) && Ids(order) == infos.Keys && order == FirstSeen(payments[..i])
    {
      var p := payments[i];
      assert payments[..i + 1] == payments[..i] + [p];
      var worth := cents(p.amount);
      TallyOne(cents, payments[..i], total, infos, p);
      SeenOne(payments[..i], p);
      SeenIs(order, p.contractId);
      total := total + worth;
      if p.contractId in infos {
        var existing := infos[p.contractId];
        existing := existing.(amount := existing.amount + worth);
        existing := existing.(count := existing.count + 1);
        infos := infos[p.contractId := existing];
      } else {
        NewId(order, p.contractId);
        infos := infos[p.contractId := Info(p.jobTitle, worth, 1)];
        order := order + [p.contractId];
      }
    }
    assert payments[..|payments|] == payments;
    TallyAll(cents, payments, total, infos);
    count := |payments|;
    InOrder(order, infos.Keys);
    byContract := seq(|order|, i requires 0 <= i < |order| && order[i] in infos => Group(order[i], infos[order[i]]));
    Listed(cents, payments, byContract, order, infos);
  }

  lemma SeenIs(order: seq<string>, id: string)
    ensures id in Ids(order) <==> id in order
  {
  }

  lemma GroupedStart(cents: int -> int)
    ensures Tallied(cents, [], 0, map[]) && FirstSeen([]) == []
    ensures Distinct([]) && Ids([]) == {}
  {
    TotalEmpty(Amounts(map[]));
    TotalEmpty(Counts(map[]));
  }

  lemma TotalEmpty(m: map<string, int>)
    ensures m.Keys == {} ==> Total(m) == 0
  {
  }

  lemma NewId(order: seq<string>, id: string)
    requires Distinct(order) && id !in Ids(order)
    ensures Distinct(order + [id]) && Ids(order + [id]) == Ids(order) + {id}
  {
  }

  lemma InOrder(order: seq<string>, keys: set<string>)
    requires Ids(order) == keys
    ensures forall i :: 0 <= i < |order| ==> order[i] in keys
  {
    forall i | 0 <= i < |order| ensures order[i] in keys {
      assert order[i] in Ids(order);
    }
  }
}
