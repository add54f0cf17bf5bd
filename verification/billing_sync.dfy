/** Writing one account's bill summary into the CMDB: one item per category with a non-zero amount. */
module BillingSync {
  import opened Common
  import opened Text
  import opened Decimal
  import opened Billing

  /** What identifies a billing item. */
  datatype Key = Key(sys: string, month: string, account: string, category: string)

  datatype Cost = Cost(currency: string, rowCount: string, total: string)

  datatype Bill = Bill(key: Key, cost: Cost)

  datatype Fault = Works | Refused | LostReply

  datatype Counts = Counts(added: nat, updated: nat, skipped: nat, deleted: nat, errors: nat)

  /** The index of the first item with a key. */
  function Find(items: seq<Bill>, k: Key): (r: Option<nat>)
    ensures r.Some? ==> r.value < |items| && items[r.value].key == k
    ensures r.None? ==> forall b :: b in items ==> b.key != k
  {
    if items == [] then None
    else if items[0].key == k then Some(0)
    else
      var r := Find(items[1..], k);
      assert items == [items[0]] + items[1..];
      if r.Some? then Some(r.value + 1) else None
  }

  function Without(items: seq<Bill>, i: nat): seq<Bill>
    requires i < |items|
  {
    items[..i] + items[i + 1..]
  }

  /** The billing items of the CMDB behind its client. */
  class Ledger {
    var items: seq<Bill>
    var calls: nat
    const fault: nat -> Fault

    constructor (items: seq<Bill>, fault: nat -> Fault)
      ensures this.items == items && this.fault == fault
    {
      this.items, this.calls, this.fault := items, 0, fault;
    }

    /** No call ever fails. */
    ghost predicate Healthy() {
      forall n :: fault(n).Works?
    }

    method Call() returns (f: Fault)
      modifies this`calls
      ensures f == fault(old(calls))
    {
      f := fault(calls);
      calls := calls + 1;
    }

    /** `GetCIID`. */
    method Lookup(k: Key) returns (ok: bool, at: Option<nat>)
      modifies this`calls
      ensures ok ==> at == Find(items, k)
      ensures Healthy() ==> ok
    {
      var f := Call();
      ok, at := f.Works?, if f.Works? then Find(items, k) else None;
    }

    method Delete(i: nat) returns (ok: bool)
      requires i < |items|
      modifies this
      ensures items == old(items) || items == Without(old(items), i)
      ensures ok ==> items == Without(old(items), i)
      ensures Healthy() ==> ok
    {
      var f := Call();
      if !f.Refused? { items := Without(items, i); }
      ok := f.Works?;
    }

    method Update(i: nat, c: Cost) returns (ok: bool)
      requires i < |items|
      modifies this
      ensures items == old(items) || items == old(items)[i := old(items)[i].(cost := c)]
      ensures ok ==> items == old(items)[i := old(items)[i].(cost := c)]
      ensures Healthy() ==> ok
    {
      var f := Call();
      if !f.Refused? { items := items[i := items[i].(cost := c)]; }
      ok := f.Works?;
    }

    method Add(b: Bill) returns (ok: bool)
      modifies this
      ensures items == old(items) || items == old(items) + [b]
      ensures ok ==> items == old(items) + [b]
      ensures Healthy() ==> ok
    {
      var f := Call();
      if !f.Refused? { items := items + [b]; }
      ok := f.Works?;
    }
  }

  /** One row of the bill summary. */
  datatype SummaryRow = SummaryRow(category: string, amount: real, count: int, currency: string)

  function Default(text: string, other: string): string { if Trim(text) != "" then Trim(text) else other }

  /** How amounts are printed with two decimals, and when two printed amounts count as the same. */
  datatype RawMoney = Money(show: real -> string, same: (string, string) -> bool)
  type Money = m: RawMoney | forall t :: m.same(t, t)
    ghost witness Money(x => "", (a, b) => a == b)

  /** The cost columns a row asks for. */
  function Wanted(r: SummaryRow, currency: string, m: Money): Cost {
    Cost(Default(r.currency, currency), Itoa(r.count), m.show(r.amount))
  }

  /** `billingCostFieldsChanged`, for an item found by its category. */
  predicate CostChanged(have: Cost, want: Cost, m: Money) {
    Trim(have.rowCount) != Trim(want.rowCount) || !m.same(Trim(have.total), Trim(want.total))
  }

  /** What the items with a key show, in order.  Nothing keeps a key from having several. */
  function Costs(items: seq<Bill>, k: Key): seq<Cost> {
    if items == [] then []
    else One(items[0], k) + Costs(items[1..], k)
  }

  lemma {:induction false} CostsAppend(a: seq<Bill>, b: seq<Bill>, k: Key)
    ensures Costs(a + b, k) == Costs(a, k) + Costs(b, k)
  {
    if a == [] {
      assert a + b == b;
    } else {
      assert (a + b)[1..] == a[1..] + b;
      CostsAppend(a[1..], b, k);
    }
  }

  function One(b: Bill, k: Key): seq<Cost> { if b.key == k then [b.cost] else [] }

  lemma CostsOne(b: Bill, k: Key)
    ensures Costs([b], k) == One(b, k)
  {}

  lemma CostsAround(pre: seq<Bill>, x: Bill, rest: seq<Bill>, k: Key)
    ensures Costs(pre + [x] + rest, k) == Costs(pre, k) + One(x, k) + Costs(rest, k)
    ensures Costs(pre + rest, k) == Costs(pre, k) + Costs(rest, k)
  {
    hide Costs;
    CostsAppend(pre + [x], rest, k);
    CostsAppend(pre, [x], k);
    CostsOne(x, k);
    CostsAppend(pre, rest, k);
  }

  /** A lookup finds the first of them. */
  lemma {:induction false} FoundFirst(items: seq<Bill>, k: Key)
    ensures Find(items, k).None? ==> Costs(items, k) == []
    ensures Find(items, k).Some? ==> Costs(items[..Find(items, k).value], k) == []
  {
    if items != [] && items[0].key != k {
      FoundFirst(items[1..], k);
      var r := Find(items[1..], k);
      if r.Some? { assert items[..r.value + 1][1..] == items[1..][..r.value]; }
    }
  }

  function Rest(s: seq<Cost>): seq<Cost> { if s == [] then [] else s[1..] }

  /** Only items with one key differ. */
  ghost predicate OnlyAt(a: seq<Bill>, b: seq<Bill>, k: Key) {
    forall o {:trigger Costs(b, o)} :: o != k ==> Costs(b, o) == Costs(a, o)
  }

  lemma EffectAround(pre: seq<Bill>, x: Bill, rest: seq<Bill>, c: Cost)
    requires Costs(pre, x.key) == []
    ensures var items, k := pre + [x] + rest, x.key;
            && Costs(items, k) == [x.cost] + Costs(rest, k)
            && OnlyAt(items, pre + rest, k) && Costs(pre + rest, k) == Costs(rest, k)
            && OnlyAt(items, pre + [x.(cost := c)] + rest, k)
            && Costs(pre + [x.(cost := c)] + rest, k) == [c] + Costs(rest, k)
  {
    hide Costs;
    forall o
      ensures Costs(pre + [x] + rest, o) == Costs(pre, o) + One(x, o) + Costs(rest, o)
      ensures Costs(pre + [x.(cost := c)] + rest, o) == Costs(pre, o) + One(x.(cost := c), o) + Costs(rest, o)
      ensures Costs(pre + rest, o) == Costs(pre, o) + Costs(rest, o)
    {
      CostsAround(pre, x, rest, o);
      CostsAround(pre, x.(cost := c), rest, o);
    }
  }

  /** Deleting or updating the item a lookup finds. */
  lemma WriteEffects(items: seq<Bill>, k: Key, i: nat, c: Cost)
    requires Find(items, k) == Some(i)
    ensures Costs(items, k) != [] && Costs(items, k)[0] == items[i].cost
    ensures OnlyAt(items, Without(items, i), k) && Costs(Without(items, i), k) == Rest(Costs(items, k))
    ensures var post := items[i := items[i].(cost := c)];
            OnlyAt(items, post, k) && Costs(post, k) == [c] + Rest(Costs(items, k))
  {
    hide Costs, OnlyAt;
    var pre, x, rest := items[..i], items[i], items[i + 1..];
    FoundFirst(items, k);
    EffectAround(pre, x, rest, c);
    assert items == pre + [x] + rest;
    assert items[i := x.(cost := c)] == pre + [x.(cost := c)] + rest;
  }

  /** Adding an item when a lookup finds none. */
  lemma AddEffect(items: seq<Bill>, b: Bill)
    requires Find(items, b.key).None?
    ensures OnlyAt(items, items + [b], b.key) && Costs(items + [b], b.key) == [b.cost] && Costs(items, b.key) == []
  {
    hide Costs;
    forall o ensures Costs(items + [b], o) == Costs(items, o) + One(b, o) {
      CostsAppend(items, [b], o);
      CostsOne(b, o);
    }
    FoundFirst(items, b.key);
  }

  /** The items with a row's key are as the row wants them: none for an amount that rounds to zero,
      otherwise the first one shows the amount. */
  predicate Settled(costs: seq<Cost>, r: SummaryRow, currency: string, m: Money) {
    if Cents(r.amount) == 0 then costs == []
    else costs != [] && !CostChanged(costs[0], Wanted(r, currency, m), m)
  }

  /** What an error-free turn makes of them: a zero amount takes one away, any other amount replaces the
      first one, or adds it, unless it already shows the amount. */
  predicate Done(was: seq<Cost>, now: seq<Cost>, r: SummaryRow, currency: string, m: Money) {
    now == if Cents(r.amount) == 0 then Rest(was)
           else if Settled(was, r, currency, m) then was
           else [Wanted(r, currency, m)] + Rest(was)
  }

  lemma DoneSettles(was: seq<Cost>, now: seq<Cost>, r: SummaryRow, currency: string, m: Money)
    requires Done(was, now, r, currency, m)
    ensures Settled(now, r, currency, m) <==> (Cents(r.amount) == 0 ==> |was| <= 1)
  {
    hide Cents;
  }

  const NO_COUNTS := Counts(0, 0, 0, 0, 0)

  function Erred(c: Counts): Counts { c.(errors := c.errors + 1) }

  function Sum(c: Counts): nat { c.added + c.updated + c.skipped + c.deleted + c.errors }

  predicate Wrote(t: Counts, st: Counts) {
    st.added > t.added || st.updated > t.updated || st.deleted > t.deleted
  }

  predicate NoLess(t: Counts, st: Counts) {
    st.errors >= t.errors && st.added >= t.added && st.updated >= t.updated && st.deleted >= t.deleted
  }

  /** An amount that rounds to zero: the item goes, if there is one. */
  method WriteZero(l: Ledger, k: Key, t: Counts) returns (st: Counts)
    modifies l
    ensures OnlyAt(old(l.items), l.items, k) && Sum(st) == Sum(t) + 1 && NoLess(t, st)
    ensures st.errors == t.errors ==> Costs(l.items, k) == Rest(Costs(old(l.items), k))
    ensures st.errors == t.errors ==> (Wrote(t, st) <==> Costs(old(l.items), k) != [])
    ensures Costs(old(l.items), k) == [] ==> l.items == old(l.items) && !Wrote(t, st)
    ensures st.added == t.added && st.updated == t.updated
    ensures l.Healthy() ==> st.errors == t.errors
  {
    hide Costs;
    var ok, at := l.Lookup(k);
    if !ok { return Erred(t); }
    FoundFirst(l.items, k);
    if at.None? { return t.(skipped := t.skipped + 1); }
    WriteEffects(l.items, k, at.value, l.items[at.value].cost);
    ok := l.Delete(at.value);
    st := if ok then t.(deleted := t.deleted + 1) else Erred(t);
  }

  /** Any other amount: the item is added, updated or left alone. */
  method WriteCost(l: Ledger, k: Key, want: Cost, m: Money, t: Counts) returns (st: Counts)
    modifies l
    ensures OnlyAt(old(l.items), l.items, k) && Sum(st) == Sum(t) + 1 && NoLess(t, st)
    ensures var was, now := Costs(old(l.items), k), Costs(l.items, k);
            && (st.errors == t.errors ==>
                  && now == (if was != [] && !CostChanged(was[0], want, m) then was else [want] + Rest(was))
                  && (Wrote(t, st) <==> was == [] || CostChanged(was[0], want, m)))
            && (was != [] && !CostChanged(was[0], want, m) ==> l.items == old(l.items) && !Wrote(t, st))
            && st.deleted == t.deleted && (st.added > t.added ==> was == []) && (st.updated > t.updated ==> was != [])
    ensures l.Healthy() ==> st.errors == t.errors
  {
    hide Costs, CostChanged;
    var ok, at := l.Lookup(k);
    if !ok { return Erred(t); }
    if at.Some? {
      WriteEffects(l.items, k, at.value, want);
      var f := l.Call();
      if !f.Works? { return Erred(t); }
      if !CostChanged(l.items[at.value].cost, want, m) { return t.(skipped := t.skipped + 1); }
      ok := l.Update(at.value, want);
      return if ok then t.(updated := t.updated + 1) else Erred(t);
    }
    AddEffect(l.items, Bill(k, want));
    ok := l.Add(Bill(k, want));
    st := if ok then t.(added := t.added + 1) else Erred(t);
  }

  function KeyFor(sys: string, month: string, account: string, r: SummaryRow): Key {
    Key(sys, Trim(month), Trim(account), Trim(r.category))
  }

  predicate Counted(r: Option<SummaryRow>) { r.Some? && Trim(r.value.category) != "" }

  /** How many of the first n rows have a category. */
  function CountedRows(rows: seq<Option<SummaryRow>>, n: nat): nat
    requires n <= |rows|
  {
    if n == 0 then 0 else CountedRows(rows, n - 1) + if Counted(rows[n - 1]) then 1 else 0
  }

  predicate DistinctCategories(rows: seq<Option<SummaryRow>>) {
    forall i, j :: 0 <= i < j < |rows| && Counted(rows[i]) && Counted(rows[j]) ==>
      Trim(rows[i].value.category) != Trim(rows[j].value.category)
  }

  /** One account's bill of one month. */
  datatype Summary = Summary(sys: string, month: string, account: string, rows: seq<Option<SummaryRow>>,
                             currency: string)

  /** The currency of rows that name none. */
  function Fallback(b: Summary): string { Default(b.currency, "CNY") }

  function KeyAt(b: Summary, i: nat): Key
    requires i < |b.rows| && Counted(b.rows[i])
  {
    KeyFor(b.sys, b.month, b.account, b.rows[i].value)
  }

  predicate SettledAt(items: seq<Bill>, b: Summary, m: Money, i: nat)
    requires i < |b.rows|
  {
    Counted(b.rows[i]) ==> Settled(Costs(items, KeyAt(b, i)), b.rows[i].value, Fallback(b), m)
  }

  /** The first n rows are in the ledger as wanted. */
  ghost predicate SettledUpTo(items: seq<Bill>, b: Summary, m: Money, n: nat)
    requires n <= |b.rows|
  {
    forall i {:trigger SettledAt(items, b, m, i)} :: 0 <= i < n ==> SettledAt(items, b, m, i)
  }

  ghost predicate AllSettled(items: seq<Bill>, b: Summary, m: Money) { SettledUpTo(items, b, m, |b.rows|) }

  predicate DoneAt(was: seq<Bill>, now: seq<Bill>, b: Summary, m: Money, i: nat)
    requires i < |b.rows|
  {
    Counted(b.rows[i]) ==> Done(Costs(was, KeyAt(b, i)), Costs(now, KeyAt(b, i)), b.rows[i].value, Fallback(b), m)
  }

  /** An error-free turn was made for each of the first n rows, and nothing else was written. */
  ghost predicate DoneUpTo(was: seq<Bill>, now: seq<Bill>, b: Summary, m: Money, n: nat)
    requires n <= |b.rows|
  {
    && (forall i {:trigger DoneAt(was, now, b, m, i)} :: 0 <= i < n ==> DoneAt(was, now, b, m, i))
    && (forall i {:trigger KeyAt(b, i)} :: n <= i < |b.rows| && Counted(b.rows[i]) ==>
          Costs(now, KeyAt(b, i)) == Costs(was, KeyAt(b, i)))
  }

  /** Items of no row of the bill. */
  ghost predicate OthersKept(was: seq<Bill>, now: seq<Bill>, b: Summary) {
    forall k {:trigger Costs(now, k)} ::
      (forall i :: 0 <= i < |b.rows| && Counted(b.rows[i]) ==> KeyAt(b, i) != k) ==> Costs(now, k) == Costs(was, k)
  }

  lemma KeysDiffer(b: Summary, i: nat, j: nat)
    requires DistinctCategories(b.rows) && i < |b.rows| && j < |b.rows| && i != j
    requires Counted(b.rows[i]) && Counted(b.rows[j])
    ensures KeyAt(b, i) != KeyAt(b, j)
  {}

  lemma DoneNext(was: seq<Bill>, mid: seq<Bill>, now: seq<Bill>, b: Summary, m: Money, n: nat)
    requires n < |b.rows| && DistinctCategories(b.rows) && DoneUpTo(was, mid, b, m, n)
    requires if Counted(b.rows[n]) then OnlyAt(mid, now, KeyAt(b, n)) && DoneAt(mid, now, b, m, n) else mid == now
    ensures DoneUpTo(was, now, b, m, n + 1)
  {
    hide Costs, Done, Trim, DistinctCategories, KeyFor;
    forall i | 0 <= i < |b.rows| && i != n && Counted(b.rows[i])
      ensures Costs(now, KeyAt(b, i)) == Costs(mid, KeyAt(b, i))
    {
      if Counted(b.rows[n]) { KeysDiffer(b, i, n); }
    }
    forall i | 0 <= i < n + 1 ensures DoneAt(was, now, b, m, i) {
      assert i < n ==> DoneAt(was, mid, b, m, i);
      if i == n && Counted(b.rows[n]) { assert Costs(mid, KeyAt(b, n)) == Costs(was, KeyAt(b, n)); }
    }
  }

  lemma OthersNext(was: seq<Bill>, mid: seq<Bill>, now: seq<Bill>, b: Summary, n: nat)
    requires n < |b.rows| && OthersKept(was, mid, b)
    requires if Counted(b.rows[n]) then OnlyAt(mid, now, KeyAt(b, n)) else mid == now
    ensures OthersKept(was, now, b)
  {
    hide Costs;
    forall k | forall i :: 0 <= i < |b.rows| && Counted(b.rows[i]) ==> KeyAt(b, i) != k
      ensures Costs(now, k) == Costs(was, k)
    {
      assert Costs(mid, k) == Costs(was, k);
    }
  }

  /** Settled rows stay settled up to the next one exactly if that one is settled too. */
  lemma SettledNext(items: seq<Bill>, b: Summary, m: Money, n: nat)
    requires n < |b.rows|
    ensures SettledUpTo(items, b, m, n + 1) <==> SettledUpTo(items, b, m, n) && SettledAt(items, b, m, n)
    ensures AllSettled(items, b, m) ==> SettledAt(items, b, m, n)
  {
    hide SettledAt;
    assert SettledUpTo(items, b, m, n + 1) ==> SettledAt(items, b, m, n);
  }

  /** What a row does to the items with its key. */
  method WriteRow(l: Ledger, k: Key, r: SummaryRow, currency: string, m: Money, t: Counts) returns (st: Counts)
    modifies l
    ensures OnlyAt(old(l.items), l.items, k) && Sum(st) == Sum(t) + 1 && NoLess(t, st)
    ensures st.errors == t.errors ==> Done(Costs(old(l.items), k), Costs(l.items, k), r, currency, m)
    ensures st.errors == t.errors ==> (Wrote(t, st) <==> !Settled(Costs(old(l.items), k), r, currency, m))
    ensures Settled(Costs(old(l.items), k), r, currency, m) ==> l.items == old(l.items) && !Wrote(t, st)
    ensures l.Healthy() ==> st.errors == t.errors
  {
    hide Costs, CostChanged, OnlyAt;
    if Cents(r.amount) == 0 {
      st := WriteZero(l, k, t);
    } else {
      st := WriteCost(l, k, Wanted(r, currency, m), m, t);
    }
  }

  /** What holds after the first n rows. */
  ghost predicate Reached(before: seq<Bill>, now: seq<Bill>, b: Summary, m: Money, st: Counts, n: nat)
    requires n <= |b.rows|
  {
    && OthersKept(before, now, b)
    && (st.errors == 0 && DistinctCategories(b.rows) ==> DoneUpTo(before, now, b, m, n))
    && (st.errors == 0 ==> (!Wrote(NO_COUNTS, st) <==> SettledUpTo(before, b, m, n)))
    && (st.errors == 0 && !Wrote(NO_COUNTS, st) ==> now == before)
    && (AllSettled(before, b, m) ==> now == before && !Wrote(NO_COUNTS, st))
  }

  /** What one row's turn does. */
  ghost predicate Turned(mid: seq<Bill>, now: seq<Bill>, b: Summary, m: Money, t: Counts, st: Counts, n: nat)
    requires n < |b.rows|
  {
    if Counted(b.rows[n]) then
      && OnlyAt(mid, now, KeyAt(b, n)) && NoLess(t, st)
      && (st.errors == t.errors ==> DoneAt(mid, now, b, m, n) && (Wrote(t, st) <==> !SettledAt(mid, b, m, n)))
      && (SettledAt(mid, b, m, n) ==> now == mid && !Wrote(t, st))
    else
      mid == now && t == st
  }

  lemma ReachedNext(before: seq<Bill>, mid: seq<Bill>, now: seq<Bill>, b: Summary, m: Money, t: Counts, st: Counts,
                    n: nat)
    requires n < |b.rows| && Reached(before, mid, b, m, t, n) && Turned(mid, now, b, m, t, st, n)
    ensures Reached(before, now, b, m, st, n + 1)
  {
    hide OthersKept, DoneUpTo, SettledUpTo, AllSettled, DistinctCategories, Counted, OnlyAt, DoneAt, Settled, KeyFor;
    SettledNext(before, b, m, n);
    OthersNext(before, mid, now, b, n);
    if DistinctCategories(b.rows) && st.errors == 0 { DoneNext(before, mid, now, b, m, n); }
  }

  lemma NothingReached(items: seq<Bill>, b: Summary, m: Money)
    ensures Reached(items, items, b, m, NO_COUNTS, 0) && Sum(NO_COUNTS) == 0
  {}

  /** One turn of the loop. */
  method WriteNext(l: Ledger, b: Summary, m: Money, t: Counts, n: nat) returns (st: Counts)
    requires n < |b.rows|
    modifies l
    ensures Turned(old(l.items), l.items, b, m, t, st, n)
    ensures Sum(st) == Sum(t) + if Counted(b.rows[n]) then 1 else 0
    ensures l.Healthy() ==> st.errors == t.errors
  {
    hide OnlyAt, Done, Settled, Trim;
    if b.rows[n].None? || Trim(b.rows[n].value.category) == "" { return t; }
    var r := b.rows[n].value;
    st := WriteRow(l, KeyFor(b.sys, b.month, b.account, r), r, Fallback(b), m, t);
  }

  /** The loop of `addCMDBBillings`, for a valid month and account, over any ledger.  An error-free
      pass sets every non-zero category right and takes one item from every other; it writes nothing
      exactly if all was as wanted; items of other keys stay as they are whatever fails. */
  method WriteBills(l: Ledger, b: Summary, m: Money) returns (st: Counts)
    modifies l
    ensures Sum(st) == CountedRows(b.rows, |b.rows|) && OthersKept(old(l.items), l.items, b)
    ensures st.errors == 0 && DistinctCategories(b.rows) ==> DoneUpTo(old(l.items), l.items, b, m, |b.rows|)
    ensures st.errors == 0 ==> (!Wrote(NO_COUNTS, st) <==> AllSettled(old(l.items), b, m))
    ensures AllSettled(old(l.items), b, m) ==> l.items == old(l.items) && !Wrote(NO_COUNTS, st)
    ensures l.Healthy() ==> st.errors == 0
  {
    hide SettledUpTo, DoneUpTo, DistinctCategories, OthersKept, Counted, Turned, Sum;
    st := NO_COUNTS;
    ghost var before := l.items;
    NothingReached(before, b, m);
    for n := 0 to |b.rows|
      invariant Sum(st) == CountedRows(b.rows, n)
      invariant l.Healthy() ==> st.errors == 0
      invariant Reached(before, l.items, b, m, st, n)
    {
      ghost var mid, t := l.items, st;
      st := WriteNext(l, b, m, st, n);
      ReachedNext(before, mid, l.items, b, m, t, st, n);
    }
  }

  // ---------- when the ledger is right ----------

  predicate ZeroAt(b: Summary, i: nat)
    requires i < |b.rows|
  {
    Counted(b.rows[i]) && Cents(b.rows[i].value.amount) == 0
  }

  /** After an error-free pass everything is as wanted exactly if no category whose amount rounds to
      zero had more than one item. */
  lemma SettlesIff(was: seq<Bill>, now: seq<Bill>, b: Summary, m: Money)
    requires DoneUpTo(was, now, b, m, |b.rows|)
    ensures AllSettled(now, b, m) <==>
            forall i {:trigger ZeroAt(b, i)} :: 0 <= i < |b.rows| && ZeroAt(b, i) ==> |Costs(was, KeyAt(b, i))| <= 1
  {
    hide SettledAt, DoneAt, Costs, Cents, Trim;
    forall i | 0 <= i < |b.rows| && DoneAt(was, now, b, m, i)
      ensures SettledAt(now, b, m, i) <==> (ZeroAt(b, i) ==> Counted(b.rows[i]) && |Costs(was, KeyAt(b, i))| <= 1)
    {
      RowSettlesIff(was, now, b, m, i);
    }
    assert forall i :: 0 <= i < |b.rows| ==> DoneAt(was, now, b, m, i);
  }

  lemma RowSettlesIff(was: seq<Bill>, now: seq<Bill>, b: Summary, m: Money, i: nat)
    requires i < |b.rows| && DoneAt(was, now, b, m, i)
    ensures SettledAt(now, b, m, i) <==> (ZeroAt(b, i) ==> Counted(b.rows[i]) && |Costs(was, KeyAt(b, i))| <= 1)
  {
    hide Costs, Cents, Trim, Settled, Done, KeyFor;
    if Counted(b.rows[i]) {
      var k := KeyAt(b, i);
      DoneSettles(Costs(was, k), Costs(now, k), b.rows[i].value, Fallback(b), m);
    }
  }

  // ---------- what the ledger shows ----------

  /** The first item under a key, wherever it stands. */
  predicate Heads(items: seq<Bill>, k: Key, i: nat) {
    i < |items| && items[i].key == k && forall j :: 0 <= j < i ==> items[j].key != k
  }

  ghost predicate Headed(items: seq<Bill>, k: Key, c: Cost) {
    exists i: nat {:trigger Heads(items, k, i)} :: Heads(items, k, i) && items[i].cost == c
  }

  lemma {:induction false} HeadOfCosts(items: seq<Bill>, k: Key) returns (i: nat)
    requires Costs(items, k) != []
    ensures Heads(items, k, i) && items[i].cost == Costs(items, k)[0]
  {
    if items[0].key == k {
      i := 0;
    } else {
      var r := HeadOfCosts(items[1..], k);
      i := r + 1;
      assert forall j :: 1 <= j < i ==> items[j] == items[1..][j - 1];
    }
  }

  /** After an error-free pass the first item of every category whose amount does not round to zero
      shows the number of bill lines and the amount; when it was written, it is in the row's currency,
      else in the bill's, else in CNY. */
  lemma BillsShown(was: seq<Bill>, now: seq<Bill>, b: Summary, m: Money, r: SummaryRow) returns (i: nat)
    requires DoneUpTo(was, now, b, m, |b.rows|) && Some(r) in b.rows && Trim(r.category) != "" && Cents(r.amount) != 0
    ensures Heads(now, Key(b.sys, Trim(b.month), Trim(b.account), Trim(r.category)), i)
    ensures Trim(now[i].cost.rowCount) == Itoa(r.count) && m.same(Trim(now[i].cost.total), Trim(m.show(r.amount)))
    ensures var c := now[i].cost;
            || Headed(was, now[i].key, c)
            || (c.total == m.show(r.amount) && c.currency == if Trim(r.currency) != "" then Trim(r.currency)
                                                             else if Trim(b.currency) != "" then Trim(b.currency)
                                                             else "CNY")
  {
    hide Costs, Trim, Itoa, Cents;
    var n :| 0 <= n < |b.rows| && b.rows[n] == Some(r);
    assert DoneAt(was, now, b, m, n);
    var k := KeyAt(b, n);
    ItoaTrimmed(r.count);
    assert Trim(Itoa(r.count)) == Itoa(r.count);
    i := HeadOfCosts(now, k);
    if Settled(Costs(was, k), r, Fallback(b), m) {
      var w := HeadOfCosts(was, k);
      assert Heads(was, k, w);
    }
  }

  /** A category whose amount rounds to zero has one item less than before. */
  lemma ZeroGoes(was: seq<Bill>, now: seq<Bill>, b: Summary, m: Money, r: SummaryRow)
    requires DoneUpTo(was, now, b, m, |b.rows|) && Some(r) in b.rows && Trim(r.category) != "" && Cents(r.amount) == 0
    ensures var k := Key(b.sys, Trim(b.month), Trim(b.account), Trim(r.category));
            Bearers(now, k) == if Bearers(was, k) == 0 then 0 else Bearers(was, k) - 1
  {
    hide Costs, Trim, Cents, Bearers;
    var n :| 0 <= n < |b.rows| && b.rows[n] == Some(r);
    assert DoneAt(was, now, b, m, n);
    CountBearers(was, KeyAt(b, n));
    CountBearers(now, KeyAt(b, n));
  }

  /** How many items have a key. */
  function Bearers(items: seq<Bill>, k: Key): nat
    decreases |items|
  {
    if items == [] then 0
    else Bearers(items[..|items| - 1], k) + if items[|items| - 1].key == k then 1 else 0
  }

  lemma {:induction false} CountBearers(items: seq<Bill>, k: Key)
    ensures |Costs(items, k)| == Bearers(items, k)
    decreases |items|
  {
    if items != [] {
      var init, last := items[..|items| - 1], items[|items| - 1];
      assert items == init + [last];
      CountBearers(init, k);
      CostsAppend(init, [last], k);
      CostsOne(last, k);
    }
  }

  /** Error-free passes over the same bill, one after the other. */
  ghost predicate Passes(c: Trail<seq<Bill>>, b: Summary, m: Money) {
    c.Next? ==> Passes(c.prev, b, m) && DoneUpTo(c.prev.db, c.db, b, m, |b.rows|)
  }

  /** A category that should have no item and had some number of them loses one with each pass. */
  lemma {:induction false} ZeroCounts(c: Trail<seq<Bill>>, b: Summary, m: Money, i: nat)
    requires Passes(c, b, m) && i < |b.rows| && ZeroAt(b, i)
    ensures var had, n := |Costs(Origin(c), KeyAt(b, i))|, Length(c);
            |Costs(c.db, KeyAt(b, i))| == if n <= had then had - n else 0
  {
    hide Costs, Counted, Cents;
    if c.Next? {
      ZeroCounts(c.prev, b, m, i);
      assert DoneAt(c.prev.db, c.db, b, m, i);
    }
  }
}
