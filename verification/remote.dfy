/** The remote CMDB: a store of configuration items (CIs) behind a paged, exact-match query API
    whose calls may fail, and may fail after taking effect. */
module Remote {
  import opened Text
  import opened Values
  import opened Rows

  datatype Kind =
    | System | SystemNode | Server | K8sCluster | MiddleSoftware | EIP | ELB | Domain

  datatype Ci = Ci(kind: Kind, row: Row)

  /** Items by id; ids are handed out in increasing order and never reused. */
  datatype Db = Db(cis: map<nat, Ci>, next: nat)

  type Store = d: Db | forall i :: i in d.cis ==> i < d.next witness Db(map[], 0)

  /** The queries the synchroniser issues: type and system, and at most one more column. */
  datatype Query = Query(kind: Kind, sys: string, key: Key)
  datatype Key = Any | On(field: Field, value: string)

  predicate Hit(ci: Ci, q: Query) {
    && ci.kind == q.kind
    && Get(ci.row, SystemId) == Str(q.sys)
    && (q.key.On? ==> Get(ci.row, q.key.field) == Str(q.key.value))
  }

  /** The ids below n that a query hits, in id order. */
  function ListTo(cis: map<nat, Ci>, q: Query, n: nat): seq<nat> {
    if n == 0 then []
    else if n - 1 in cis && Hit(cis[n - 1], q) then ListTo(cis, q, n - 1) + [n - 1]
    else ListTo(cis, q, n - 1)
  }

  predicate Ascending(s: seq<nat>) {
    forall a, b :: 0 <= a < b < |s| ==> s[a] < s[b]
  }

  lemma {:induction false} ListToFacts(cis: map<nat, Ci>, q: Query, n: nat)
    ensures forall i {:trigger i in ListTo(cis, q, n)} ::
              i in ListTo(cis, q, n) <==> i < n && i in cis && Hit(cis[i], q)
    ensures Ascending(ListTo(cis, q, n))
  {
    if n > 0 {
      ListToFacts(cis, q, n - 1);
      var s := ListTo(cis, q, n - 1);
      assert forall a :: 0 <= a < |s| ==> s[a] in s;
    }
  }

  function Listing(db: Store, q: Query): (s: seq<nat>)
    ensures forall i {:trigger i in s} :: i in s <==> i in db.cis && Hit(db.cis[i], q)
    ensures Ascending(s)
  {
    ListToFacts(db.cis, q, db.next);
    ListTo(db.cis, q, db.next)
  }

  /** The least id below n that a query hits. */
  function FirstTo(cis: map<nat, Ci>, q: Query, n: nat): (r: Option<nat>)
    ensures r.Some? ==> r.value in cis && r.value < n && Hit(cis[r.value], q)
    ensures r.Some? ==>
              forall j {:trigger Hit(cis[j], q)} :: j in cis && j < r.value ==> !Hit(cis[j], q)
    ensures r.None? ==> forall j {:trigger Hit(cis[j], q)} :: j in cis && j < n ==> !Hit(cis[j], q)
  {
    if n == 0 then None
    else
      var r := FirstTo(cis, q, n - 1);
      if r.Some? then r else if n - 1 in cis && Hit(cis[n - 1], q) then Some(n - 1) else None
  }

  function First(db: Store, q: Query): (r: Option<nat>)
    ensures r.Some? ==> r.value in db.cis && Hit(db.cis[r.value], q)
    ensures r.Some? ==>
              forall j {:trigger Hit(db.cis[j], q)} :: j in db.cis && j < r.value ==> !Hit(db.cis[j], q)
    ensures r.None? ==> forall j {:trigger Hit(db.cis[j], q)} :: j in db.cis ==> !Hit(db.cis[j], q)
  {
    FirstTo(db.cis, q, db.next)
  }

  /** The first hit heads the listing. */
  lemma FirstHeads(db: Store, q: Query)
    ensures First(db, q) == if Listing(db, q) == [] then None else Some(Listing(db, q)[0])
  {
    var s := Listing(db, q);
    if s != [] {
      assert s[0] in s && First(db, q).Some?;
      var i := First(db, q).value;
      assert i in s && !(s[0] < i);
      var k :| 0 <= k < |s| && s[k] == i;
    }
    if First(db, q).Some? { assert First(db, q).value in s; }
  }

  /** The first hit is the only item with its two defining properties. */
  lemma FirstIs(db: Store, q: Query, i: nat)
    requires i in db.cis && Hit(db.cis[i], q)
    requires forall j {:trigger Hit(db.cis[j], q)} :: j in db.cis && j < i ==> !Hit(db.cis[j], q)
    ensures First(db, q) == Some(i)
  {}

  /** Offset of a page: pages are numbered from 1. */
  function Offset(size: nat, page: nat): nat {
    if page <= 1 then 0 else Offset(size, page - 1) + size
  }

  /** The part of a listing that one page shows. */
  function PageOf(s: seq<nat>, size: nat, page: nat): (p: seq<nat>)
    ensures forall i :: i in p ==> i in s
  {
    var lo := Offset(size, page);
    if lo >= |s| then [] else if lo + size >= |s| then s[lo..] else s[lo..lo + size]
  }

  function Added(db: Store, kind: Kind, row: Row): Store {
    Db(db.cis[db.next := Ci(kind, EncodeRow(row))], db.next + 1)
  }

  function Updated(db: Store, id: nat, patch: Row): Store
    requires id in db.cis
  {
    db.(cis := db.cis[id := db.cis[id].(row := db.cis[id].row + EncodeRow(patch))])
  }

  function Deleted(db: Store, id: nat): Store {
    db.(cis := db.cis - {id})
  }

  /** The ids of s outside a set, in order. */
  function Without(s: seq<nat>, gone: set<nat>): seq<nat> {
    if s == [] then []
    else if s[|s| - 1] in gone then Without(s[..|s| - 1], gone)
    else Without(s[..|s| - 1], gone) + [s[|s| - 1]]
  }

  lemma {:induction false} ListToWithout(cis: map<nat, Ci>, q: Query, n: nat, gone: set<nat>)
    ensures ListTo(cis - gone, q, n) == Without(ListTo(cis, q, n), gone)
  {
    if n > 0 {
      ListToWithout(cis, q, n - 1, gone);
      if n - 1 in cis && Hit(cis[n - 1], q) {
      }
    }
  }

  /** Deleting items takes them out of every listing and keeps the order of the rest. */
  lemma ListingWithout(db: Store, q: Query, gone: set<nat>)
    ensures Listing(db.(cis := db.cis - gone), q) == Without(Listing(db, q), gone)
  {
    ListToWithout(db.cis, q, db.next, gone);
  }

  /** What may happen to a call: it works, it is refused, or it works and its reply is lost. */
  datatype Fault = Works | Refused | LostReply

  datatype Result<+T> = Ok(value: T) | Err

  datatype Item = Item(id: nat, ci: Ci)

  function Items(db: Store, ids: seq<nat>): (s: seq<Item>)
    requires forall i :: i in ids ==> i in db.cis
    ensures |s| == |ids| && forall k :: 0 <= k < |s| ==> s[k] == Item(ids[k], db.cis[ids[k]])
  {
    seq(|ids|, k requires 0 <= k < |ids| && ids[k] in db.cis => Item(ids[k], db.cis[ids[k]]))
  }

  /** An item above a system in the product hierarchy, with its name column. */
  datatype Level = Level(ciType: string, name: Value)

  type PageSize = n: nat | n >= 1 witness 1

  /** The client and the server behind it.  `fault` decides the fate of the n-th call. */
  class Cmdb {
    var store: Store
    var calls: nat
    const pageSize: PageSize
    const fault: nat -> Fault
    /** The upper levels that the relations endpoint reports for a system item. */
    const levels: nat -> seq<Level>

    constructor (db: Store, pageSize: PageSize, fault: nat -> Fault, levels: nat -> seq<Level>)
      ensures store == db && this.pageSize == pageSize && this.fault == fault && this.levels == levels
    {
      store, calls := db, 0;
      this.pageSize, this.fault, this.levels := pageSize, fault, levels;
    }

    /** No call ever fails. */
    ghost predicate Healthy() {
      forall n :: fault(n).Works?
    }

    method Call() returns (f: Fault)
      modifies this`calls
      ensures f == fault(old(calls)) && calls == old(calls) + 1
    {
      f := fault(calls);
      calls := calls + 1;
    }

    /** One page of a query. */
    method GetCi(q: Query, page: nat) returns (r: Result<seq<Item>>)
      modifies this`calls
      ensures r.Ok? ==> r.value == Items(store, PageOf(Listing(store, q), pageSize, page))
      ensures Healthy() ==> r.Ok?
    {
      var f := Call();
      r := if f.Works? then Ok(Items(store, PageOf(Listing(store, q), pageSize, page))) else Err;
    }

    /** The first item of the first page. */
    method GetCiFirst(q: Query) returns (r: Result<Option<Item>>)
      modifies this`calls
      ensures r.Ok? ==> match First(store, q)
                        case None => r.value.None?
                        case Some(i) => r.value == Some(Item(i, store.cis[i]))
      ensures Healthy() ==> r.Ok?
    {
      var page := GetCi(q, 1);
      FirstHeads(store, q);
      if page.Err? { return Err; }
      r := Ok(if page.value == [] then None else Some(page.value[0]));
    }

    method GetCiId(q: Query) returns (r: Result<Option<nat>>)
      modifies this`calls
      ensures r.Ok? ==> r.value == First(store, q)
      ensures Healthy() ==> r.Ok?
    {
      var first := GetCiFirst(q);
      if first.Err? { return Err; }
      r := Ok(if first.value.None? then None else Some(first.value.value.id));
    }

    method GetLevels(root: nat) returns (r: Result<seq<Level>>)
      modifies this`calls
      ensures r.Ok? ==> r.value == levels(root)
      ensures Healthy() ==> r.Ok?
    {
      var f := Call();
      r := if f.Works? then Ok(levels(root)) else Err;
    }

    method AddCi(kind: Kind, row: Row) returns (r: Result<()>, ghost applied: bool)
      modifies this
      ensures store == if applied then Added(old(store), kind, row) else old(store)
      ensures r.Ok? ==> applied
      ensures Healthy() ==> r.Ok?
    {
      var f := Call();
      applied := !f.Refused?;
      if !f.Refused? { store := Added(store, kind, row); }
      r := if f.Works? then Ok(()) else Err;
    }

    method UpdateCi(id: nat, patch: Row) returns (r: Result<()>, ghost applied: bool)
      modifies this
      ensures applied ==> id in old(store.cis)
      ensures store == if applied then Updated(old(store), id, patch) else old(store)
      ensures r.Ok? ==> applied
      ensures Healthy() && id in old(store.cis) ==> r.Ok?
    {
      var f := Call();
      applied := false;
      if id !in store.cis { return Err, false; }
      if !f.Refused? { store, applied := Updated(store, id, patch), true; }
      r := if f.Works? then Ok(()) else Err;
    }

    method DeleteCi(id: nat) returns (r: Result<()>, ghost applied: bool)
      modifies this
      ensures applied ==> id in old(store.cis)
      ensures store == if applied then Deleted(old(store), id) else old(store)
      ensures r.Ok? ==> applied
      ensures Healthy() && id in old(store.cis) ==> r.Ok?
    {
      var f := Call();
      applied := false;
      if id !in store.cis { return Err, false; }
      if !f.Refused? { store, applied := Deleted(store, id), true; }
      r := if f.Works? then Ok(()) else Err;
    }
  }
}
