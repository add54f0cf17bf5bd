/** The synchroniser's loops against the remote CMDB: upsert passes, reconciliation, system nodes. */
module Passes {
  import opened Text
  import opened Values
  import opened Rows
  import opened Remote
  import opened Ids
  import opened Events
  import opened Safety
  import opened Records
  import opened Upsert
  import opened Stats
  import opened Sweep

  function Recs(cands: seq<Cand>): (rs: seq<Rec>)
    decreases |cands|
  {
    if cands == [] then []
    else
      var rs := Recs(cands[..|cands| - 1]);
      var last := cands[|cands| - 1];
      if last.Upsert? then rs + [last.rec] else rs
  }

  /** How many candidates a pass accounts for: all but the ignored. */
  function Eligible(cands: seq<Cand>): nat
    decreases |cands|
  {
    if cands == [] then 0
    else Eligible(cands[..|cands| - 1]) + if cands[|cands| - 1].Ignore? then 0 else 1
  }

  /** Every candidate can be identified or is ignored. */
  predicate NoneRejected(cands: seq<Cand>) {
    forall c :: c in cands ==> !c.Reject?
  }

  lemma {:induction false} RecsMembers(cands: seq<Cand>, r: Rec)
    ensures r in Recs(cands) <==> Upsert(r) in cands
    decreases |cands|
  {
    if cands != [] {
      var init, last := cands[..|cands| - 1], cands[|cands| - 1];
      RecsMembers(init, r);
      assert cands == init + [last];
    }
  }

  function UuidsOf(rs: seq<Rec>): set<string> { set r | r in rs :: r.uuid }

  /** No write, or one write of the given record. */
  ghost predicate WritesOnly(log: Log, kind: Kind, sys: string, r: Rec) {
    || log.Start?
    || (&& log.prev.Start?
        && (|| log.last == Create(kind, sys, r)
            || (log.last.Refresh? && log.last == Refresh(kind, sys, r, log.last.id))))
  }

  class Syncer {
    const client: Cmdb
    const ids: IdScheme
    const admin: string
    /** Fresh random uuids, by number of calls made. */
    const newUuid: nat -> string

    constructor (client: Cmdb, ids: IdScheme, admin: string, newUuid: nat -> string)
      ensures this.client == client && this.ids == ids && this.admin == admin && this.newUuid == newUuid
    {
      this.client, this.ids, this.admin, this.newUuid := client, ids, admin, newUuid;
    }

    /** The lookups of one loop turn: the item's id and present row, if there is one. */
    method FindItem(kind: Kind, sys: string, r: Rec) returns (found: Result<Option<Item>>)
      modifies client`calls
      ensures found.Ok? ==> match Lookup(client.store, kind, sys, r)
                            case None => found.value.None?
                            case Some(i) => found.value == Some(Item(i, client.store.cis[i]))
      ensures client.Healthy() ==> found.Ok?
    {
      var q := ByUuid(kind, sys, r.uuid);
      var id: Option<nat> := None;
      if r.inst.Some? {
        q := ByInst(kind, sys, r.inst.value);
        var byInst := client.GetCiId(q);
        if byInst.Err? { return Err; }
        id := byInst.value;
      }
      if id.None? {
        q := ByUuid(kind, sys, r.uuid);
        var byUuid := client.GetCiId(q);
        if byUuid.Err? { return Err; }
        id := byUuid.value;
      }
      if id.None? { return Ok(None); }
      found := client.GetCiFirst(q);
    }

    /** One loop turn of an upsert pass, whatever the calls do. */
    method UpsertOne(kind: Kind, sys: string, r: Rec, t: Tally) returns (st: Tally, ghost log: Log)
      requires Sound(ids, kind, sys, r)
      modifies client
      ensures Legal(ids, old(client.store), log) && client.store == Run(old(client.store), log)
      ensures WritesOnly(log, kind, sys, r)
      ensures st.added + st.updated + st.skipped + st.errors == t.added + t.updated + t.skipped + t.errors + 1
      ensures st.errors >= t.errors && st.added >= t.added && st.updated >= t.updated && st.deleted == t.deleted
      ensures st.errors == t.errors ==> client.store == Upserted(old(client.store), kind, sys, r)
      ensures st.errors == t.errors && st.added == t.added && st.updated == t.updated ==>
                Settled(old(client.store), kind, sys, r) && client.store == old(client.store)
      ensures Settled(old(client.store), kind, sys, r) ==>
                client.store == old(client.store) && st.added == t.added && st.updated == t.updated
      ensures client.Healthy() ==> st.errors == t.errors
      ensures st.added > t.added ==> Lookup(old(client.store), kind, sys, r).None?
      ensures st.updated > t.updated ==>
                Lookup(old(client.store), kind, sys, r).Some? && !Settled(old(client.store), kind, sys, r)
      ensures st.skipped > t.skipped ==> Settled(old(client.store), kind, sys, r)
      ensures st.errors > t.errors ==> exists why :: st == Noted(t, r.ref, why)
    {
      hide Sound, Lookup, Merge, Trim, Upserted, Settled, Legal, Run;
      log := Start;
      UpsertedFrom(ids, client.store, kind, sys, r);
      var found := FindItem(kind, sys, r);
      if found.Err? { return Noted(t, r.ref, "CMDB lookup"), Start; }
      if found.value.None? {
        var res, applied := client.AddCi(kind, r.add);
        if applied { log := Then(Start, Create(kind, sys, r)); }
        st := if res.Err? then Noted(t, r.ref, "CMDB AddCI") else t.(added := t.added + 1);
        return;
      }
      var id, row := found.value.value.id, found.value.value.ci.row;
      var merged := MergePreserveNonEmpty(Some(r.want), Some(row));
      var changed := CiChanged(row, merged.value);
      if !changed { return t.(skipped := t.skipped + 1), Start; }
      var res, applied := client.UpdateCi(id, merged.value);
      if applied { log := Then(Start, Refresh(kind, sys, r, id)); }
      st := if res.Err? then Noted(t, r.ref, "CMDB UpdateCI") else t.(updated := t.updated + 1);
    }

    /** `addCMDBHosts`, `addCMDBMiddlewares`, `addCMDBEIPs`, `addCMDBELBs` and `addCMDBK8sClusters`:
        one loop over the candidates of a kind. */
    method UpsertPass(kind: Kind, sys: string, cands: seq<Cand>) returns (st: Tally, ghost log: Log)
      requires forall c :: c in cands ==> SoundCand(ids, kind, sys, c)
      modifies client
      ensures Did(ids, old(client.store), log, client.store, sys, kind)
      ensures NodesKnown(old(client.store), sys, cands) ==> Every(log, GroundedIn(old(client.store)))
      ensures Every(log, Upserting(kind, UuidsOf(Recs(cands))))
      ensures st.added + st.updated + st.skipped + st.errors == Eligible(cands) && st.deleted == 0
      ensures st.errors == 0 ==> client.store == UpsertedAll(old(client.store), kind, sys, Recs(cands))
      ensures SettledAll(old(client.store), kind, sys, Recs(cands)) ==>
                client.store == old(client.store) && st.added == 0 && st.updated == 0
      ensures st.errors == 0 && st.added == 0 && st.updated == 0 ==>
                SettledAll(old(client.store), kind, sys, Recs(cands))
      ensures client.Healthy() ==> (st.errors == 0 <==> NoneRejected(cands))
    {
      hide Sound, Legal, Every, Settled, SettledAll, Eligible, Recs, UpsertedAll, WritesOnly, Did, NodesKnown, UuidsOf;
      st, log := ZERO, Start;
      ghost var db := client.store;
      NothingUpserted(ids, db, kind, sys);
      for i := 0 to |cands|
        invariant Did(ids, db, log, client.store, sys, kind)
        invariant NodesKnown(db, sys, cands) ==> Every(log, GroundedIn(db))
        invariant Every(log, Upserting(kind, UuidsOf(Recs(cands))))
        invariant st.added + st.updated + st.skipped + st.errors == Eligible(cands[..i]) && st.deleted == 0
        invariant st.errors == 0 ==> client.store == UpsertedAll(db, kind, sys, Recs(cands[..i]))
        invariant SettledAll(db, kind, sys, Recs(cands)) ==> client.store == db && st.added == 0 && st.updated == 0
        invariant client.Healthy() ==> (st.errors == 0 <==> NoneRejected(cands[..i]))
        invariant st.errors == 0 && st.added == 0 && st.updated == 0 ==>
                    client.store == db && SettledAll(db, kind, sys, Recs(cands[..i]))
      {
        CandsStep(cands, i);
        match cands[i] {
          case Ignore =>
          case Reject(ref, reason) => st := Noted(st, ref, reason);
          case Upsert(r) =>
            ghost var mid := client.store;
            ghost var one;
            UpsertedAllSnoc(db, kind, sys, Recs(cands[..i]), r);
            SettledMember(db, kind, sys, Recs(cands), r);
            st, one := UpsertOne(kind, sys, r, st);
            log := DidAppend(ids, db, log, mid, one, client.store, sys, kind, r, cands);
        }
      }
      assert cands[..|cands|] == cands;
    }

    /** Delete an item if it is an orphan. */
    method DropOne(kind: Kind, sys: string, keep: set<string>, types: seq<string>, item: Item, t: Tally)
      returns (st: Tally, ghost log: Log, ghost gone: set<nat>)
      requires Inventory(kind) && item.id in client.store.cis && client.store.cis[item.id] == item.ci
      requires Hit(item.ci, Query(kind, sys, Any))
      modifies client
      ensures Progress(ids, old(client.store), log, client.store, sys, kind, gone)
      ensures gone <= Victim(ids, item, keep, types)
      ensures Tallied(t, st, gone) && (st.errors == t.errors ==> gone == Victim(ids, item, keep, types))
      ensures client.Healthy() ==> st.errors == t.errors
    {
      log, gone := Start, {};
      if !Orphan(ids, item.ci.row, keep, types) { return t, Start, {}; }
      var res, applied := client.DeleteCi(item.id);
      if applied {
        log, gone := Then(Start, Drop(kind, sys, keep, types, item.id)), {item.id};
      }
      DropProgress(ids, old(client.store), kind, sys, keep, types, item.id);
      if res.Err? {
        st := Noted(t, CloudUuid(ids, Sprint(Get(item.ci.row, Uuid))).value, "CMDB DeleteCI reconcile");
      } else {
        st := t.(deleted := t.deleted + 1);
      }
    }

    /** The inner loop of `reconcileCMDBCIsNotInAPI`: delete the orphans of one page. */
    method DropPage(kind: Kind, sys: string, keep: set<string>, types: seq<string>, page: seq<Item>, t: Tally,
                    ghost bad: set<nat>)
      returns (st: Tally, ghost log: Log, ghost gone: set<nat>)
      requires Inventory(kind) && FreshPage(client.store, Query(kind, sys, Any), page)
      requires Marks(ids, page, keep, types, bad)
      modifies client
      ensures Progress(ids, old(client.store), log, client.store, sys, kind, gone)
      ensures gone <= Shown(page, |page|) * bad
      ensures Tallied(t, st, gone) && (st.errors == t.errors ==> gone == Shown(page, |page|) * bad)
      ensures client.Healthy() ==> st.errors == t.errors
    {
      st, log, gone := t, Start, {};
      ghost var db := client.store;
      NothingCleared(ids, db, sys, kind, page, bad, t);
      for k := 0 to |page|
        invariant Cleared(ids, db, log, client.store, sys, kind, page, k, bad, t, st, gone)
        invariant client.Healthy() ==> st.errors == t.errors
      {
        ghost var mid, before, one, cut := client.store, st, Start, {};
        ClearedStep(ids, db, log, mid, sys, kind, page, k, bad, t, before, gone, keep, types);
        st, one, cut := DropOne(kind, sys, keep, types, page[k], st);
        log, gone := ClearedNext(ids, db, log, mid, one, client.store, sys, kind, page, k, bad, t, before, st, gone,
                                 cut, keep, types);
      }
    }

    /** One turn of the outer loop: read a page and delete its orphans; `more` is false when the
        listing is exhausted or cannot be read. */
    method ReconcilePage(kind: Kind, sys: string, keep: set<string>, types: seq<string>, page: nat, t: Tally)
      returns (st: Tally, more: bool, ghost log: Log, ghost gone: set<nat>)
      requires Inventory(kind) && page >= 1
      modifies client
      ensures Progress(ids, old(client.store), log, client.store, sys, kind, gone)
      ensures gone <= OrphansIn(ids, old(client.store), Query(kind, sys, Any), keep, types)
      ensures Tallied(t, st, gone)
      ensures var q := Query(kind, sys, Any); var s := Listing(old(client.store), q);
              && (more ==> Offset(client.pageSize, page) < |s| && |Listing(client.store, q)| <= |s|)
              && (!more ==> gone == {} && (st.errors == t.errors ==> Offset(client.pageSize, page) >= |s|))
              && (more && st.errors == t.errors ==>
                    gone == set i | i in PageOf(s, client.pageSize, page)
                      && i in OrphansIn(ids, old(client.store), q, keep, types))
      ensures client.Healthy() ==> st.errors == t.errors
    {
      hide DidDrop, OrphansIn, Orphan, ListTo, Hit, Marks, FreshPage, Shown, CloudUuid;
      var q := Query(kind, sys, Any);
      NothingDropped(ids, client.store, sys, kind, t);
      var res := client.GetCi(q, page);
      if res.Err? {
        st := Noted(t, "", "CMDB reconcile list");
        return st, false, Start, {};
      }
      if res.value == [] { return t, false, Start, {}; }
      PageIsFresh(client.store, q, client.pageSize, page);
      PageOrphans(ids, client.store, q, client.pageSize, page, keep, types);
      ghost var bad := OrphansIn(ids, client.store, q, keep, types);
      st, log, gone := DropPage(kind, sys, keep, types, res.value, t, bad);
      CutShrinks(old(client.store), q, gone);
      more := true;
    }

    /** `reconcileCMDBCIsNotInAPI`.  Whatever fails, only orphans go; when nothing fails, the listing
        ends up as one sweep leaves it. */
    method Reconcile(kind: Kind, system: string, keep: set<string>, types: seq<string>)
      returns (st: Tally, ghost log: Log, ghost gone: set<nat>)
      requires Inventory(kind)
      modifies client
      ensures Progress(ids, old(client.store), log, client.store, Trim(system), kind, gone)
      ensures gone <= OrphansIn(ids, old(client.store), Query(kind, Trim(system), Any), keep, types)
      ensures keep == {} || Trim(system) == "" ==> gone == {} && st == ZERO
      ensures st.errors == 0 && keep != {} && Trim(system) != "" ==>
                var q := Query(kind, Trim(system), Any);
                Listing(client.store, q) ==
                Swept(Listing(old(client.store), q), client.pageSize, 0,
                      OrphansIn(ids, old(client.store), q, keep, types))
      ensures Tallied(ZERO, st, gone)
      ensures client.Healthy() ==> st.errors == 0
    {
      hide Swept, DidDrop, OrphansIn, Orphan, ListTo, Hit, PageOf;
      st, log, gone := ZERO, Start, {};
      NothingDropped(ids, client.store, Trim(system), kind, ZERO);
      var sys := Trim(system);
      if keep == {} || sys == "" { return; }
      ghost var q := Query(kind, sys, Any);
      ghost var db := client.store;
      ghost var bad := OrphansIn(ids, db, q, keep, types);
      ghost var goal := Swept(Listing(db, q), client.pageSize, 0, bad);
      var page, more := 1, true;
      while more
        invariant page >= 1
        invariant Progress(ids, db, log, client.store, sys, kind, gone) && gone <= bad
        invariant Tallied(ZERO, st, gone)
        invariant client.Healthy() ==> st.errors == 0
        invariant st.errors == 0 ==> SweepsTo(client.store, q, client.pageSize, page, bad, goal)
        invariant st.errors == 0 && !more ==> Listing(client.store, q) == goal
        decreases more, |Listing(client.store, q)| - Offset(client.pageSize, page)
      {
        ghost var mid, before, one, cut := client.store, st, Start, {};
        st, more, one, cut := ReconcilePage(kind, sys, keep, types, page, st);
        OrphansLater(ids, db, gone, q, keep, types);
        SweepStep(ids, db, mid, q, client.pageSize, page, keep, types, gone, cut, goal);
        log := ProgressAppend(ids, db, log, mid, one, client.store, sys, kind, gone, cut);
        TalliedAppend(ZERO, before, st, gone, cut);
        gone := gone + cut;
        if more { page := page + 1; }
      }
    }
  }

  /** A legal run of deletions that took exactly the items in `gone`. */
  ghost predicate Progress(ids: IdScheme, db: Store, log: Log, post: Store, sys: string, kind: Kind, gone: set<nat>) {
    DidDrop(ids, db, log, post, sys, kind) && post == Cut(db, gone)
  }

  /** The orphans among the first k items of a page are gone, except where a deletion failed. */
  ghost predicate Cleared(ids: IdScheme, db: Store, log: Log, now: Store, sys: string, kind: Kind, page: seq<Item>,
                          k: nat, bad: set<nat>, t: Tally, st: Tally, gone: set<nat>)
    requires k <= |page|
  {
    && Progress(ids, db, log, now, sys, kind, gone) && gone <= Shown(page, k) * bad
    && Tallied(t, st, gone) && (st.errors == t.errors ==> gone == Shown(page, k) * bad)
  }

  lemma NothingCleared(ids: IdScheme, db: Store, sys: string, kind: Kind, page: seq<Item>, bad: set<nat>, t: Tally)
    ensures Cleared(ids, db, Start, db, sys, kind, page, 0, bad, t, t, {})
  {
    hide DidDrop;
    NothingDropped(ids, db, sys, kind, t);
  }

  lemma ClearedStep(ids: IdScheme, db: Store, log: Log, mid: Store, sys: string, kind: Kind, page: seq<Item>, k: nat,
                    bad: set<nat>, t: Tally, st: Tally, gone: set<nat>, keep: set<string>, types: seq<string>)
    requires k < |page| && Cleared(ids, db, log, mid, sys, kind, page, k, bad, t, st, gone)
    requires FreshPage(db, Query(kind, sys, Any), page) && Marks(ids, page, keep, types, bad)
    ensures page[k].id in mid.cis && mid.cis[page[k].id] == page[k].ci && Hit(page[k].ci, Query(kind, sys, Any))
  {
    hide DidDrop, Marks, FreshPage, Orphan, Shown, Tallied;
    ShownStep(ids, mid, db, Query(kind, sys, Any), page, k, gone, keep, types, bad);
  }

  lemma ClearedNext(ids: IdScheme, db: Store, log: Log, mid: Store, one: Log, now: Store, sys: string, kind: Kind,
                    page: seq<Item>, k: nat, bad: set<nat>, t: Tally, before: Tally, st: Tally, gone: set<nat>,
                    cut: set<nat>, keep: set<string>, types: seq<string>) returns (all: Log, out: set<nat>)
    requires k < |page| && Cleared(ids, db, log, mid, sys, kind, page, k, bad, t, before, gone)
    requires FreshPage(db, Query(kind, sys, Any), page) && Marks(ids, page, keep, types, bad)
    requires Progress(ids, mid, one, now, sys, kind, cut) && cut <= Victim(ids, page[k], keep, types)
    requires Tallied(before, st, cut) && (st.errors == before.errors ==> cut == Victim(ids, page[k], keep, types))
    ensures Cleared(ids, db, all, now, sys, kind, page, k + 1, bad, t, st, out)
  {
    hide DidDrop, Marks, FreshPage, Orphan, Victim, Shown, Hit, Cut;
    var q := Query(kind, sys, Any);
    ShownStep(ids, mid, db, q, page, k, gone, keep, types, bad);
    all := ProgressAppend(ids, db, log, mid, one, now, sys, kind, gone, cut);
    TalliedAppend(t, before, st, gone, cut);
    out := gone + cut;
  }

  lemma DropProgress(ids: IdScheme, db: Store, kind: Kind, sys: string, keep: set<string>, types: seq<string>, id: nat)
    requires Inventory(kind) && id in db.cis && Hit(db.cis[id], Query(kind, sys, Any))
    requires Orphan(ids, db.cis[id].row, keep, types)
    ensures Progress(ids, db, Start, db, sys, kind, {})
    ensures Progress(ids, db, Then(Start, Drop(kind, sys, keep, types, id)), Deleted(db, id), sys, kind, {id})
  {}

  lemma NothingDropped(ids: IdScheme, db: Store, sys: string, kind: Kind, t: Tally)
    ensures Progress(ids, db, Start, db, sys, kind, {}) && Tallied(t, t, {})
  {}

  lemma ProgressAppend(ids: IdScheme, db: Store, log: Log, mid: Store, one: Log, post: Store, sys: string, kind: Kind,
                       gone: set<nat>, cut: set<nat>) returns (all: Log)
    requires Progress(ids, db, log, mid, sys, kind, gone) && Progress(ids, mid, one, post, sys, kind, cut)
    ensures Progress(ids, db, all, post, sys, kind, gone + cut)
  {
    all := DropAppend(ids, db, log, mid, one, post, sys, kind);
    CutTwice(db, gone, cut);
  }

  /** What is left to sweep from the given page on leads to the goal. */
  predicate SweepsTo(db: Store, q: Query, size: PageSize, page: nat, bad: set<nat>, goal: seq<nat>) {
    Swept(Listing(db, q), size, Offset(size, page), bad) == goal
  }

  /** Deletions do not make new orphans. */
  lemma OrphansLater(ids: IdScheme, db: Store, gone: set<nat>, q: Query, keep: set<string>, types: seq<string>)
    ensures OrphansIn(ids, Cut(db, gone), q, keep, types) == OrphansIn(ids, db, q, keep, types) - gone
  {}

  lemma SweepStep(ids: IdScheme, db: Store, mid: Store, q: Query, size: PageSize, page: nat, keep: set<string>,
                  types: seq<string>, gone: set<nat>, cut: set<nat>, goal: seq<nat>)
    requires page >= 1 && mid == Cut(db, gone)
    ensures var bad := OrphansIn(ids, db, q, keep, types); var s := Listing(mid, q);
            && (SweepsTo(mid, q, size, page, bad, goal) && Offset(size, page) >= |s| ==> s == goal)
            && (SweepsTo(mid, q, size, page, bad, goal) && Offset(size, page) < |s|
                && cut == (set i | i in PageOf(s, size, page) && i in OrphansIn(ids, mid, q, keep, types)) ==>
                  SweepsTo(Cut(mid, cut), q, size, page + 1, bad, goal))
  {
    var bad, s, lo := OrphansIn(ids, db, q, keep, types), Listing(mid, q), Offset(size, page);
    OrphansLater(ids, db, gone, q, keep, types);
    if lo < |s| && cut == (set i | i in PageOf(s, size, page) && i in OrphansIn(ids, mid, q, keep, types)) {
      assert PageOf(s, size, page) == s[lo..PageEnd(s, size, lo)];
      assert forall i :: i in s ==> i !in gone;
      assert cut == PageBad(s, size, lo, bad);
      ListingWithout(mid, q, cut);
    }
  }

  function Cut(db: Store, gone: set<nat>): Store {
    db.(cis := db.cis - gone)
  }

  /** The ids of the first n items of a page. */
  function Shown(page: seq<Item>, n: nat): set<nat>
    requires n <= |page|
  {
    if n == 0 then {} else Shown(page, n - 1) + {page[n - 1].id}
  }

  /** The orphans of a page are its items in `bad`. */
  ghost predicate Marks(ids: IdScheme, page: seq<Item>, keep: set<string>, types: seq<string>, bad: set<nat>) {
    forall k {:trigger Orphan(ids, page[k].ci.row, keep, types)} ::
      0 <= k < |page| ==> (Orphan(ids, page[k].ci.row, keep, types) <==> page[k].id in bad)
  }

  lemma {:induction false} ShownMembers(page: seq<Item>, n: nat)
    requires n <= |page|
    ensures forall i {:trigger i in Shown(page, n)} :: i in Shown(page, n) <==>
              exists k :: 0 <= k < n && page[k].id == i
  {
    if n > 0 { ShownMembers(page, n - 1); }
  }

  /** The orphans among all items a query hits. */
  function OrphansIn(ids: IdScheme, db: Store, q: Query, keep: set<string>, types: seq<string>): set<nat> {
    set i | i in db.cis && Hit(db.cis[i], q) && Orphan(ids, db.cis[i].row, keep, types)
  }

  /** The page shows present items that the query hits, in ascending id order. */
  predicate FreshPage(db: Store, q: Query, page: seq<Item>) {
    && (forall k :: 0 <= k < |page| ==> page[k].id in db.cis && db.cis[page[k].id] == page[k].ci && Hit(page[k].ci, q))
    && (forall a, b :: 0 <= a < b < |page| ==> page[a].id < page[b].id)
  }

  /** The id an item loses to reconciliation, if it is an orphan. */
  function Victim(ids: IdScheme, item: Item, keep: set<string>, types: seq<string>): set<nat> {
    if Orphan(ids, item.ci.row, keep, types) then {item.id} else {}
  }

  lemma ShownStep(ids: IdScheme, store: Store, db: Store, q: Query, page: seq<Item>, k: nat, gone: set<nat>,
                  keep: set<string>, types: seq<string>, bad: set<nat>)
    requires k < |page| && FreshPage(db, q, page) && store == Cut(db, gone) && gone <= Shown(page, k)
    requires Marks(ids, page, keep, types, bad)
    ensures page[k].id !in gone
    ensures page[k].id in store.cis && store.cis[page[k].id] == page[k].ci && Hit(page[k].ci, q)
    ensures Victim(ids, page[k], keep, types) == {page[k].id} * bad
    ensures Shown(page, k + 1) * bad == Shown(page, k) * bad + {page[k].id} * bad
  {
    ShownMembers(page, k);
  }

  /** A legal run of deletions by reconciliation; it grounds on anything. */
  ghost predicate DidDrop(ids: IdScheme, db: Store, log: Log, post: Store, sys: string, kind: Kind) {
    Did(ids, db, log, post, sys, kind) && DropsOnly(log)
  }

  predicate DropsOnly(log: Log) {
    log.Then? ==> DropsOnly(log.prev) && log.last.Drop?
  }

  lemma {:induction false} DropsGrounded(log: Log, db: Store)
    requires DropsOnly(log)
    ensures Every(log, GroundedIn(db))
  {
    if log.Then? { DropsGrounded(log.prev, db); }
  }

  lemma {:induction false} DropsAppend(a: Log, b: Log)
    requires DropsOnly(a) && DropsOnly(b)
    ensures DropsOnly(Append(a, b))
  {
    if b.Then? { DropsAppend(a, b.prev); }
  }

  lemma DropAppend(ids: IdScheme, db: Store, log: Log, mid: Store, one: Log, post: Store, sys: string, kind: Kind)
    returns (all: Log)
    requires DidDrop(ids, db, log, mid, sys, kind) && DidDrop(ids, mid, one, post, sys, kind)
    ensures DidDrop(ids, db, all, post, sys, kind)
  {
    all := Append(log, one);
    RunAppend(ids, db, log, one);
    EveryAppend(log, one, InSystem(sys));
    EveryAppend(log, one, OfKind(kind));
    DropsAppend(log, one);
  }

  lemma CutShrinks(db: Store, q: Query, gone: set<nat>)
    ensures |Listing(Cut(db, gone), q)| <= |Listing(db, q)|
  {
    ListingWithout(db, q, gone);
    WithoutShorter(Listing(db, q), gone);
  }

  lemma CutTwice(db: Store, a: set<nat>, b: set<nat>)
    ensures Cut(Cut(db, a), b) == Cut(db, a + b)
  {}

  lemma PageIsFresh(db: Store, q: Query, size: PageSize, page: nat)
    ensures FreshPage(db, q, Items(db, PageOf(Listing(db, q), size, page)))
  {
    var s := Listing(db, q);
    var p := PageOf(s, size, page);
    forall k | 0 <= k < |p| ensures p[k] in s { assert p[k] in p; }
  }

  /** The orphans of a page are the orphans of the listing that it shows. */
  lemma PageOrphans(ids: IdScheme, db: Store, q: Query, size: PageSize, page: nat, keep: set<string>,
                    types: seq<string>)
    ensures var p := PageOf(Listing(db, q), size, page);
            && Marks(ids, Items(db, p), keep, types, OrphansIn(ids, db, q, keep, types))
            && Shown(Items(db, p), |p|) == set i | i in p
  {
    var p := PageOf(Listing(db, q), size, page);
    forall k | 0 <= k < |p| ensures p[k] in Listing(db, q) { assert p[k] in p; }
    ShownMembers(Items(db, p), |p|);
    forall i | i in p ensures i in Shown(Items(db, p), |p|) {
      var k :| 0 <= k < |p| && p[k] == i;
      assert Items(db, p)[k].id == i;
    }
  }

  /** The counters after some deletions: every item gone was counted as deleted or as an error. */
  predicate Tallied(t: Tally, st: Tally, gone: set<nat>) {
    && st.added == t.added && st.updated == t.updated && st.skipped == t.skipped
    && t.deleted <= st.deleted && t.errors <= st.errors
    && st.deleted - t.deleted <= |gone| <= st.deleted - t.deleted + (st.errors - t.errors)
  }

  lemma TalliedAppend(a: Tally, b: Tally, c: Tally, gone: set<nat>, cut: set<nat>)
    requires Tallied(a, b, gone) && Tallied(b, c, cut) && gone !! cut
    ensures Tallied(a, c, gone + cut)
  {}

  /** The log is a legal run from db to post that only writes items of one kind in one system. */
  ghost predicate Did(ids: IdScheme, db: Store, log: Log, post: Store, sys: string, kind: Kind) {
    Legal(ids, db, log) && post == Run(db, log) && Every(log, InSystem(sys)) && Every(log, OfKind(kind))
  }

  ghost predicate NodesKnown(db: Store, sys: string, cands: seq<Cand>) {
    forall c :: c in cands && c.Upsert? ==> HasNode(db, sys, c.rec.node)
  }

  lemma CandsStep(cands: seq<Cand>, i: nat)
    requires i < |cands|
    ensures cands[i] in cands
    ensures Eligible(cands[..i + 1]) == Eligible(cands[..i]) + if cands[i].Ignore? then 0 else 1
    ensures Recs(cands[..i + 1]) == if cands[i].Upsert? then Recs(cands[..i]) + [cands[i].rec] else Recs(cands[..i])
    ensures cands[i].Upsert? ==> cands[i].rec in Recs(cands)
    ensures NoneRejected(cands[..i + 1]) <==> NoneRejected(cands[..i]) && !cands[i].Reject?
  {
    assert cands[..i + 1][..i] == cands[..i];
    assert cands[..i + 1] == cands[..i] + [cands[i]];
    if cands[i].Upsert? { RecsMembers(cands, cands[i].rec); }
  }

  lemma DidAppend(ids: IdScheme, db: Store, log: Log, mid: Store, one: Log, post: Store, sys: string, kind: Kind,
                  r: Rec, cands: seq<Cand>) returns (all: Log)
    requires Did(ids, db, log, mid, sys, kind)
    requires Legal(ids, mid, one) && post == Run(mid, one) && WritesOnly(one, kind, sys, r) && Upsert(r) in cands
    ensures Did(ids, db, all, post, sys, kind)
    ensures NodesKnown(db, sys, cands) && Every(log, GroundedIn(db)) ==> Every(all, GroundedIn(db))
    ensures Every(log, Upserting(kind, UuidsOf(Recs(cands)))) ==> Every(all, Upserting(kind, UuidsOf(Recs(cands))))
  {
    hide Enabled, Do, HasNode, Recs;
    RecsMembers(cands, r);
    all := Append(log, one);
    RunAppend(ids, db, log, one);
  }

  /** The three ways a record's loop turn can go. */
  lemma UpsertedFrom(ids: IdScheme, db: Store, kind: Kind, sys: string, r: Rec)
    requires Sound(ids, kind, sys, r)
    ensures Legal(ids, db, Start) && Run(db, Start) == db
    ensures match Lookup(db, kind, sys, r)
            case None =>
              var log := Then(Start, Create(kind, sys, r));
              && Legal(ids, db, log) && Run(db, log) == Added(db, kind, r.add) == Upserted(db, kind, sys, r)
              && !Settled(db, kind, sys, r)
            case Some(i) =>
              var log := Then(Start, Refresh(kind, sys, r, i));
              && i in db.cis && Legal(ids, db, log) && Run(db, log) == Updated(db, i, Merge(r.want, db.cis[i].row))
              && (Settled(db, kind, sys, r) <==> !Changed(db.cis[i].row, Merge(r.want, db.cis[i].row)))
              && Upserted(db, kind, sys, r) == if Settled(db, kind, sys, r) then db else Run(db, log)
  {}

  lemma NothingUpserted(ids: IdScheme, db: Store, kind: Kind, sys: string)
    ensures Did(ids, db, Start, db, sys, kind) && Every(Start, GroundedIn(db)) && db == Run(db, Start)
    ensures forall us :: Every(Start, Upserting(kind, us))
    ensures UpsertedAll(db, kind, sys, Recs([])) == db && Eligible([]) == 0 && SettledAll(db, kind, sys, Recs([]))
  {}

  lemma UpsertedAllSnoc(db: Store, kind: Kind, sys: string, rs: seq<Rec>, r: Rec)
    ensures UpsertedAll(db, kind, sys, rs + [r]) == Upserted(UpsertedAll(db, kind, sys, rs), kind, sys, r)
    ensures SettledAll(db, kind, sys, rs) && Settled(db, kind, sys, r) ==> SettledAll(db, kind, sys, rs + [r])
  {
    hide Settled, Upserted;
    assert (rs + [r])[..|rs|] == rs;
  }

  lemma SettledMember(db: Store, kind: Kind, sys: string, rs: seq<Rec>, r: Rec)
    requires r in rs
    ensures SettledAll(db, kind, sys, rs) ==> Settled(db, kind, sys, r)
  {
    hide Settled;
  }
}
