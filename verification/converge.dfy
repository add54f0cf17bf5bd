/** Orphans over repeated reconciliations of one kind. */
module Converge {
  import opened Common
  import opened Text
  import opened Values
  import opened Rows
  import opened Remote
  import opened Ids
  import opened Events
  import opened Safety
  import opened Upsert
  import opened Stats
  import opened Sweep
  import opened Passes

  function Marked(s: seq<nat>, bad: set<nat>): set<nat> { set i | i in s && i in bad }

  lemma MarkedSnoc(init: seq<nat>, last: nat, bad: set<nat>)
    requires Ascending(init + [last])
    ensures last !in init && Ascending(init)
    ensures Marked(init + [last], bad) == Marked(init, bad) + if last in bad then {last} else {}
  {
    var s := init + [last];
    forall i | i in init ensures i < last {
      var k :| 0 <= k < |init| && init[k] == i;
      assert s[k] < s[|s| - 1];
    }
    forall a, b | 0 <= a < b < |init| ensures init[a] < init[b] { assert s[a] < s[b]; }
  }

  lemma BadOne(x: nat, bad: set<nat>)
    ensures Bad([x], bad) == if x in bad then 1 else 0
  {
    assert [x][..0] == [] && Without([x][..0], bad) == [];
    assert Without([x], bad) == if x in bad then [] else [x];
  }

  /** In an ascending listing every orphan is counted once. */
  lemma {:induction false} BadIsCount(s: seq<nat>, bad: set<nat>)
    requires Ascending(s)
    ensures Bad(s, bad) == |Marked(s, bad)|
    decreases |s|
  {
    hide Ascending, Without, Sweep.Bad;
    if s == [] {
      assert Marked(s, bad) == {};
    } else {
      var init, last := s[..|s| - 1], s[|s| - 1];
      assert s == init + [last];
      MarkedSnoc(init, last, bad);
      BadIsCount(init, bad);
      BadAppend(init, [last], bad);
      BadOne(last, bad);
    }
  }

  /** What an error-free reconciliation does to the store. */
  ghost predicate SweptOnce(ids: IdScheme, a: Store, b: Store, q: Query, size: PageSize, keep: set<string>,
                            types: seq<string>) {
    && (exists gone: set<nat> :: b == Cut(a, gone) && gone <= OrphansIn(ids, a, q, keep, types))
    && Listing(b, q) == Swept(Listing(a, q), size, 0, OrphansIn(ids, a, q, keep, types))
  }

  /** At most half of the orphans remain, so one goes whenever there is one; all else is untouched. */
  lemma OrphansHalve(ids: IdScheme, a: Store, b: Store, q: Query, size: PageSize, keep: set<string>, types: seq<string>)
    requires SweptOnce(ids, a, b, q, size, keep, types)
    ensures 2 * |OrphansIn(ids, b, q, keep, types)| <= |OrphansIn(ids, a, q, keep, types)|
    ensures OrphansIn(ids, b, q, keep, types) <= OrphansIn(ids, a, q, keep, types)
    ensures forall i :: i in a.cis && i !in OrphansIn(ids, a, q, keep, types) ==> i in b.cis && b.cis[i] == a.cis[i]
  {
    hide Orphan, Swept, Sweep.Bad, Marked, Hit, ListTo, OrphansIn;
    var bad := OrphansIn(ids, a, q, keep, types);
    var gone: set<nat> :| b == Cut(a, gone) && gone <= bad;
    OrphansLater(ids, a, gone, q, keep, types);
    RunHalves(Listing(a, q), size, bad);
    OrphansMarked(ids, a, {}, q, keep, types);
    OrphansMarked(ids, a, gone, q, keep, types);
    assert Cut(a, {}) == a && bad - {} == bad;
    BadIsCount(Listing(a, q), bad);
    BadIsCount(Listing(b, q), bad);
  }

  /** After deletions the orphans that a listing shows are the ones that were not deleted. */
  lemma OrphansMarked(ids: IdScheme, a: Store, gone: set<nat>, q: Query, keep: set<string>, types: seq<string>)
    ensures Marked(Listing(Cut(a, gone), q), OrphansIn(ids, a, q, keep, types)) ==
            OrphansIn(ids, a, q, keep, types) - gone
  {
    hide Orphan, ListTo, Hit;
  }

  // ---------- when one run is enough ----------

  /** The listed items stand for resources, each for its own, and are of types that reconciliation may
      delete. */
  ghost predicate Named(ids: IdScheme, db: Store, q: Query, types: seq<string>) {
    && (forall i {:trigger UuidOf(ids, db.cis[i])} :: i in Listing(db, q) ==>
          && UuidOf(ids, db.cis[i]).Some?
          && (types == [] || Trim(Sprint(Get(db.cis[i].row, ResourceType))) in types))
    && (forall i, j {:trigger UuidOf(ids, db.cis[i]), UuidOf(ids, db.cis[j])} ::
          i in Listing(db, q) && j in Listing(db, q) && i != j ==> UuidOf(ids, db.cis[i]) != UuidOf(ids, db.cis[j]))
  }

  predicate CanonKeep(ids: IdScheme, keep: set<string>) { keep != {} && forall u :: u in keep ==> CanonOf(ids, u) }

  /** An error-free reconciliation leaves no orphan, whatever resources the cloud lists. */
  ghost predicate OneRunClears(ids: IdScheme, db: Store, q: Query, size: PageSize, types: seq<string>) {
    forall post, keep {:trigger SweptOnce(ids, db, post, q, size, keep, types)} ::
      CanonKeep(ids, keep) && SweptOnce(ids, db, post, q, size, keep, types) ==>
        OrphansIn(ids, post, q, keep, types) == {}
  }

  /** What a sweep leaves of the orphans is what it leaves of them in the listing. */
  lemma OrphansLeft(ids: IdScheme, db: Store, post: Store, q: Query, size: PageSize, keep: set<string>,
                    types: seq<string>)
    requires SweptOnce(ids, db, post, q, size, keep, types)
    ensures OrphansIn(ids, post, q, keep, types) == Marked(Listing(post, q), OrphansIn(ids, db, q, keep, types))
  {
    hide Orphan, Swept, ListTo, Hit, OrphansIn;
    var bad := OrphansIn(ids, db, q, keep, types);
    var gone: set<nat> :| post == Cut(db, gone) && gone <= bad;
    OrphansLater(ids, db, gone, q, keep, types);
    OrphansMarked(ids, db, gone, q, keep, types);
  }

  /** Every sweep of a listing is the effect of some deletions. */
  lemma SweepExists(ids: IdScheme, db: Store, q: Query, size: PageSize, keep: set<string>, types: seq<string>)
    returns (post: Store)
    ensures SweptOnce(ids, db, post, q, size, keep, types)
  {
    hide Orphan, Swept, ListTo, Hit, OrphansIn;
    var gone := SweptGone(Listing(db, q), size, 0, OrphansIn(ids, db, q, keep, types));
    post := Cut(db, gone);
    ListingWithout(db, q, gone);
  }

  /** A cloud list that lacks just two of the resources items stand for. */
  lemma KeepAllBut(ids: IdScheme, db: Store, q: Query, a: nat, b: nat, types: seq<string>, spare: string)
    returns (keep: set<string>)
    requires Named(ids, db, q, types) && a in Listing(db, q) && b in Listing(db, q)
    requires CanonOf(ids, spare) && forall i :: i in Listing(db, q) ==> UuidOf(ids, db.cis[i]) != Some(spare)
    ensures CanonKeep(ids, keep) && OrphansIn(ids, db, q, keep, types) == {a, b}
  {
    hide ListTo, Hit, CanonOf, Sprint, Trim;
    var s := Listing(db, q);
    keep := {spare} + set i | i in s && i != a && i != b :: UuidOf(ids, db.cis[i]).value;
    assert spare in keep;
    forall i ensures i in OrphansIn(ids, db, q, keep, types) <==> i == a || i == b {
      if i in s { assert UuidOf(ids, db.cis[i]).Some?; }
    }
  }

  lemma FitsClears(ids: IdScheme, db: Store, post: Store, q: Query, size: PageSize, keep: set<string>,
                   types: seq<string>)
    requires SweptOnce(ids, db, post, q, size, keep, types) && |Listing(db, q)| <= size
    ensures OrphansIn(ids, post, q, keep, types) == {}
  {
    hide Orphan, ListTo, Hit, OrphansIn;
    var bad := OrphansIn(ids, db, q, keep, types);
    OnePageClears(Listing(db, q), size, bad);
    WithoutMembers(Listing(db, q), bad);
    OrphansLeft(ids, db, post, q, size, keep, types);
  }

  /** One error-free reconciliation clears every set of orphans exactly if the kind's listing fits a
      page.  The spare uuid is one that no item has. */
  lemma OneRunClearsIff(ids: IdScheme, db: Store, q: Query, size: PageSize, types: seq<string>, spare: string)
    requires Named(ids, db, q, types)
    requires CanonOf(ids, spare) && forall i :: i in Listing(db, q) ==> UuidOf(ids, db.cis[i]) != Some(spare)
    ensures OneRunClears(ids, db, q, size, types) <==> |Listing(db, q)| <= size
  {
    hide SweptOnce, OrphansIn, Listing, Named, Swept, CanonKeep, UuidOf, CanonOf;
    var s := Listing(db, q);
    if |s| <= size {
      forall post, keep | SweptOnce(ids, db, post, q, size, keep, types)
        ensures OrphansIn(ids, post, q, keep, types) == {}
      {
        FitsClears(ids, db, post, q, size, keep, types);
      }
    } else {
      assert s[0] in s && s[size] in s;
      var keep := KeepAllBut(ids, db, q, s[0], s[size], types, spare);
      var post := SweepExists(ids, db, q, size, keep, types);
      FirstSlips(s, size);
      OrphansLeft(ids, db, post, q, size, keep, types);
      SweptListing(ids, db, post, q, size, keep, types);
      assert s[size] in OrphansIn(ids, post, q, keep, types);
    }
  }

  lemma SweptListing(ids: IdScheme, db: Store, post: Store, q: Query, size: PageSize, keep: set<string>,
                     types: seq<string>)
    requires SweptOnce(ids, db, post, q, size, keep, types)
    ensures Listing(post, q) == Swept(Listing(db, q), size, 0, OrphansIn(ids, db, q, keep, types))
  {}

  /** n items for one and the same resource. */
  function Crowd(kind: Kind, sys: string, u: string, n: nat): (db: Store)
    ensures db.next == n
    ensures forall i: nat :: i in db.cis <==> i < n
    ensures forall i: nat :: i < n ==> db.cis[i] == Ci(kind, map[SystemId := Str(sys), Uuid := Str(u)])
  {
    if n == 0 then Db(map[], 0)
    else
      ScalarRowEncodes(map[SystemId := Str(sys), Uuid := Str(u)]);
      Added(Crowd(kind, sys, u, n - 1), kind, map[SystemId := Str(sys), Uuid := Str(u)])
  }

  lemma {:induction false} CrowdListed(kind: Kind, sys: string, u: string, n: nat, m: nat)
    requires m <= n
    ensures |ListTo(Crowd(kind, sys, u, n).cis, Query(kind, sys, Any), m)| == m
  {
    if m > 0 {
      CrowdListed(kind, sys, u, n, m - 1);
      assert Hit(Crowd(kind, sys, u, n).cis[m - 1], Query(kind, sys, Any));
    }
  }

  lemma CrowdOrphans(ids: IdScheme, kind: Kind, sys: string, u: string, n: nat, keep: set<string>)
    requires CanonOf(ids, u) && u !in keep
    ensures var s := Listing(Crowd(kind, sys, u, n), Query(kind, sys, Any));
            |s| == n && forall i :: i in s ==>
              i in OrphansIn(ids, Crowd(kind, sys, u, n), Query(kind, sys, Any), keep, [])
  {
    hide ListTo;
    var db, q := Crowd(kind, sys, u, n), Query(kind, sys, Any);
    CanonRoundTrip(ids, u);
    CrowdListed(kind, sys, u, n, n);
    forall i | i in Listing(db, q) ensures i in OrphansIn(ids, db, q, keep, []) {
      assert Hit(db.cis[i], q) && Orphan(ids, db.cis[i].row, keep, []);
    }
  }

  lemma AllMarkedIff(s: seq<nat>, size: PageSize, bad: set<nat>)
    requires Ascending(s) && forall i :: i in s ==> i in bad
    ensures Marked(Swept(s, size, 0, bad), bad) == {} <==> |s| <= size
  {
    hide Swept, Without;
    var r := Swept(s, size, 0, bad);
    AllBadIff(s, size, bad);
    SweptKeeps(s, size, 0, bad, r);
    AllGone(s, bad);
    WithoutMembers(r, bad);
    assert r != [] ==> r[0] !in Without(r, bad) && r[0] in Marked(r, bad);
  }

  /** A resource that left the cloud with n items behind it: one run removes them all exactly if they
      fit a page. */
  lemma CrowdCleared(ids: IdScheme, kind: Kind, sys: string, u: string, n: nat, post: Store, size: PageSize,
                     keep: set<string>)
    requires CanonOf(ids, u) && u !in keep
    requires SweptOnce(ids, Crowd(kind, sys, u, n), post, Query(kind, sys, Any), size, keep, [])
    ensures OrphansIn(ids, post, Query(kind, sys, Any), keep, []) == {} <==> n <= size
  {
    hide ListTo, SweptOnce, Swept, OrphansIn, Marked, Crowd;
    var db, q := Crowd(kind, sys, u, n), Query(kind, sys, Any);
    CrowdOrphans(ids, kind, sys, u, n, keep);
    OrphansLeft(ids, db, post, q, size, keep, []);
    SweptListing(ids, db, post, q, size, keep, []);
    AllMarkedIff(Listing(db, q), size, OrphansIn(ids, db, q, keep, []));
  }

  // ---------- orphans do not come about otherwise ----------

  /** No write makes an orphan, if upserts of the kind are for resources that are kept. */
  lemma OrphansStep(ids: IdScheme, db: Store, e: Event, k: Kind, sys: string, keep: set<string>, types: seq<string>)
    requires Inventory(k) && Enabled(ids, db, e) && Obeys(e, Upserting(k, keep))
    ensures OrphansIn(ids, Do(db, e), Query(k, sys, Any), keep, types) <=
            OrphansIn(ids, db, Query(k, sys, Any), keep, types)
  {
    hide Orphan, OrphansIn;
    var q := Query(k, sys, Any);
    forall i | i in OrphansIn(ids, Do(db, e), q, keep, types) ensures i in OrphansIn(ids, db, q, keep, types) {
      OrphanBefore(ids, db, e, q, keep, types, i);
    }
  }

  lemma OrphanBefore(ids: IdScheme, db: Store, e: Event, q: Query, keep: set<string>, types: seq<string>, i: nat)
    requires Inventory(q.kind) && Enabled(ids, db, e) && Obeys(e, Upserting(q.kind, keep))
    requires q.key == Any && i in OrphansIn(ids, Do(db, e), q, keep, types)
    ensures i in OrphansIn(ids, db, q, keep, types)
  {
    hide Orphan, Lookup, MiddlewareUuid, Inked, Trimmed, Written, CanonOf, CleanList, ScalarRow, Merge, Encode;
    match e
    case Create(kind, sys, r) =>
      ScalarRowEncodes(r.add);
      if i == db.next && kind == q.kind { KeptNotOrphan(ids, r.add, r.uuid, keep, types); }
    case Refresh(kind, sys, r, id) =>
      RefreshedRow(ids, db, kind, sys, r, id);
      RewriteWrites(db, id, r.want);
      if i == id && kind == q.kind { KeptNotOrphan(ids, Do(db, e).cis[id].row, r.uuid, keep, types); }
    case NodeRefresh(_, _, admin, id) => RewriteWrites(db, id, map[AdminName := Str(admin)]);
    case DomainPatch(_, _, domains, id) =>
      if i == id { PatchedOrphan(ids, db.cis[id].row, domains, keep, types); }
    case _ =>
  }

  lemma KeptNotOrphan(ids: IdScheme, row: Row, u: string, keep: set<string>, types: seq<string>)
    requires Get(row, Uuid) == Str(u) && CanonOf(ids, u) && u in keep
    ensures !Orphan(ids, row, keep, types)
  {
    CanonRoundTrip(ids, u);
  }

  lemma PatchedOrphan(ids: IdScheme, row: Row, domains: seq<string>, keep: set<string>, types: seq<string>)
    ensures var w := row + EncodeRow(map[DomainName := Strs(domains)]);
            Get(w, SystemId) == Get(row, SystemId) && Orphan(ids, w, keep, types) == Orphan(ids, row, keep, types)
  {
    hide CloudUuid, Sprint, Trim, Encode;
    var w := row + EncodeRow(map[DomainName := Strs(domains)]);
    assert Get(w, Uuid) == Get(row, Uuid) && Get(w, ResourceType) == Get(row, ResourceType);
  }

  lemma {:induction false} OrphansRun(ids: IdScheme, db: Store, log: Log, k: Kind, sys: string, keep: set<string>,
                                      types: seq<string>)
    requires Inventory(k) && Legal(ids, db, log) && Every(log, Upserting(k, keep))
    ensures OrphansIn(ids, Run(db, log), Query(k, sys, Any), keep, types) <=
            OrphansIn(ids, db, Query(k, sys, Any), keep, types)
  {
    hide OrphansIn, Enabled, Do, Obeys;
    if log.Then? {
      OrphansRun(ids, db, log.prev, k, sys, keep, types);
      OrphansStep(ids, Run(db, log.prev), log.last, k, sys, keep, types);
    }
  }

  // ---------- repeated runs ----------

  ghost predicate Chain(c: Trail<Store>, ids: IdScheme, q: Query, size: PageSize, keep: set<string>,
                        types: seq<string>) {
    c.Next? ==> Chain(c.prev, ids, q, size, keep, types) && SweptOnce(ids, c.prev.db, c.db, q, size, keep, types)
  }

  /** After n error-free runs at most a 2^n-th of the orphans is left. */
  lemma {:induction false} OrphansVanish(c: Trail<Store>, ids: IdScheme, q: Query, size: PageSize, keep: set<string>,
                                         types: seq<string>)
    requires Chain(c, ids, q, size, keep, types)
    ensures Power2(Length(c)) * |OrphansIn(ids, c.db, q, keep, types)| <= |OrphansIn(ids, Origin(c), q, keep, types)|
  {
    hide SweptOnce, OrphansIn, Orphan;
    if c.Begin? {
      assert Power2(0) == 1;
    } else {
      OrphansVanish(c.prev, ids, q, size, keep, types);
      OrphansHalve(ids, c.prev.db, c.db, q, size, keep, types);
      Halve(Power2(Length(c.prev)), |OrphansIn(ids, c.db, q, keep, types)|,
            |OrphansIn(ids, c.prev.db, q, keep, types)|, |OrphansIn(ids, Origin(c), q, keep, types)|);
    }
  }

  /** A reconciliation over the CMDB is such a run when no call failed. */
  method ReconcileOnce(s: Syncer, kind: Kind, sys: string, keep: set<string>, types: seq<string>) returns (st: Tally)
    requires Inventory(kind) && Trimmed(sys) && sys != "" && keep != {}
    modifies s.client
    ensures st.errors == 0 ==>
              && SweptOnce(s.ids, old(s.client.store), s.client.store, Query(kind, sys, Any), s.client.pageSize, keep,
                           types)
              && (OrphansIn(s.ids, old(s.client.store), Query(kind, sys, Any), keep, types) != {} ==> st.deleted > 0)
  {
    ghost var db, q := s.client.store, Query(kind, sys, Any);
    ghost var log, gone;
    st, log, gone := s.Reconcile(kind, sys, keep, types);
    if st.errors == 0 {
      assert s.client.store == Cut(db, gone);
      OrphansHalve(s.ids, db, s.client.store, q, s.client.pageSize, keep, types);
      OrphansLater(s.ids, db, gone, q, keep, types);
    }
  }
}
