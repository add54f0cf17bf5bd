/** The cloud inventory of one system, and the upsert-then-reconcile step of each kind. */
module Inventories {
  import opened Text
  import opened Values
  import opened Rows
  import opened Remote
  import opened Ids
  import opened Events
  import opened Safety
  import opened Records
  import opened Upsert
  import opened Stats
  import opened Sweep
  import opened Passes
  import opened Converge

  datatype Lists = Lists(clusters: seq<Cluster>, hosts: seq<Host>, middlewares: seq<Middleware>,
                         eips: seq<Option<Eip>>, elbs: seq<Option<Elb>>)

  function Cands(ids: IdScheme, sys: string, l: Lists, k: Kind): seq<Cand> {
    match k
    case K8sCluster => seq(|l.clusters|, i requires 0 <= i < |l.clusters| => ClusterCand(ids, sys, l.clusters[i]))
    case Server => seq(|l.hosts|, i requires 0 <= i < |l.hosts| => HostCand(ids, sys, l.hosts[i]))
    case MiddleSoftware =>
      seq(|l.middlewares|, i requires 0 <= i < |l.middlewares| => MiddlewareCand(ids, sys, l.middlewares[i]))
    case EIP => seq(|l.eips|, i requires 0 <= i < |l.eips| => EipCand(ids, sys, l.eips[i]))
    case ELB => seq(|l.elbs|, i requires 0 <= i < |l.elbs| => ElbCand(ids, sys, l.elbs[i]))
    case _ => []
  }

  function RecsOf(ids: IdScheme, sys: string, l: Lists, k: Kind): seq<Rec> { Recs(Cands(ids, sys, l, k)) }

  /** The instance id of the i-th listed resource; nil entries have none. */
  function RawIds(l: Lists, k: Kind): seq<string> {
    match k
    case K8sCluster => seq(|l.clusters|, i requires 0 <= i < |l.clusters| => l.clusters[i].uid)
    case Server => seq(|l.hosts|, i requires 0 <= i < |l.hosts| => l.hosts[i].instanceId)
    case MiddleSoftware => seq(|l.middlewares|, i requires 0 <= i < |l.middlewares| => l.middlewares[i].instanceId)
    case EIP => seq(|l.eips|, i requires 0 <= i < |l.eips| => if l.eips[i].Some? then l.eips[i].value.id else "")
    case ELB => seq(|l.elbs|, i requires 0 <= i < |l.elbs| => if l.elbs[i].Some? then l.elbs[i].value.id else "")
    case _ => []
  }

  function Canon(ids: IdScheme, k: Kind): string -> Option<string> {
    if k.MiddleSoftware? then raw => MiddlewareUuid(ids, raw) else raw => CloudUuid(ids, raw)
  }

  /** The resource types that reconciliation may delete, when it is restricted to some. */
  function Types(k: Kind): seq<string> {
    if k.MiddleSoftware? then ["RDS_INS", "DCS_REDIS", "DMS_ROCKETMQ"] else []
  }

  /** Where the listed resources live: hosts, middleware and clusters, then EIPs, then ELBs. */
  function Places(l: Lists): seq<Place> {
    seq(|l.hosts|, i requires 0 <= i < |l.hosts| => l.hosts[i].place) +
    seq(|l.middlewares|, i requires 0 <= i < |l.middlewares| => l.middlewares[i].place) +
    seq(|l.clusters|, i requires 0 <= i < |l.clusters| => l.clusters[i].place) +
    EipPlaces(l.eips) + ElbPlaces(l.elbs)
  }

  function EipPlaces(eips: seq<Option<Eip>>): (ps: seq<Place>)
    ensures forall e :: e in eips && e.Some? ==> EipPlace(e.value) in ps
  {
    if eips == [] then []
    else if eips[0].None? then EipPlaces(eips[1..])
    else [EipPlace(eips[0].value)] + EipPlaces(eips[1..])
  }

  function ElbPlaces(elbs: seq<Option<Elb>>): (ps: seq<Place>)
    ensures forall e :: e in elbs && e.Some? ==> ElbPlace(e.value) in ps
  {
    if elbs == [] then []
    else if elbs[0].None? then ElbPlaces(elbs[1..])
    else [ElbPlace(elbs[0].value)] + ElbPlaces(elbs[1..])
  }

  lemma CandsSound(ids: IdScheme, sys: string, l: Lists, k: Kind)
    ensures forall c :: c in Cands(ids, sys, l, k) ==> SoundCand(ids, k, sys, c)
  {
    var cands := Cands(ids, sys, l, k);
    forall i | 0 <= i < |cands| ensures SoundCand(ids, k, sys, cands[i]) {
      match k
      case K8sCluster => ClusterSound(ids, sys, l.clusters[i]);
      case Server => HostSound(ids, sys, l.hosts[i]);
      case MiddleSoftware => MiddlewareSound(ids, sys, l.middlewares[i]);
      case EIP => EipSound(ids, sys, l.eips[i]);
      case ELB => ElbSound(ids, sys, l.elbs[i]);
    }
  }

  lemma {:induction false} RecsSound(ids: IdScheme, sys: string, l: Lists, k: Kind)
    ensures SoundAll(ids, k, sys, RecsOf(ids, sys, l, k))
  {
    CandsSound(ids, sys, l, k);
    var rs := RecsOf(ids, sys, l, k);
    forall i | 0 <= i < |rs| ensures Sound(ids, k, sys, rs[i]) {
      RecsMembers(Cands(ids, sys, l, k), rs[i]);
    }
  }

  /** The canonical uuid of a record is that of a listed resource. */
  lemma CandUuid(ids: IdScheme, sys: string, l: Lists, k: Kind, i: nat)
    requires i < |Cands(ids, sys, l, k)| && Cands(ids, sys, l, k)[i].Upsert?
    ensures i < |RawIds(l, k)| && Canon(ids, k)(RawIds(l, k)[i]) == Some(Cands(ids, sys, l, k)[i].rec.uuid)
  {}

  /** The node a record names is that of a listed resource. */
  lemma CandNode(ids: IdScheme, sys: string, l: Lists, k: Kind, i: nat)
    requires i < |Cands(ids, sys, l, k)| && Cands(ids, sys, l, k)[i].Upsert?
    ensures exists p :: p in Places(l) && NodeOf(p) == Cands(ids, sys, l, k)[i].rec.node
  {
    var p :=
      match k
      case K8sCluster => l.clusters[i].place
      case Server => l.hosts[i].place
      case MiddleSoftware => l.middlewares[i].place
      case EIP => EipPlace(l.eips[i].value)
      case ELB => ElbPlace(l.elbs[i].value);
    assert NodeOf(p) == Cands(ids, sys, l, k)[i].rec.node;
    PlaceListed(l, k, i, p);
  }

  lemma PlaceListed(l: Lists, k: Kind, i: nat, p: Place)
    requires match k
             case K8sCluster => i < |l.clusters| && p == l.clusters[i].place
             case Server => i < |l.hosts| && p == l.hosts[i].place
             case MiddleSoftware => i < |l.middlewares| && p == l.middlewares[i].place
             case EIP => i < |l.eips| && l.eips[i].Some? && p == EipPlace(l.eips[i].value)
             case ELB => i < |l.elbs| && l.elbs[i].Some? && p == ElbPlace(l.elbs[i].value)
             case _ => false
    ensures p in Places(l)
  {
    var h := seq(|l.hosts|, i requires 0 <= i < |l.hosts| => l.hosts[i].place);
    var m := seq(|l.middlewares|, i requires 0 <= i < |l.middlewares| => l.middlewares[i].place);
    var c := seq(|l.clusters|, i requires 0 <= i < |l.clusters| => l.clusters[i].place);
    match k
    case K8sCluster => assert c[i] in c;
    case Server => assert h[i] in h;
    case MiddleSoftware => assert m[i] in m;
    case EIP => assert l.eips[i] in l.eips;
    case ELB => assert l.elbs[i] in l.elbs;
  }

  /** The canonical uuids of the listed resources. */
  function KeepSet(ids: IdScheme, l: Lists, k: Kind): set<string> {
    set r | r in RawIds(l, k) && Canon(ids, k)(r).Some? :: Canon(ids, k)(r).value
  }

  /** The items of a kind that the list no longer accounts for. */
  function Leftover(ids: IdScheme, db: Store, k: Kind, sys: string, l: Lists): set<nat> {
    OrphansIn(ids, db, Query(k, sys, Any), KeepSet(ids, l, k), Types(k))
  }

  /** Every record's uuid is among those that reconciliation keeps. */
  predicate KeepsAll(keep: set<string>, rs: seq<Rec>) {
    forall i :: 0 <= i < |rs| ==> rs[i].uuid in keep
  }

  lemma KeepCovers(ids: IdScheme, sys: string, l: Lists, k: Kind, keep: set<string>)
    requires forall u :: u in keep <==> exists r :: r in RawIds(l, k) && Canon(ids, k)(r) == Some(u)
    ensures KeepsAll(keep, RecsOf(ids, sys, l, k))
  {
    var cands, rs := Cands(ids, sys, l, k), RecsOf(ids, sys, l, k);
    forall j | 0 <= j < |rs| ensures rs[j].uuid in keep {
      RecsMembers(cands, rs[j]);
      var i :| 0 <= i < |cands| && cands[i] == Upsert(rs[j]);
      CandUuid(ids, sys, l, k, i);
      assert RawIds(l, k)[i] in RawIds(l, k);
    }
  }

  /** The system has a CI for the node of every listed resource. */
  ghost predicate AllNodes(db: Store, sys: string, l: Lists) {
    forall p :: p in Places(l) ==> HasNode(db, sys, NodeOf(p))
  }

  lemma NodesForKind(ids: IdScheme, db: Store, sys: string, l: Lists, k: Kind)
    requires AllNodes(db, sys, l)
    ensures NodesKnown(db, sys, Cands(ids, sys, l, k))
  {
    var cands := Cands(ids, sys, l, k);
    forall c | c in cands && c.Upsert? ensures HasNode(db, sys, c.rec.node) {
      var i :| 0 <= i < |cands| && cands[i] == c;
      CandNode(ids, sys, l, k, i);
    }
  }

  /** Deleting orphans leaves settled records settled. */
  lemma SettledKept(ids: IdScheme, db: Store, kind: Kind, sys: string, rs: seq<Rec>, gone: set<nat>,
                    keep: set<string>, types: seq<string>)
    requires SoundAll(ids, kind, sys, rs) && SettledAll(db, kind, sys, rs) && KeepsAll(keep, rs)
    requires gone <= OrphansIn(ids, db, Query(kind, sys, Any), keep, types)
    ensures SettledAll(Cut(db, gone), kind, sys, rs)
  {
    forall i | 0 <= i < |rs| ensures Settled(Cut(db, gone), kind, sys, rs[i]) {
      SettledNotOrphan(ids, db, kind, sys, rs[i], keep, types);
      SettledAfterDeletes(ids, db, kind, sys, rs[i], gone);
    }
  }

  /** The upsert half of a kind's step. */
  method UpsertKind(s: Syncer, k: Kind, sys: string, l: Lists) returns (st: Tally, ghost log: Log)
    requires Inventory(k)
    modifies s.client
    ensures Did(s.ids, old(s.client.store), log, s.client.store, sys, k)
    ensures AllNodes(old(s.client.store), sys, l) ==> Every(log, GroundedIn(old(s.client.store)))
    ensures Every(log, Upserting(k, UuidsOf(RecsOf(s.ids, sys, l, k))))
    ensures st.added + st.updated + st.skipped + st.errors == Eligible(Cands(s.ids, sys, l, k)) && st.deleted == 0
    ensures st.errors == 0 && Harmony(old(s.client.store), k, RecsOf(s.ids, sys, l, k)) ==>
              SettledAll(s.client.store, k, sys, RecsOf(s.ids, sys, l, k))
    ensures SettledAll(old(s.client.store), k, sys, RecsOf(s.ids, sys, l, k)) ==>
              s.client.store == old(s.client.store) && st.added == 0 && st.updated == 0
    ensures s.client.Healthy() ==> (st.errors == 0 <==> NoneRejected(Cands(s.ids, sys, l, k)))
  {
    ghost var db := s.client.store;
    CandsSound(s.ids, sys, l, k);
    st, log := s.UpsertPass(k, sys, Cands(s.ids, sys, l, k));
    RecsSound(s.ids, sys, l, k);
    if AllNodes(db, sys, l) { NodesForKind(s.ids, db, sys, l, k); }
    if Harmony(db, k, RecsOf(s.ids, sys, l, k)) { PassSettles(s.ids, db, k, sys, RecsOf(s.ids, sys, l, k)); }
  }

  function Listed(l: Lists, k: Kind): bool { RawIds(l, k) != [] }

  /** What is left over depends on no column of the firewall step. */
  lemma LeftoverSame(ids: IdScheme, db: Store, post: Store, k: Kind, sys: string, l: Lists)
    requires AgreeOn(db, post, k)
    ensures Leftover(ids, post, k, sys, l) == Leftover(ids, db, k, sys, l)
  {
    hide Alike, CloudUuid, Sprint, Trim, KeepSet, Types;
    forall i | i in db.cis && i in post.cis && Alike(db.cis[i], post.cis[i])
      ensures forall k <- [Uuid, ResourceType, SystemId] :: Get(db.cis[i].row, k) == Get(post.cis[i].row, k)
      ensures db.cis[i].kind == post.cis[i].kind
    {
      AlikeKind(db.cis[i], post.cis[i]);
      AlikeColumn(db.cis[i], post.cis[i], Uuid);
      AlikeColumn(db.cis[i], post.cis[i], ResourceType);
      AlikeColumn(db.cis[i], post.cis[i], SystemId);
    }
  }

  lemma AlikeKind(a: Ci, b: Ci)
    requires Alike(a, b)
    ensures a.kind == b.kind
  {}

  lemma {:induction false} EveryWider(log: Log, k: Kind, us: set<string>, keep: set<string>)
    requires Every(log, Upserting(k, us)) && us <= keep
    ensures Every(log, Upserting(k, keep))
  {
    if log.Then? { EveryWider(log.prev, k, us, keep); }
  }

  lemma KeepSetCovers(ids: IdScheme, sys: string, l: Lists, k: Kind)
    ensures KeepsAll(KeepSet(ids, l, k), RecsOf(ids, sys, l, k))
    ensures UuidsOf(RecsOf(ids, sys, l, k)) <= KeepSet(ids, l, k)
  {
    hide Canon, RawIds, RecsOf;
    KeepCovers(ids, sys, l, k, KeepSet(ids, l, k));
  }

  /** Upserts of listed resources leave no more behind than there was. */
  lemma LeftoverUpserts(ids: IdScheme, db: Store, log: Log, mid: Store, k: Kind, sys: string, l: Lists)
    requires Inventory(k) && Did(ids, db, log, mid, sys, k)
    requires Every(log, Upserting(k, UuidsOf(RecsOf(ids, sys, l, k))))
    ensures Leftover(ids, mid, k, sys, l) <= Leftover(ids, db, k, sys, l)
  {
    hide KeepSet, RecsOf, Types, OrphansIn, UuidsOf, Every;
    KeepSetCovers(ids, sys, l, k);
    EveryWider(log, k, UuidsOf(RecsOf(ids, sys, l, k)), KeepSet(ids, l, k));
    OrphansRun(ids, db, log, k, sys, KeepSet(ids, l, k), Types(k));
  }

  /** An error-free sweep after that halves what there was. */
  lemma LeftoverHalves(ids: IdScheme, db: Store, mid: Store, post: Store, gone: set<nat>, k: Kind, sys: string,
                       l: Lists,
                       size: PageSize)
    requires Leftover(ids, mid, k, sys, l) <= Leftover(ids, db, k, sys, l)
    requires post == Cut(mid, gone) && Strays(ids, mid, k, sys, l, gone)
    ensures Leftover(ids, post, k, sys, l) <= Leftover(ids, db, k, sys, l)
    ensures SweepOf(ids, mid, post, k, sys, l, size) ==>
              2 * |Leftover(ids, post, k, sys, l)| <= |Leftover(ids, db, k, sys, l)|
  {
    hide KeepSet, Types, OrphansIn, Swept, ListTo;
    var q, keep := Query(k, sys, Any), KeepSet(ids, l, k);
    OrphansLater(ids, mid, gone, q, keep, Types(k));
    if SweepOf(ids, mid, post, k, sys, l, size) {
      OrphansHalve(ids, mid, post, q, size, keep, Types(k));
      Fewer(Leftover(ids, mid, k, sys, l), Leftover(ids, db, k, sys, l));
    }
  }

  predicate SweepOf(ids: IdScheme, mid: Store, post: Store, k: Kind, sys: string, l: Lists, size: PageSize) {
    Listing(post, Query(k, sys, Any)) == Swept(Listing(mid, Query(k, sys, Any)), size, 0, Leftover(ids, mid, k, sys, l))
  }

  lemma Fewer(a: set<nat>, b: set<nat>)
    requires a <= b
    ensures |a| <= |b|
  {
    assert b == a + (b - a);
  }

  /** The resources that items of a kind stand for, among items of the given types. */
  function Present(ids: IdScheme, db: Store, k: Kind, sys: string, types: seq<string>): set<string> {
    set i | i in db.cis && Hit(db.cis[i], Query(k, sys, Any)) && UuidOf(ids, db.cis[i]).Some? &&
            (types == [] || Trim(Sprint(Get(db.cis[i].row, ResourceType))) in types)
      :: UuidOf(ids, db.cis[i]).value
  }

  /** Once nothing is left over, items stand for listed resources only, and for every resource that
      has a settled record. */
  lemma NothingLeftOver(ids: IdScheme, db: Store, k: Kind, sys: string, l: Lists)
    ensures Leftover(ids, db, k, sys, l) == {} <==> Present(ids, db, k, sys, Types(k)) <= KeepSet(ids, l, k)
    ensures SettledAll(db, k, sys, RecsOf(ids, sys, l, k)) ==>
              UuidsOf(RecsOf(ids, sys, l, k)) <= Present(ids, db, k, sys, [])
  {
    hide KeepSet, Types, RecsOf, Settled, Sound, Lookup, OrphansIn, Present;
    OrphansAbsent(ids, db, k, sys, KeepSet(ids, l, k), Types(k));
    RecsSound(ids, sys, l, k);
    var rs := RecsOf(ids, sys, l, k);
    forall u | SettledAll(db, k, sys, rs) && u in UuidsOf(rs) ensures u in Present(ids, db, k, sys, []) {
      var i :| 0 <= i < |rs| && rs[i].uuid == u;
      SettledPresent(ids, db, k, sys, rs[i]);
    }
  }

  lemma OrphansAbsent(ids: IdScheme, db: Store, k: Kind, sys: string, keep: set<string>, types: seq<string>)
    ensures OrphansIn(ids, db, Query(k, sys, Any), keep, types) == {} <==> Present(ids, db, k, sys, types) <= keep
  {
    hide CloudUuid, Sprint, Trim;
    var bad, here := OrphansIn(ids, db, Query(k, sys, Any), keep, types), Present(ids, db, k, sys, types);
    forall i | i in bad ensures UuidOf(ids, db.cis[i]).value in here - keep {}
    forall u | u in here - keep ensures exists i :: i in bad {
      var i :| i in db.cis && Hit(db.cis[i], Query(k, sys, Any)) && UuidOf(ids, db.cis[i]) == Some(u) &&
               (types == [] || Trim(Sprint(Get(db.cis[i].row, ResourceType))) in types);
      assert i in bad;
    }
  }

  lemma SettledPresent(ids: IdScheme, db: Store, k: Kind, sys: string, r: Rec)
    requires Sound(ids, k, sys, r) && Settled(db, k, sys, r)
    ensures r.uuid in Present(ids, db, k, sys, [])
  {
    hide CloudUuid, Changed, Merge, MiddlewareUuid, CanonOf;
    SettledStands(ids, db, k, sys, r);
    var i := Lookup(db, k, sys, r).value;
    assert Hit(db.cis[i], Query(k, sys, Any)) && UuidOf(ids, db.cis[i]) == Some(r.uuid);
  }

  /** The reconciliation half of a kind's step, when anything was listed. */
  method SweepKind(s: Syncer, k: Kind, sys: string, l: Lists)
    returns (st: Tally, ghost drops: Log, ghost gone: set<nat>)
    requires Inventory(k) && Trimmed(sys)
    modifies s.client
    ensures Progress(s.ids, old(s.client.store), drops, s.client.store, sys, k, gone)
    ensures Strays(s.ids, old(s.client.store), k, sys, l, gone) && s.client.store == Cut(old(s.client.store), gone)
    ensures SettledAll(old(s.client.store), k, sys, RecsOf(s.ids, sys, l, k)) ==>
              SettledAll(s.client.store, k, sys, RecsOf(s.ids, sys, l, k))
    ensures st.added == 0 && st.updated == 0
    ensures st.errors == 0 && sys != "" && KeepSet(s.ids, l, k) != {} ==>
              SweepOf(s.ids, old(s.client.store), s.client.store, k, sys, l, s.client.pageSize)
    ensures s.client.Healthy() ==> st.errors == 0
  {
    hide Leftover, Swept, SettledAll, OrphansIn, KeepsAll, SoundAll, RecsOf, RawIds, Canon, Types, Strays, KeepSet,
      Progress, SweepOf, ListTo;
    ghost var mid := s.client.store;
    NoStrays(s.ids, mid, k, sys, l);
    if !Listed(l, k) {
      NotListed(s.ids, l, k);
      NothingDropped(s.ids, mid, sys, k, ZERO);
      return ZERO, Start, {};
    }
    var keep := UuidSet(RawIds(l, k), Canon(s.ids, k));
    KeepCovers(s.ids, sys, l, k, keep);
    RecsSound(s.ids, sys, l, k);
    st, drops, gone := s.Reconcile(k, sys, keep, Types(k));
    ghost var rs := RecsOf(s.ids, sys, l, k);
    if SettledAll(mid, k, sys, rs) { SettledKept(s.ids, mid, k, sys, rs, gone, keep, Types(k)); }
    AreStrays(s.ids, mid, s.client.store, k, sys, l, keep, gone, drops);
    SweepIs(s.ids, mid, s.client.store, k, sys, l, keep, s.client.pageSize);
  }

  /** A kind's step: the upsert pass and the reconciliation. */
  method SyncKind(s: Syncer, k: Kind, sys: string, l: Lists) returns (st: Tally, ghost log: Log, ghost gone: set<nat>)
    requires Inventory(k) && Trimmed(sys)
    modifies s.client
    ensures Did(s.ids, old(s.client.store), log, s.client.store, sys, k)
    ensures AllNodes(old(s.client.store), sys, l) ==> Every(log, GroundedIn(old(s.client.store)))
    ensures st.errors == 0 && Harmony(old(s.client.store), k, RecsOf(s.ids, sys, l, k)) ==>
              SettledAll(s.client.store, k, sys, RecsOf(s.ids, sys, l, k))
    ensures SettledAll(old(s.client.store), k, sys, RecsOf(s.ids, sys, l, k)) ==>
              && st.added == 0 && st.updated == 0 && SettledAll(s.client.store, k, sys, RecsOf(s.ids, sys, l, k))
              && s.client.store == Cut(old(s.client.store), gone) && Strays(s.ids, old(s.client.store), k, sys, l, gone)
    ensures Leftover(s.ids, s.client.store, k, sys, l) <= Leftover(s.ids, old(s.client.store), k, sys, l)
    ensures st.errors == 0 && sys != "" && KeepSet(s.ids, l, k) != {} ==>
              2 * |Leftover(s.ids, s.client.store, k, sys, l)| <= |Leftover(s.ids, old(s.client.store), k, sys, l)|
    ensures s.client.Healthy() ==> (st.errors == 0 <==> NoneRejected(Cands(s.ids, sys, l, k)))
  {
    hide Leftover, SweepOf, Every, UuidsOf, SettledAll, AllNodes, Harmony, Did, RecsOf, Strays, KeepSet, Progress, Cut;
    ghost var db := s.client.store;
    var swept;
    ghost var drops;
    st, log := UpsertKind(s, k, sys, l);
    ghost var mid := s.client.store;
    LeftoverUpserts(s.ids, db, log, mid, k, sys, l);
    swept, drops, gone := SweepKind(s, k, sys, l);
    st := Merged(st, swept);
    log := DropsAfter(s.ids, db, log, mid, drops, s.client.store, sys, k, gone);
    LeftoverHalves(s.ids, db, mid, s.client.store, gone, k, sys, l, s.client.pageSize);
  }

  lemma KeptSet(ids: IdScheme, l: Lists, k: Kind, keep: set<string>)
    requires forall u :: u in keep <==> exists r :: r in RawIds(l, k) && Canon(ids, k)(r) == Some(u)
    ensures keep == KeepSet(ids, l, k)
  {}

  /** The items are orphans with respect to the list. */
  predicate Strays(ids: IdScheme, db: Store, k: Kind, sys: string, l: Lists, gone: set<nat>) {
    gone <= Leftover(ids, db, k, sys, l)
  }

  lemma NoStrays(ids: IdScheme, db: Store, k: Kind, sys: string, l: Lists)
    ensures Strays(ids, db, k, sys, l, {}) && Cut(db, {}) == db
  {}

  lemma AreStrays(ids: IdScheme, db: Store, post: Store, k: Kind, sys: string, l: Lists, keep: set<string>,
                  gone: set<nat>, log: Log)
    requires forall u :: u in keep <==> exists r :: r in RawIds(l, k) && Canon(ids, k)(r) == Some(u)
    requires Progress(ids, db, log, post, sys, k, gone)
    requires gone <= OrphansIn(ids, db, Query(k, sys, Any), keep, Types(k))
    ensures Strays(ids, db, k, sys, l, gone) && post == Cut(db, gone)
  {
    hide OrphansIn, DidDrop, RawIds, Canon, Types;
    KeptSet(ids, l, k, keep);
  }

  lemma SweepIs(ids: IdScheme, mid: Store, post: Store, k: Kind, sys: string, l: Lists, keep: set<string>,
                size: PageSize)
    requires forall u :: u in keep <==> exists r :: r in RawIds(l, k) && Canon(ids, k)(r) == Some(u)
    ensures keep == KeepSet(ids, l, k)
    ensures SweepOf(ids, mid, post, k, sys, l, size) <==>
            Listing(post, Query(k, sys, Any)) ==
            Swept(Listing(mid, Query(k, sys, Any)), size, 0, OrphansIn(ids, mid, Query(k, sys, Any), keep, Types(k)))
  {
    hide OrphansIn, Swept, ListTo, Types, Canon, RawIds;
    KeptSet(ids, l, k, keep);
  }

  lemma NotListed(ids: IdScheme, l: Lists, k: Kind)
    requires !Listed(l, k)
    ensures KeepSet(ids, l, k) == {}
  {}

  lemma DropsAfter(ids: IdScheme, db: Store, log: Log, mid: Store, drops: Log, post: Store, sys: string, k: Kind,
                   gone: set<nat>)
    returns (all: Log)
    requires Did(ids, db, log, mid, sys, k) && Progress(ids, mid, drops, post, sys, k, gone)
    ensures Did(ids, db, all, post, sys, k)
    ensures Every(log, GroundedIn(db)) ==> Every(all, GroundedIn(db))
  {
    all := Append(log, drops);
    RunAppend(ids, db, log, drops);
    EveryAppend(log, drops, InSystem(sys));
    EveryAppend(log, drops, OfKind(k));
    EveryAppend(log, drops, GroundedIn(db));
    DropsGrounded(drops, db);
  }
}
