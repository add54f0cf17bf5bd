/** Every listed resource reaches the CMDB: from the cloud lists to the items, without the records in
    between. */
module Presence {
  import opened Text
  import opened Values
  import opened Rows
  import opened Remote
  import opened Ids
  import opened Names
  import opened Events
  import opened Safety
  import opened Records
  import opened Upsert
  import opened Sweep
  import opened Passes
  import opened Inventories

  const LOCATION := Attr("location")
  const CLOUD := Attr("cloud_type")

  /** The attributes with these texts in the two columns that say where the resource is. */
  function Placed(attrs: Attrs, cloud: string, location: string): Attrs {
    attrs[CLOUD := Str(cloud)][LOCATION := Str(location)]
  }

  function Unplaced(attrs: Attrs): Attrs { attrs - {LOCATION, CLOUD} }

  /** What hosts and clusters show of their attributes and their place. */
  function Described(attrs: Attrs, p: Place): Attrs {
    if Trim(p.region) == "" || RunsOn(p.provider, p.region, p.tag) then Unplaced(attrs)
    else Placed(attrs, Label(p.provider), Trim(p.region))
  }

  /** Middleware shows cloud and region in each other's columns. */
  function Swapped(m: Middleware): Attrs { Placed(m.attrs, m.place.region, Label(m.place.provider)) }

  function MiddlewareColumns(m: Middleware): (columns: Row)
    ensures ScalarRow(columns)
  {
    Swapped(m)[InstanceId := Str(Trim(m.instanceId))][ResourceType := Str(TypeName(m.mwType))]
  }

  function ClusterColumns(c: Cluster, uuid: string): (columns: Row)
    ensures ScalarRow(columns)
  {
    Described(c.attrs, c.place)[K8sUuid := Str(uuid)]
  }

  /** The record asks for these columns, under this identity. */
  predicate Bears(r: Rec, uuid: string, node: string, columns: Row) {
    r.uuid == uuid && r.node == node && forall k :: k in columns ==> Get(r.want, k) == columns[k]
  }

  ghost predicate Recorded(rs: seq<Rec>, uuid: string, node: string, columns: Row) {
    exists r {:trigger Bears(r, uuid, node, columns)} :: r in rs && Bears(r, uuid, node, columns)
  }

  // ---------- from the lists to the records ----------

  lemma Carried(ids: IdScheme, sys: string, l: Lists, k: Kind, i: nat)
    requires i < |Cands(ids, sys, l, k)| && Cands(ids, sys, l, k)[i].Upsert?
    ensures Cands(ids, sys, l, k)[i].rec in RecsOf(ids, sys, l, k)
  {
    hide Cands;
    var cands := Cands(ids, sys, l, k);
    RecsMembers(cands, cands[i].rec);
    assert cands[i] in cands;
  }

  lemma CarriedBy(ids: IdScheme, sys: string, l: Lists, k: Kind, r: Rec) returns (i: nat)
    requires r in RecsOf(ids, sys, l, k)
    ensures i < |Cands(ids, sys, l, k)| && Cands(ids, sys, l, k)[i] == Upsert(r)
  {
    hide Cands;
    var cands := Cands(ids, sys, l, k);
    RecsMembers(cands, r);
    i :| 0 <= i < |cands| && cands[i] == Upsert(r);
  }

  lemma LocatedDescribes(attrs: Attrs, p: Place)
    ensures forall k :: k in Described(attrs, p) ==> Get(LocatedAt(attrs, p), k) == Described(attrs, p)[k]
  {
    hide CloudLocation, NodeOf, RunsOn, Trim, Label;
    if Trim(p.region) != "" { LocatedShows(attrs, p); }
  }

  lemma HostBears(ids: IdScheme, sys: string, h: Host)
    requires h.ip != "" && CloudUuid(ids, h.instanceId).Some?
    ensures var c := HostCand(ids, sys, h);
            c.Upsert? && Bears(c.rec, CloudUuid(ids, h.instanceId).value, NodeOf(h.place), Described(h.attrs, h.place))
  {
    hide LocatedAt, Described, CloudUuid, NodeOf;
    LocatedDescribes(h.attrs, h.place);
  }

  /** A record for every host that has an address and a uuid, and for no other. */
  lemma HostsRecorded(ids: IdScheme, sys: string, l: Lists)
    ensures forall h :: h in l.hosts && h.ip != "" && CloudUuid(ids, h.instanceId).Some? ==>
              Recorded(RecsOf(ids, sys, l, Server), CloudUuid(ids, h.instanceId).value, NodeOf(h.place),
                       Described(h.attrs, h.place))
    ensures forall r :: r in RecsOf(ids, sys, l, Server) ==>
              exists h :: h in l.hosts && h.ip != "" && CloudUuid(ids, h.instanceId) == Some(r.uuid)
                          && NodeOf(h.place) == r.node && h.instanceId == r.ref
  {
    hide HostCand, Described, Bears, CloudUuid, NodeOf, RecsOf;
    forall h | h in l.hosts && h.ip != "" && CloudUuid(ids, h.instanceId).Some?
      ensures Recorded(RecsOf(ids, sys, l, Server), CloudUuid(ids, h.instanceId).value, NodeOf(h.place),
                       Described(h.attrs, h.place))
    {
      var i :| 0 <= i < |l.hosts| && l.hosts[i] == h;
      HostBears(ids, sys, h);
      assert Cands(ids, sys, l, Server)[i] == HostCand(ids, sys, h);
      Carried(ids, sys, l, Server, i);
    }
    forall r | r in RecsOf(ids, sys, l, Server)
      ensures exists h :: h in l.hosts && h.ip != "" && CloudUuid(ids, h.instanceId) == Some(r.uuid)
                          && NodeOf(h.place) == r.node && h.instanceId == r.ref
    {
      var i := CarriedBy(ids, sys, l, Server, r);
      HostFrom(ids, sys, l.hosts[i], r);
    }
  }

  lemma HostFrom(ids: IdScheme, sys: string, h: Host, r: Rec)
    requires HostCand(ids, sys, h) == Upsert(r)
    ensures h.ip != "" && CloudUuid(ids, h.instanceId) == Some(r.uuid) && NodeOf(h.place) == r.node
    ensures h.instanceId == r.ref
  {
    hide CloudUuid, NodeOf, LocatedAt;
  }

  lemma ClusterBears(ids: IdScheme, sys: string, c: Cluster)
    requires c.name != "" && CloudUuid(ids, c.uid).Some?
    ensures var d, u := ClusterCand(ids, sys, c), CloudUuid(ids, c.uid).value;
            d.Upsert? && Bears(d.rec, u, NodeOf(c.place), ClusterColumns(c, u))
  {
    hide LocatedAt, Described, CloudUuid, NodeOf;
    LocatedDescribes(c.attrs, c.place);
  }

  lemma ClusterFrom(ids: IdScheme, sys: string, c: Cluster, r: Rec)
    requires ClusterCand(ids, sys, c) == Upsert(r)
    ensures c.name != "" && CloudUuid(ids, c.uid) == Some(r.uuid) && NodeOf(c.place) == r.node && c.uid == r.ref
  {
    hide CloudUuid, NodeOf, LocatedAt;
  }

  /** A record for every cluster that has a name and a uuid, and for no other. */
  lemma ClustersRecorded(ids: IdScheme, sys: string, l: Lists)
    ensures forall c :: c in l.clusters && c.name != "" && CloudUuid(ids, c.uid).Some? ==>
              Recorded(RecsOf(ids, sys, l, K8sCluster), CloudUuid(ids, c.uid).value, NodeOf(c.place),
                       ClusterColumns(c, CloudUuid(ids, c.uid).value))
    ensures forall r :: r in RecsOf(ids, sys, l, K8sCluster) ==>
              exists c :: c in l.clusters && c.name != "" && CloudUuid(ids, c.uid) == Some(r.uuid)
                          && NodeOf(c.place) == r.node && c.uid == r.ref
  {
    hide ClusterCand, ClusterColumns, Bears, CloudUuid, NodeOf, RecsOf;
    forall c | c in l.clusters && c.name != "" && CloudUuid(ids, c.uid).Some?
      ensures Recorded(RecsOf(ids, sys, l, K8sCluster), CloudUuid(ids, c.uid).value, NodeOf(c.place),
                       ClusterColumns(c, CloudUuid(ids, c.uid).value))
    {
      var i :| 0 <= i < |l.clusters| && l.clusters[i] == c;
      ClusterBears(ids, sys, c);
      assert Cands(ids, sys, l, K8sCluster)[i] == ClusterCand(ids, sys, c);
      Carried(ids, sys, l, K8sCluster, i);
    }
    forall r | r in RecsOf(ids, sys, l, K8sCluster)
      ensures exists c :: c in l.clusters && c.name != "" && CloudUuid(ids, c.uid) == Some(r.uuid)
                          && NodeOf(c.place) == r.node && c.uid == r.ref
    {
      var i := CarriedBy(ids, sys, l, K8sCluster, r);
      ClusterFrom(ids, sys, l.clusters[i], r);
    }
  }

  lemma SwappedCarried(m: Middleware, k: Field)
    requires k in Swapped(m)
    ensures Get(Located(m.attrs, m.place.region, Label(m.place.provider)), k) == Swapped(m)[k]
  {
    hide Label;
  }

  lemma MiddlewareWants(m: Middleware, want: Row, w: Row)
    requires want == Located(m.attrs, m.place.region, Label(m.place.provider)) + w && forall k :: k in w ==> !k.Attr?
    requires Get(w, InstanceId) == Str(Trim(m.instanceId)) && Get(w, ResourceType) == Str(TypeName(m.mwType))
    ensures forall k :: k in MiddlewareColumns(m) ==> Get(want, k) == MiddlewareColumns(m)[k]
  {
    hide Label, TypeName, Trim, Swapped, Located;
    forall k | k in MiddlewareColumns(m) ensures Get(want, k) == MiddlewareColumns(m)[k] {
      if k in Swapped(m) { SwappedCarried(m, k); }
    }
  }

  function MiddlewareIdentity(ids: IdScheme, m: Middleware): Row
    requires Inked(m.instanceId)
  {
    map[NodeName := Str(NodeOf(m.place)), Uuid := Str(MiddlewareUuid(ids, m.instanceId).value),
        InstanceId := Str(Trim(m.instanceId)), ResourceType := Str(TypeName(m.mwType))]
  }

  lemma MiddlewareAsks(ids: IdScheme, sys: string, m: Middleware)
    requires m.name != "" && Inked(m.instanceId)
    ensures var d := MiddlewareCand(ids, sys, m);
            && d.Upsert? && d.rec.inst == Some(Trim(m.instanceId)) && d.rec.node == NodeOf(m.place)
            && d.rec.uuid == MiddlewareUuid(ids, m.instanceId).value
            && d.rec.want == Located(m.attrs, m.place.region, Label(m.place.provider)) + MiddlewareIdentity(ids, m)
  {
    hide NodeOf, Label, TypeName, Inked, MiddlewareUuid, Trim, Located;
    SameMiddleware(ids, m.instanceId);
  }

  lemma MiddlewareBears(ids: IdScheme, sys: string, m: Middleware)
    requires m.name != "" && Inked(m.instanceId)
    ensures var d := MiddlewareCand(ids, sys, m);
            && d.Upsert? && d.rec.inst == Some(Trim(m.instanceId))
            && Bears(d.rec, MiddlewareUuid(ids, m.instanceId).value, NodeOf(m.place), MiddlewareColumns(m))
  {
    hide MiddlewareCand, NodeOf, Label, TypeName, Inked, MiddlewareUuid, Trim, MiddlewareColumns, Located;
    MiddlewareAsks(ids, sys, m);
    MiddlewareWants(m, MiddlewareCand(ids, sys, m).rec.want, MiddlewareIdentity(ids, m));
  }

  lemma SameMiddleware(ids: IdScheme, raw: string)
    ensures MiddlewareUuid(ids, Trim(raw)) == MiddlewareUuid(ids, raw)
  {
    assert Trim(Trim(raw)) == Trim(raw);
  }

  lemma MiddlewareFrom(ids: IdScheme, sys: string, m: Middleware, r: Rec)
    requires MiddlewareCand(ids, sys, m) == Upsert(r)
    ensures m.name != "" && Inked(m.instanceId) && MiddlewareUuid(ids, m.instanceId) == Some(r.uuid)
    ensures NodeOf(m.place) == r.node && r.inst == Some(r.ref) == Some(Trim(m.instanceId))
  {
    hide NodeOf, Located, Inked;
    SameMiddleware(ids, m.instanceId);
  }

  /** A record for every middleware instance that has a name and an instance id, and for no other. */
  lemma MiddlewareRecorded(ids: IdScheme, sys: string, l: Lists)
    ensures forall m :: m in l.middlewares && m.name != "" && Inked(m.instanceId) ==>
              Recorded(RecsOf(ids, sys, l, MiddleSoftware), MiddlewareUuid(ids, m.instanceId).value, NodeOf(m.place),
                       MiddlewareColumns(m))
    ensures forall r :: r in RecsOf(ids, sys, l, MiddleSoftware) ==>
              exists m :: m in l.middlewares && m.name != "" && r.inst == Some(r.ref) == Some(Trim(m.instanceId))
                          && MiddlewareUuid(ids, m.instanceId) == Some(r.uuid) && NodeOf(m.place) == r.node
  {
    hide MiddlewareCand, MiddlewareColumns, Bears, MiddlewareUuid, NodeOf, RecsOf;
    forall m | m in l.middlewares && m.name != "" && Inked(m.instanceId)
      ensures Recorded(RecsOf(ids, sys, l, MiddleSoftware), MiddlewareUuid(ids, m.instanceId).value, NodeOf(m.place),
                       MiddlewareColumns(m))
    {
      var i :| 0 <= i < |l.middlewares| && l.middlewares[i] == m;
      MiddlewareBears(ids, sys, m);
      assert Cands(ids, sys, l, MiddleSoftware)[i] == MiddlewareCand(ids, sys, m);
      Carried(ids, sys, l, MiddleSoftware, i);
    }
    forall r | r in RecsOf(ids, sys, l, MiddleSoftware)
      ensures exists m :: m in l.middlewares && m.name != "" && r.inst == Some(r.ref) == Some(Trim(m.instanceId))
                          && MiddlewareUuid(ids, m.instanceId) == Some(r.uuid) && NodeOf(m.place) == r.node
    {
      var i := CarriedBy(ids, sys, l, MiddleSoftware, r);
      MiddlewareFrom(ids, sys, l.middlewares[i], r);
    }
  }

  lemma EipBears(ids: IdScheme, sys: string, e: Eip)
    requires CloudUuid(ids, e.id).Some?
    ensures var d := EipCand(ids, sys, Some(e));
            d.Upsert? && Bears(d.rec, CloudUuid(ids, e.id).value, NodeOf(EipPlace(e)), e.attrs)
  {
    hide NodeOf, EipPlace, Trim;
    assert forall k :: k in e.attrs ==> k.Attr?;
  }

  lemma EipFrom(ids: IdScheme, sys: string, e: Option<Eip>, r: Rec)
    requires EipCand(ids, sys, e) == Upsert(r)
    ensures e.Some? && CloudUuid(ids, e.value.id) == Some(r.uuid) && NodeOf(EipPlace(e.value)) == r.node
    ensures e.value.id == r.ref
  {
    hide CloudUuid, NodeOf, EipPlace, Trim;
  }

  /** A record for every EIP whose id is a uuid, and for no other. */
  lemma EipsRecorded(ids: IdScheme, sys: string, l: Lists)
    ensures forall e :: Some(e) in l.eips && CloudUuid(ids, e.id).Some? ==>
              Recorded(RecsOf(ids, sys, l, EIP), CloudUuid(ids, e.id).value, NodeOf(EipPlace(e)), e.attrs)
    ensures forall r :: r in RecsOf(ids, sys, l, EIP) ==>
              exists e :: Some(e) in l.eips && CloudUuid(ids, e.id) == Some(r.uuid) && NodeOf(EipPlace(e)) == r.node
                          && e.id == r.ref
  {
    hide EipCand, EipPlace, Bears, CloudUuid, NodeOf, RecsOf;
    forall e | Some(e) in l.eips && CloudUuid(ids, e.id).Some?
      ensures Recorded(RecsOf(ids, sys, l, EIP), CloudUuid(ids, e.id).value, NodeOf(EipPlace(e)), e.attrs)
    {
      var i :| 0 <= i < |l.eips| && l.eips[i] == Some(e);
      EipBears(ids, sys, e);
      assert Cands(ids, sys, l, EIP)[i] == EipCand(ids, sys, Some(e));
      Carried(ids, sys, l, EIP, i);
    }
    forall r | r in RecsOf(ids, sys, l, EIP)
      ensures exists e :: Some(e) in l.eips && CloudUuid(ids, e.id) == Some(r.uuid) && NodeOf(EipPlace(e)) == r.node
                          && e.id == r.ref
    {
      var i := CarriedBy(ids, sys, l, EIP, r);
      EipFrom(ids, sys, l.eips[i], r);
      assert l.eips[i] == Some(l.eips[i].value);
    }
  }

  lemma ElbBears(ids: IdScheme, sys: string, e: Elb)
    requires CloudUuid(ids, e.id).Some?
    ensures var d := ElbCand(ids, sys, Some(e));
            d.Upsert? && Bears(d.rec, CloudUuid(ids, e.id).value, NodeOf(ElbPlace(e)), e.attrs)
  {
    hide NodeOf, ElbPlace, Trim;
    assert forall k :: k in e.attrs ==> k.Attr?;
  }

  lemma ElbFrom(ids: IdScheme, sys: string, e: Option<Elb>, r: Rec)
    requires ElbCand(ids, sys, e) == Upsert(r)
    ensures e.Some? && CloudUuid(ids, e.value.id) == Some(r.uuid) && NodeOf(ElbPlace(e.value)) == r.node
    ensures e.value.id == r.ref
  {
    hide CloudUuid, NodeOf, ElbPlace, Trim;
  }

  /** A record for every load balancer whose id is a uuid, and for no other. */
  lemma ElbsRecorded(ids: IdScheme, sys: string, l: Lists)
    ensures forall e :: Some(e) in l.elbs && CloudUuid(ids, e.id).Some? ==>
              Recorded(RecsOf(ids, sys, l, ELB), CloudUuid(ids, e.id).value, NodeOf(ElbPlace(e)), e.attrs)
    ensures forall r :: r in RecsOf(ids, sys, l, ELB) ==>
              exists e :: Some(e) in l.elbs && CloudUuid(ids, e.id) == Some(r.uuid) && NodeOf(ElbPlace(e)) == r.node
                          && e.id == r.ref
  {
    hide ElbCand, ElbPlace, Bears, CloudUuid, NodeOf, RecsOf;
    forall e | Some(e) in l.elbs && CloudUuid(ids, e.id).Some?
      ensures Recorded(RecsOf(ids, sys, l, ELB), CloudUuid(ids, e.id).value, NodeOf(ElbPlace(e)), e.attrs)
    {
      var i :| 0 <= i < |l.elbs| && l.elbs[i] == Some(e);
      ElbBears(ids, sys, e);
      assert Cands(ids, sys, l, ELB)[i] == ElbCand(ids, sys, Some(e));
      Carried(ids, sys, l, ELB, i);
    }
    forall r | r in RecsOf(ids, sys, l, ELB)
      ensures exists e :: Some(e) in l.elbs && CloudUuid(ids, e.id) == Some(r.uuid) && NodeOf(ElbPlace(e)) == r.node
                          && e.id == r.ref
    {
      var i := CarriedBy(ids, sys, l, ELB, r);
      ElbFrom(ids, sys, l.elbs[i], r);
      assert l.elbs[i] == Some(l.elbs[i].value);
    }
  }

  // ---------- resources that cannot be identified ----------

  /** Every listed resource of the kind that is not passed over has a uuid or, for middleware, an
      instance id. */
  ghost predicate Identified(ids: IdScheme, l: Lists, k: Kind) {
    match k
    case Server => forall h :: h in l.hosts ==> h.ip == "" || CloudUuid(ids, h.instanceId).Some?
    case K8sCluster => forall c :: c in l.clusters ==> c.name == "" || CloudUuid(ids, c.uid).Some?
    case MiddleSoftware => forall m :: m in l.middlewares ==> m.name == "" || Inked(m.instanceId)
    case EIP => forall e :: Some(e) in l.eips ==> Trim(e.id) == "" || CloudUuid(ids, e.id).Some?
    case ELB => forall e :: Some(e) in l.elbs ==> Trim(e.id) == "" || CloudUuid(ids, e.id).Some?
    case _ => true
  }

  lemma RejectedAt(ids: IdScheme, sys: string, l: Lists, k: Kind, i: nat)
    requires i < |Cands(ids, sys, l, k)|
    ensures Cands(ids, sys, l, k)[i].Reject? <==>
            match k
            case Server => l.hosts[i].ip != "" && CloudUuid(ids, l.hosts[i].instanceId).None?
            case K8sCluster => l.clusters[i].name != "" && CloudUuid(ids, l.clusters[i].uid).None?
            case MiddleSoftware => l.middlewares[i].name != "" && !Inked(l.middlewares[i].instanceId)
            case EIP =>
              l.eips[i].Some? && Trim(l.eips[i].value.id) != "" && CloudUuid(ids, l.eips[i].value.id).None?
            case ELB =>
              l.elbs[i].Some? && Trim(l.elbs[i].value.id) != "" && CloudUuid(ids, l.elbs[i].value.id).None?
            case _ => false
  {
    hide CloudUuid, NodeOf, EipPlace, ElbPlace, LocatedAt, Located, Inked;
  }

  /** A pass notes an error for exactly the others, as long as no call fails. */
  lemma NoneRejectedIff(ids: IdScheme, sys: string, l: Lists, k: Kind)
    ensures NoneRejected(Cands(ids, sys, l, k)) <==> Identified(ids, l, k)
  {
    hide CloudUuid, Inked, Trim, HostCand, ClusterCand, MiddlewareCand, EipCand, ElbCand;
    var cands := Cands(ids, sys, l, k);
    forall i | 0 <= i < |cands| && Identified(ids, l, k) ensures !cands[i].Reject? {
      RejectedAt(ids, sys, l, k, i);
      if k.EIP? && l.eips[i].Some? { assert Some(l.eips[i].value) in l.eips; }
      if k.ELB? && l.elbs[i].Some? { assert Some(l.elbs[i].value) in l.elbs; }
    }
    if NoneRejected(cands) {
      forall i | 0 <= i < |cands| ensures !cands[i].Reject? { assert cands[i] in cands; }
      RejectedNowhere(ids, sys, l, k);
    }
  }

  lemma RejectedNowhere(ids: IdScheme, sys: string, l: Lists, k: Kind)
    requires forall i :: 0 <= i < |Cands(ids, sys, l, k)| ==> !Cands(ids, sys, l, k)[i].Reject?
    ensures Identified(ids, l, k)
  {
    hide CloudUuid, Inked, Trim, HostCand, ClusterCand, MiddlewareCand, EipCand, ElbCand;
    forall i | 0 <= i < |Cands(ids, sys, l, k)| { RejectedAt(ids, sys, l, k, i); }
    match k
    case Server =>
      forall h | h in l.hosts ensures h.ip == "" || CloudUuid(ids, h.instanceId).Some? {
        var i :| 0 <= i < |l.hosts| && l.hosts[i] == h;
        assert !Cands(ids, sys, l, k)[i].Reject?;
      }
    case K8sCluster =>
      forall c | c in l.clusters ensures c.name == "" || CloudUuid(ids, c.uid).Some? {
        var i :| 0 <= i < |l.clusters| && l.clusters[i] == c;
        assert !Cands(ids, sys, l, k)[i].Reject?;
      }
    case MiddleSoftware =>
      forall m | m in l.middlewares ensures m.name == "" || Inked(m.instanceId) {
        var i :| 0 <= i < |l.middlewares| && l.middlewares[i] == m;
        assert !Cands(ids, sys, l, k)[i].Reject?;
      }
    case EIP =>
      forall e | Some(e) in l.eips ensures Trim(e.id) == "" || CloudUuid(ids, e.id).Some? {
        var i :| 0 <= i < |l.eips| && l.eips[i] == Some(e);
        assert !Cands(ids, sys, l, k)[i].Reject?;
      }
    case ELB =>
      forall e | Some(e) in l.elbs ensures Trim(e.id) == "" || CloudUuid(ids, e.id).Some? {
        var i :| 0 <= i < |l.elbs| && l.elbs[i] == Some(e);
        assert !Cands(ids, sys, l, k)[i].Reject?;
      }
    case _ =>
  }

  // ---------- from the records to the items ----------

  /** The item shows the identity, the node and every filled column, up to change detection. */
  predicate Shows(row: Row, uuid: string, node: string, columns: Row) {
    && CompareStr(Get(row, Uuid)) == uuid && CompareStr(Get(row, NodeName)) == node
    && forall k :: k in columns && CompareStr(columns[k]) != "" ==> CompareStr(Get(row, k)) == CompareStr(columns[k])
  }

  /** The resource has such an item. */
  ghost predicate Shown(db: Store, kind: Kind, sys: string, uuid: string, node: string, columns: Row) {
    exists i {:trigger db.cis[i]} ::
      i in db.cis && Hit(db.cis[i], Query(kind, sys, Any)) && Shows(db.cis[i].row, uuid, node, columns)
  }

  lemma SettledShows(ids: IdScheme, db: Store, kind: Kind, sys: string, r: Rec, uuid: string, node: string,
                     columns: Row)
    requires Sound(ids, kind, sys, r) && Settled(db, kind, sys, r) && Bears(r, uuid, node, columns)
    requires Trimmed(node) && ScalarRow(columns)
    ensures Shown(db, kind, sys, uuid, node, columns)
  {
    hide Lookup, MiddlewareUuid, CanonOf, Trimmed, Merge;
    var i := Lookup(db, kind, sys, r).value;
    SettledColumns(ids, db, kind, sys, r, i);
    SettledColumn(db, kind, sys, r, NodeName, node);
    FoundHits(db, kind, sys, r, i);
    forall k | k in columns && CompareStr(columns[k]) != ""
      ensures CompareStr(Get(db.cis[i].row, k)) == CompareStr(columns[k])
    {
      FilledShows(db, kind, sys, r, i, k, columns[k]);
    }
  }

  lemma FoundHits(db: Store, kind: Kind, sys: string, r: Rec, i: nat)
    requires Lookup(db, kind, sys, r) == Some(i)
    ensures i in db.cis && Hit(db.cis[i], Query(kind, sys, Any))
  {}

  lemma FilledShows(db: Store, kind: Kind, sys: string, r: Rec, i: nat, k: Field, v: Value)
    requires Settled(db, kind, sys, r) && Lookup(db, kind, sys, r) == Some(i)
    requires Get(r.want, k) == v && Scalar(v) && CompareStr(v) != ""
    ensures i in db.cis && CompareStr(Get(db.cis[i].row, k)) == CompareStr(v)
  {
    FoundHits(db, kind, sys, r, i);
    hide Lookup, CompareStr;
    FlatValue(v);
    var row := db.cis[i].row;
    assert !Differs(Get(row, k), Merge(r.want, row)[k]);
  }

  lemma RecordedShown(ids: IdScheme, db: Store, sys: string, l: Lists, k: Kind, uuid: string, node: string,
                      columns: Row)
    requires SettledAll(db, k, sys, RecsOf(ids, sys, l, k)) && Recorded(RecsOf(ids, sys, l, k), uuid, node, columns)
    requires Trimmed(node) && ScalarRow(columns)
    ensures Shown(db, k, sys, uuid, node, columns)
  {
    hide Settled, Sound, RecsOf, Bears, Shown, ScalarRow, Trimmed;
    var r :| r in RecsOf(ids, sys, l, k) && Bears(r, uuid, node, columns);
    RecsSound(ids, sys, l, k);
    SettledMember(db, k, sys, RecsOf(ids, sys, l, k), r);
    SettledShows(ids, db, k, sys, r, uuid, node, columns);
  }

  // ---------- from the lists to the items ----------

  ghost predicate HostsShown(ids: IdScheme, db: Store, sys: string, l: Lists) {
    forall h :: h in l.hosts && h.ip != "" && CloudUuid(ids, h.instanceId).Some? ==>
      Shown(db, Server, sys, CloudUuid(ids, h.instanceId).value, NodeOf(h.place), Described(h.attrs, h.place))
  }

  ghost predicate ClustersShown(ids: IdScheme, db: Store, sys: string, l: Lists) {
    forall c :: c in l.clusters && c.name != "" && CloudUuid(ids, c.uid).Some? ==>
      var u := CloudUuid(ids, c.uid).value;
      Shown(db, K8sCluster, sys, u, NodeOf(c.place), ClusterColumns(c, u))
  }

  ghost predicate MiddlewareShown(ids: IdScheme, db: Store, sys: string, l: Lists) {
    forall m :: m in l.middlewares && m.name != "" && Inked(m.instanceId) ==>
      Shown(db, MiddleSoftware, sys, MiddlewareUuid(ids, m.instanceId).value, NodeOf(m.place), MiddlewareColumns(m))
  }

  ghost predicate EipsShown(ids: IdScheme, db: Store, sys: string, l: Lists) {
    forall e :: Some(e) in l.eips && CloudUuid(ids, e.id).Some? ==>
      Shown(db, EIP, sys, CloudUuid(ids, e.id).value, NodeOf(EipPlace(e)), e.attrs)
  }

  ghost predicate ElbsShown(ids: IdScheme, db: Store, sys: string, l: Lists) {
    forall e :: Some(e) in l.elbs && CloudUuid(ids, e.id).Some? ==>
      Shown(db, ELB, sys, CloudUuid(ids, e.id).value, NodeOf(ElbPlace(e)), e.attrs)
  }

  /** Every listed resource that the CMDB can identify has an item that shows its node and its
      columns. */
  ghost predicate AllShown(ids: IdScheme, db: Store, sys: string, l: Lists) {
    && HostsShown(ids, db, sys, l) && ClustersShown(ids, db, sys, l) && MiddlewareShown(ids, db, sys, l)
    && EipsShown(ids, db, sys, l) && ElbsShown(ids, db, sys, l)
  }

  lemma NodesTrimmed(p: Place)
    ensures Trimmed(NodeOf(p))
  {
    EffectiveFacts(p.provider, p.region, p.tag);
  }

  lemma HostsAreShown(ids: IdScheme, db: Store, sys: string, l: Lists)
    requires SettledAll(db, Server, sys, RecsOf(ids, sys, l, Server))
    ensures HostsShown(ids, db, sys, l)
  {
    hide SettledAll, RecsOf, Recorded, Shown, Described, CloudUuid, NodeOf, Trimmed, Scalar;
    HostsRecorded(ids, sys, l);
    forall h | h in l.hosts && h.ip != "" && CloudUuid(ids, h.instanceId).Some?
      ensures Shown(db, Server, sys, CloudUuid(ids, h.instanceId).value, NodeOf(h.place), Described(h.attrs, h.place))
    {
      NodesTrimmed(h.place);
      RecordedShown(ids, db, sys, l, Server, CloudUuid(ids, h.instanceId).value, NodeOf(h.place),
                    Described(h.attrs, h.place));
    }
  }

  lemma ClustersAreShown(ids: IdScheme, db: Store, sys: string, l: Lists)
    requires SettledAll(db, K8sCluster, sys, RecsOf(ids, sys, l, K8sCluster))
    ensures ClustersShown(ids, db, sys, l)
  {
    hide SettledAll, RecsOf, Recorded, Shown, ClusterColumns, CloudUuid, NodeOf, Trimmed, Scalar;
    ClustersRecorded(ids, sys, l);
    forall c | c in l.clusters && c.name != "" && CloudUuid(ids, c.uid).Some?
      ensures var u := CloudUuid(ids, c.uid).value;
              Shown(db, K8sCluster, sys, u, NodeOf(c.place), ClusterColumns(c, u))
    {
      var u := CloudUuid(ids, c.uid).value;
      NodesTrimmed(c.place);
      RecordedShown(ids, db, sys, l, K8sCluster, u, NodeOf(c.place), ClusterColumns(c, u));
    }
  }

  lemma MiddlewareIsShown(ids: IdScheme, db: Store, sys: string, l: Lists)
    requires SettledAll(db, MiddleSoftware, sys, RecsOf(ids, sys, l, MiddleSoftware))
    ensures MiddlewareShown(ids, db, sys, l)
  {
    hide SettledAll, RecsOf, Recorded, Shown, MiddlewareColumns, MiddlewareUuid, NodeOf, Trimmed, Scalar, Inked;
    MiddlewareRecorded(ids, sys, l);
    forall m | m in l.middlewares && m.name != "" && Inked(m.instanceId)
      ensures Shown(db, MiddleSoftware, sys, MiddlewareUuid(ids, m.instanceId).value, NodeOf(m.place),
                    MiddlewareColumns(m))
    {
      NodesTrimmed(m.place);
      RecordedShown(ids, db, sys, l, MiddleSoftware, MiddlewareUuid(ids, m.instanceId).value, NodeOf(m.place),
                    MiddlewareColumns(m));
    }
  }

  lemma EipsAreShown(ids: IdScheme, db: Store, sys: string, l: Lists)
    requires SettledAll(db, EIP, sys, RecsOf(ids, sys, l, EIP))
    ensures EipsShown(ids, db, sys, l)
  {
    hide SettledAll, RecsOf, Recorded, Shown, CloudUuid, NodeOf, EipPlace, Trimmed, Scalar;
    EipsRecorded(ids, sys, l);
    forall e | Some(e) in l.eips && CloudUuid(ids, e.id).Some?
      ensures Shown(db, EIP, sys, CloudUuid(ids, e.id).value, NodeOf(EipPlace(e)), e.attrs)
    {
      NodesTrimmed(EipPlace(e));
      RecordedShown(ids, db, sys, l, EIP, CloudUuid(ids, e.id).value, NodeOf(EipPlace(e)), e.attrs);
    }
  }

  lemma ElbsAreShown(ids: IdScheme, db: Store, sys: string, l: Lists)
    requires SettledAll(db, ELB, sys, RecsOf(ids, sys, l, ELB))
    ensures ElbsShown(ids, db, sys, l)
  {
    hide SettledAll, RecsOf, Recorded, Shown, CloudUuid, NodeOf, ElbPlace, Trimmed, Scalar;
    ElbsRecorded(ids, sys, l);
    forall e | Some(e) in l.elbs && CloudUuid(ids, e.id).Some?
      ensures Shown(db, ELB, sys, CloudUuid(ids, e.id).value, NodeOf(ElbPlace(e)), e.attrs)
    {
      NodesTrimmed(ElbPlace(e));
      RecordedShown(ids, db, sys, l, ELB, CloudUuid(ids, e.id).value, NodeOf(ElbPlace(e)), e.attrs);
    }
  }

  /** Once the records of all kinds are settled, every listed resource is shown. */
  lemma SettledIsShown(ids: IdScheme, db: Store, sys: string, l: Lists)
    requires forall k :: Inventory(k) ==> SettledAll(db, k, sys, RecsOf(ids, sys, l, k))
    ensures AllShown(ids, db, sys, l)
  {
    hide SettledAll, RecsOf, HostsShown, ClustersShown, MiddlewareShown, EipsShown, ElbsShown;
    HostsAreShown(ids, db, sys, l);
    ClustersAreShown(ids, db, sys, l);
    MiddlewareIsShown(ids, db, sys, l);
    EipsAreShown(ids, db, sys, l);
    ElbsAreShown(ids, db, sys, l);
  }

  // ---------- what reconciliation deletes ----------

  /** Some listed resource of the kind has this uuid, whether it gets a record or not. */
  ghost predicate ListsUuid(ids: IdScheme, l: Lists, k: Kind, u: string) {
    match k
    case Server => exists h :: h in l.hosts && CloudUuid(ids, h.instanceId) == Some(u)
    case K8sCluster => exists c :: c in l.clusters && CloudUuid(ids, c.uid) == Some(u)
    case MiddleSoftware => exists m :: m in l.middlewares && MiddlewareUuid(ids, m.instanceId) == Some(u)
    case EIP => exists e :: Some(e) in l.eips && CloudUuid(ids, e.id) == Some(u)
    case ELB => exists e :: Some(e) in l.elbs && CloudUuid(ids, e.id) == Some(u)
    case _ => false
  }

  lemma NilHasNoUuid(ids: IdScheme)
    ensures CloudUuid(ids, "").None?
  {
    assert Trim("") == "";
  }

  lemma ListedAt(ids: IdScheme, l: Lists, k: Kind, u: string) returns (i: nat)
    requires ListsUuid(ids, l, k, u)
    ensures i < |RawIds(l, k)| && Canon(ids, k)(RawIds(l, k)[i]) == Some(u)
  {
    hide CloudUuid, MiddlewareUuid;
    match k
    case Server => i :| 0 <= i < |l.hosts| && CloudUuid(ids, l.hosts[i].instanceId) == Some(u);
    case K8sCluster => i :| 0 <= i < |l.clusters| && CloudUuid(ids, l.clusters[i].uid) == Some(u);
    case MiddleSoftware =>
      i :| 0 <= i < |l.middlewares| && MiddlewareUuid(ids, l.middlewares[i].instanceId) == Some(u);
    case EIP =>
      var e :| Some(e) in l.eips && CloudUuid(ids, e.id) == Some(u);
      i :| 0 <= i < |l.eips| && l.eips[i] == Some(e);
    case ELB =>
      var e :| Some(e) in l.elbs && CloudUuid(ids, e.id) == Some(u);
      i :| 0 <= i < |l.elbs| && l.elbs[i] == Some(e);
  }

  lemma ListedFrom(ids: IdScheme, l: Lists, k: Kind, u: string, i: nat)
    requires i < |RawIds(l, k)| && Canon(ids, k)(RawIds(l, k)[i]) == Some(u)
    ensures ListsUuid(ids, l, k, u)
  {
    NilHasNoUuid(ids);
    hide CloudUuid, MiddlewareUuid;
    match k
    case Server => assert l.hosts[i] in l.hosts;
    case K8sCluster => assert l.clusters[i] in l.clusters;
    case MiddleSoftware => assert l.middlewares[i] in l.middlewares;
    case EIP => assert Some(l.eips[i].value) in l.eips;
    case ELB => assert Some(l.elbs[i].value) in l.elbs;
  }

  /** Reconciliation keeps the uuids of the listed resources, and no others. */
  lemma KeptAre(ids: IdScheme, l: Lists, k: Kind, u: string)
    ensures u in KeepSet(ids, l, k) <==> ListsUuid(ids, l, k, u)
  {
    hide ListsUuid, RawIds, Canon;
    var raws := RawIds(l, k);
    if u in KeepSet(ids, l, k) {
      var r :| r in raws && Canon(ids, k)(r) == Some(u);
      var i :| 0 <= i < |raws| && raws[i] == r;
      ListedFrom(ids, l, k, u, i);
    }
    if ListsUuid(ids, l, k, u) {
      var i := ListedAt(ids, l, k, u);
      assert raws[i] in raws;
    }
  }

  /** What a kind's list leaves over: the items whose uuid parses and is that of no listed resource;
      of middleware only those of the three types that the lists come in. */
  lemma LeftoverAre(ids: IdScheme, db: Store, k: Kind, sys: string, l: Lists, i: nat)
    requires Inventory(k)
    ensures i in Leftover(ids, db, k, sys, l) <==>
            && i in db.cis && Hit(db.cis[i], Query(k, sys, Any))
            && (k.MiddleSoftware? ==> exists t :: TypeName(t) == Trim(Sprint(Get(db.cis[i].row, ResourceType))))
            && var u := CloudUuid(ids, Sprint(Get(db.cis[i].row, Uuid)));
            && u.Some? && !ListsUuid(ids, l, k, u.value)
  {
    hide CloudUuid, KeepSet, ListsUuid, Trim, Sprint;
    if i in db.cis {
      var u, t := CloudUuid(ids, Sprint(Get(db.cis[i].row, Uuid))), Trim(Sprint(Get(db.cis[i].row, ResourceType)));
      if u.Some? { KeptAre(ids, l, k, u.value); }
      TypesAre(t);
    }
  }

  lemma TypesAre(t: string)
    ensures t in Types(MiddleSoftware) <==> exists k :: TypeName(k) == t
  {
    assert TypeName(RdsInstance) == "RDS_INS" && TypeName(DcsRedis) == "DCS_REDIS"
           && TypeName(DmsRocketMq) == "DMS_ROCKETMQ";
    assert t in Types(MiddleSoftware) <==> t == "RDS_INS" || t == "DCS_REDIS" || t == "DMS_ROCKETMQ";
  }

  /** A resource that an earlier run has shown is left over as soon as the lists drop its uuid. */
  lemma Retires(ids: IdScheme, db: Store, k: Kind, sys: string, l: Lists, u: string, node: string, columns: Row)
    requires Inventory(k) && Shown(db, k, sys, u, node, columns) && CanonOf(ids, u) && !ListsUuid(ids, l, k, u)
    requires k.MiddleSoftware? ==> exists t :: Get(columns, ResourceType) == Str(TypeName(t))
    ensures exists i :: i in Leftover(ids, db, k, sys, l) && UuidOf(ids, db.cis[i]) == Some(u)
  {
    hide Leftover, ListsUuid, Hit;
    var i :| i in db.cis && Hit(db.cis[i], Query(k, sys, Any)) && Shows(db.cis[i].row, u, node, columns);
    ShownUuid(ids, db.cis[i].row, u);
    LeftoverAre(ids, db, k, sys, l, i);
    if k.MiddleSoftware? {
      var t :| Get(columns, ResourceType) == Str(TypeName(t));
      TypeShown(t);
      assert Trim(Sprint(Get(db.cis[i].row, ResourceType))) == TypeName(t);
    }
  }

  lemma TypeShown(t: MwType)
    ensures CompareStr(Str(TypeName(t))) == TypeName(t) != ""
  {
    assert Trimmed(TypeName(t));
  }

  lemma ShownUuid(ids: IdScheme, row: Row, u: string)
    requires CompareStr(Get(row, Uuid)) == u && CanonOf(ids, u)
    ensures CloudUuid(ids, Sprint(Get(row, Uuid))) == Some(u)
  {
    assert Trim(u) == u;
  }
}
