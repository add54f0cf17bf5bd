/** Cloud inventory records, and how each kind becomes an upsert candidate, a key in the set of live
    uuids, and a system node. */
module Records {
  import opened Text
  import opened Values
  import opened Rows
  import opened Remote
  import opened Ids
  import opened Names
  import opened Events
  import opened Safety

  /** The descriptive columns of a record: scalars that identify nothing. */
  type Attrs = m: Row | (forall k :: k in m ==> k.Attr? && Scalar(m[k])) witness map[]

  /** Where a resource lives; its node name follows from it. */
  datatype Place = Place(provider: Provider, region: string, tag: string)

  function NodeOf(p: Place): (n: string)
    ensures Inked(n)
  {
    EffectiveFacts(p.provider, p.region, p.tag);
    Effective(p.provider, p.region, p.tag)
  }

  /** The three lists that middleware comes from; `buildMiddlewares` names their resource types. */
  datatype MwType = RdsInstance | DcsRedis | DmsRocketMq

  function TypeName(t: MwType): string {
    match t
    case RdsInstance => "RDS_INS"
    case DcsRedis => "DCS_REDIS"
    case DmsRocketMq => "DMS_ROCKETMQ"
  }

  datatype Host = Host(instanceId: string, ip: string, place: Place, attrs: Attrs)
  datatype Cluster = Cluster(uid: string, name: string, place: Place, attrs: Attrs)
  datatype Middleware = Middleware(instanceId: string, name: string, mwType: MwType, place: Place, attrs: Attrs)
  datatype Eip = Eip(id: string, ip: string, provider: string, region: string, tag: string, attrs: Attrs)
  datatype Elb = Elb(id: string, provider: string, region: string, tag: string, attrs: Attrs)

  /** `eipTenantProvider` and `elbTenantProvider`. */
  function TenantProvider(text: string): Provider {
    var t := Lower(Trim(text));
    if t == "ali" || t == "aliyun" then Ali
    else if t == "tencent" then Tencent
    else if t == "aws" then Aws
    else Huawei
  }

  function EipPlace(e: Eip): Place { Place(TenantProvider(e.provider), Trim(e.region), e.tag) }
  function ElbPlace(e: Elb): Place { Place(TenantProvider(e.provider), Trim(e.region), e.tag) }

  /** The node of an EIP or a load balancer starts with the cloud its provider text names, in any case
      and with any space around it; unnamed clouds read as Huawei's. */
  lemma TenantCloud(text: string, region: string, tag: string)
    ensures var t, n := Lower(Trim(text)), NodeOf(Place(TenantProvider(text), region, tag));
            && (t == "ali" || t == "aliyun" ==> HasPrefix(n, "阿里云")) && (t == "tencent" ==> HasPrefix(n, "腾讯云"))
            && (t == "aws" ==> HasPrefix(n, "AWS"))
            && (t !in ["ali", "aliyun", "tencent", "aws"] ==> HasPrefix(n, "华为云"))
  {
    hide Lower, Trim, Effective;
    var p := TenantProvider(text);
    EffectiveFacts(p, region, tag);
    CloudFirst(p, region, NodeOf(Place(p, region, tag)));
  }

  lemma CloudFirst(p: Provider, region: string, n: string)
    requires HasPrefix(n, Base(p, region))
    ensures HasPrefix(n, Label(p))
  {
    hide Label, Trim;
    assert HasPrefix(Base(p, region), Label(p));
    assert n[..|Label(p)|] == n[..|Base(p, region)|][..|Label(p)|];
  }

  const MAX_KEY := 128

  /** `EIPResourceKey`. */
  function EipKey(ids: IdScheme, eipId: string): string {
    var t := Trim(eipId);
    if t == "" then ""
    else if ids.parse(t).Some? then ids.parse(t).value
    else if |t| > MAX_KEY then t[..MAX_KEY]
    else t
  }

  /** What one loop turn of an upsert pass does with a record before any CMDB call. */
  datatype Cand = Ignore | Reject(ref: string, reason: string) | Upsert(rec: Rec)

  /** Columns extended by where the item is, in the CMDB's terms. */
  function Located(attrs: Attrs, cloud: string, location: string): Attrs {
    attrs[Attr("location") := Str(location)][Attr("cloud_type") := Str(cloud)]
  }

  function LocatedAt(attrs: Attrs, p: Place): Attrs {
    var (cloud, loc) := CloudLocation(NodeOf(p), Label(p.provider), p.region);
    Located(attrs, cloud, loc)
  }

  lemma PlaceSplits(p: Place)
    requires Trim(p.region) != ""
    ensures CloudLocation(NodeOf(p), Label(p.provider), p.region) == (Label(p.provider), Trim(p.region)) <==>
            !RunsOn(p.provider, p.region, p.tag)
  {
    SplitOfEffective(p.provider, p.region, p.tag);
    SameHint(NodeOf(p), p.region);
    SplitNamesCloud(NodeOf(p), Trim(p.region));
    hide SplitNode, RunsOn, NodeOf, Trim, Label;
  }

  /** Hosts and clusters show the cloud and region they come from, exactly unless their tag runs on
      from them. */
  lemma LocatedShows(attrs: Attrs, p: Place)
    requires Trim(p.region) != ""
    ensures Get(LocatedAt(attrs, p), Attr("cloud_type")) == Str(Label(p.provider)) &&
            Get(LocatedAt(attrs, p), Attr("location")) == Str(Trim(p.region)) <==>
            !RunsOn(p.provider, p.region, p.tag)
  {
    hide CloudLocation, RunsOn, NodeOf, Trim, Label, Scalar;
    PlaceSplits(p);
  }

  /** A record whose updates carry `columns + w` and whose creation adds `a`. */
  function Built(ref: string, uuid: string, inst: Option<string>, node: string, columns: Attrs, w: Row, a: Row): Rec {
    Rec(ref, uuid, inst, node, columns + w, columns + w + a)
  }

  function HostCand(ids: IdScheme, sys: string, h: Host): Cand {
    var id, node := CloudUuid(ids, h.instanceId), NodeOf(h.place);
    if h.ip == "" then Ignore
    else if id.None? then Reject(h.instanceId, "invalid ECS instance uuid")
    else Upsert(Built(h.instanceId, id.value, None, node, LocatedAt(h.attrs, h.place),
                      map[NodeName := Str(node)],
                      map[Uuid := Str(id.value), SystemId := Str(sys)]))
  }

  function ClusterCand(ids: IdScheme, sys: string, c: Cluster): Cand {
    var id, node := CloudUuid(ids, c.uid), NodeOf(c.place);
    if c.name == "" then Ignore
    else if id.None? then Reject(c.uid, "invalid cluster uuid")
    else Upsert(Built(c.uid, id.value, None, node, LocatedAt(c.attrs, c.place),
                      map[NodeName := Str(node), Uuid := Str(id.value), K8sUuid := Str(id.value), SystemId := Str(sys)],
                      map[]))
  }

  /** Middleware columns swap cloud and region, as the source does on purpose. */
  function MiddlewareCand(ids: IdScheme, sys: string, m: Middleware): Cand {
    var raw, node := Trim(m.instanceId), NodeOf(m.place);
    var id := MiddlewareUuid(ids, raw);
    if m.name == "" then Ignore
    else if raw == "" then Reject(m.name, "empty instance_id")
    else if id.None? then Reject(raw, "invalid middleware instance_id")
    else Upsert(Built(raw, id.value, Some(raw), node, Located(m.attrs, m.place.region, Label(m.place.provider)),
                      map[NodeName := Str(node), Uuid := Str(id.value), InstanceId := Str(raw),
                          ResourceType := Str(TypeName(m.mwType))],
                      map[SystemId := Str(sys)]))
  }

  function EipCand(ids: IdScheme, sys: string, e: Option<Eip>): Cand {
    if e.None? || Trim(e.value.id) == "" then Ignore
    else
      var id, node := CloudUuid(ids, e.value.id), NodeOf(EipPlace(e.value));
      if id.None? then Reject(e.value.id, "invalid EIP instance uuid")
      else Upsert(Built(e.value.id, id.value, None, node, e.value.attrs,
                        map[NodeName := Str(node)],
                        map[Uuid := Str(id.value), SystemId := Str(sys)]))
  }

  function ElbCand(ids: IdScheme, sys: string, e: Option<Elb>): Cand {
    if e.None? || Trim(e.value.id) == "" then Ignore
    else
      var id, node := CloudUuid(ids, e.value.id), NodeOf(ElbPlace(e.value));
      if id.None? then Reject(e.value.id, "invalid ELB instance uuid")
      else Upsert(Built(e.value.id, id.value, None, node, e.value.attrs,
                        map[NodeName := Str(node), Uuid := Str(id.value)],
                        map[SystemId := Str(sys)]))
  }

  ghost predicate SoundCand(ids: IdScheme, kind: Kind, sys: string, c: Cand) {
    c.Upsert? ==> Sound(ids, kind, sys, c.rec)
  }

  predicate Plain(r: Row) {
    forall k :: k in r ==> !k.Attr? && Scalar(r[k])
  }

  /** The three parts of a record do not hide one another. */
  lemma BuiltRows(columns: Attrs, w: Row, a: Row)
    requires Plain(w) && Plain(a) && w.Keys !! a.Keys
    ensures ScalarRow(columns + w + a)
    ensures forall k :: k in columns + w ==> k in columns + w + a && (columns + w + a)[k] == (columns + w)[k]
  {
    hide Scalar;
  }

  lemma BuiltColumn(columns: Attrs, w: Row, a: Row, k: Field)
    requires !k.Attr?
    ensures k in columns + w + a <==> k in w + a
    ensures Get(columns + w + a, k) == Get(w + a, k) && Get(columns + w, k) == Get(w, k)
  {}

  lemma BuiltSound(ids: IdScheme, kind: Kind, sys: string,
                   ref: string, uuid: string, inst: Option<string>, node: string, columns: Attrs, w: Row, a: Row)
    requires Inventory(kind) && CanonOf(ids, uuid) && Inked(node)
    requires Plain(w) && Plain(a) && w.Keys !! a.Keys && DomainName !in w + a
    requires Get(w + a, Uuid) == Str(uuid) && Get(w + a, SystemId) == Str(sys) && Get(w, NodeName) == Str(node)
    requires (kind.MiddleSoftware? <==> inst.Some?) && (InstanceId in w + a <==> inst.Some?)
    requires inst.Some? ==>
               && Inked(inst.value) && Trimmed(inst.value) && MiddlewareUuid(ids, inst.value) == Some(uuid)
               && Get(w, InstanceId) == Str(inst.value) && Get(w, Uuid) == Str(uuid)
    ensures Sound(ids, kind, sys, Built(ref, uuid, inst, node, columns, w, a))
  {
    hide Inked, Trimmed, CanonOf, MiddlewareUuid, Plain, ScalarRow, Get;
    BuiltRows(columns, w, a);
    forall k: Field | !k.Attr?
      ensures k in columns + w + a <==> k in w + a
      ensures Get(columns + w + a, k) == Get(w + a, k) && Get(columns + w, k) == Get(w, k)
    {
      BuiltColumn(columns, w, a, k);
    }
  }

  lemma BuiltHost(ids: IdScheme, sys: string, ref: string, u: string, node: string, columns: Attrs)
    requires CanonOf(ids, u) && Inked(node)
    ensures Sound(ids, Server, sys, Built(ref, u, None, node, columns,
                                          map[NodeName := Str(node)], map[Uuid := Str(u), SystemId := Str(sys)]))
  {
    BuiltSound(ids, Server, sys, ref, u, None, node, columns,
               map[NodeName := Str(node)], map[Uuid := Str(u), SystemId := Str(sys)]);
  }

  lemma HostSound(ids: IdScheme, sys: string, h: Host)
    ensures SoundCand(ids, Server, sys, HostCand(ids, sys, h))
  {
    var c := HostCand(ids, sys, h);
    if c.Upsert? {
      BuiltHost(ids, sys, h.instanceId, c.rec.uuid, NodeOf(h.place), LocatedAt(h.attrs, h.place));
    }
  }

  lemma BuiltCluster(ids: IdScheme, sys: string, ref: string, u: string, node: string, columns: Attrs)
    requires CanonOf(ids, u) && Inked(node)
    ensures Sound(ids, K8sCluster, sys,
                  Built(ref, u, None, node, columns,
                        map[NodeName := Str(node), Uuid := Str(u), K8sUuid := Str(u), SystemId := Str(sys)], map[]))
  {
    BuiltSound(ids, K8sCluster, sys, ref, u, None, node, columns,
               map[NodeName := Str(node), Uuid := Str(u), K8sUuid := Str(u), SystemId := Str(sys)], map[]);
  }

  lemma ClusterSound(ids: IdScheme, sys: string, c: Cluster)
    ensures SoundCand(ids, K8sCluster, sys, ClusterCand(ids, sys, c))
  {
    var d := ClusterCand(ids, sys, c);
    if d.Upsert? {
      BuiltCluster(ids, sys, c.uid, d.rec.uuid, NodeOf(c.place), LocatedAt(c.attrs, c.place));
    }
  }

  lemma BuiltMiddleware(ids: IdScheme, sys: string, raw: string, u: string, node: string, mwType: string,
                        columns: Attrs)
    requires CanonOf(ids, u) && Inked(node) && Inked(raw) && Trimmed(raw) && MiddlewareUuid(ids, raw) == Some(u)
    ensures Sound(ids, MiddleSoftware, sys,
                  Built(raw, u, Some(raw), node, columns,
                        map[NodeName := Str(node), Uuid := Str(u), InstanceId := Str(raw), ResourceType := Str(mwType)],
                        map[SystemId := Str(sys)]))
  {
    BuiltSound(ids, MiddleSoftware, sys, raw, u, Some(raw), node, columns,
               map[NodeName := Str(node), Uuid := Str(u), InstanceId := Str(raw), ResourceType := Str(mwType)],
               map[SystemId := Str(sys)]);
  }

  lemma MiddlewareSound(ids: IdScheme, sys: string, m: Middleware)
    ensures SoundCand(ids, MiddleSoftware, sys, MiddlewareCand(ids, sys, m))
  {
    var c := MiddlewareCand(ids, sys, m);
    if c.Upsert? {
      BuiltMiddleware(ids, sys, Trim(m.instanceId), c.rec.uuid, NodeOf(m.place), TypeName(m.mwType),
                      Located(m.attrs, m.place.region, Label(m.place.provider)));
    }
  }

  lemma EipSound(ids: IdScheme, sys: string, e: Option<Eip>)
    ensures SoundCand(ids, EIP, sys, EipCand(ids, sys, e))
  {
    hide NodeOf, EipPlace, Inked, Trim;
    if e.Some? && CloudUuid(ids, e.value.id).Some? {
      var u, node := CloudUuid(ids, e.value.id).value, NodeOf(EipPlace(e.value));
      BuiltSound(ids, EIP, sys, e.value.id, u, None, node, e.value.attrs,
                 map[NodeName := Str(node)], map[Uuid := Str(u), SystemId := Str(sys)]);
    }
  }

  lemma ElbSound(ids: IdScheme, sys: string, e: Option<Elb>)
    ensures SoundCand(ids, ELB, sys, ElbCand(ids, sys, e))
  {
    hide NodeOf, ElbPlace, Inked, Trim;
    if e.Some? && CloudUuid(ids, e.value.id).Some? {
      var u, node := CloudUuid(ids, e.value.id).value, NodeOf(ElbPlace(e.value));
      BuiltSound(ids, ELB, sys, e.value.id, u, None, node, e.value.attrs,
                 map[NodeName := Str(node), Uuid := Str(u)], map[SystemId := Str(sys)]);
    }
  }

  // ---------- the node map ----------

  /** `collectSystemNodeKeys` and the EIP and ELB merges after it: the node map gets exactly the
      node names of the listed resources, each with the region of one of them. */
  method MergeNodeKeys(nodes: map<string, string>, places: seq<Place>) returns (out: map<string, string>)
    ensures forall k :: k in out <==> k in nodes || exists p :: p in places && NodeOf(p) == k
    ensures forall k :: k in out ==> (k in nodes && out[k] == nodes[k]) ||
                                     exists p :: p in places && NodeOf(p) == k && out[k] == Trim(p.region)
  {
    out := nodes;
    for i := 0 to |places|
      invariant forall k :: k in out <==> k in nodes || exists p :: p in places[..i] && NodeOf(p) == k
      invariant forall k :: k in out ==> (k in nodes && out[k] == nodes[k]) ||
                                         exists p :: p in places[..i] && NodeOf(p) == k && out[k] == Trim(p.region)
    {
      assert places[..i + 1] == places[..i] + [places[i]];
      out := out[NodeOf(places[i]) := Trim(places[i].region)];
    }
    assert places[..|places|] == places;
  }

  // ---------- the sets of live uuids ----------

  /** The `uuidSetFrom...` loops: the canonical uuids of the raw ids that have one. */
  method UuidSet(raws: seq<string>, canon: string -> Option<string>) returns (keep: set<string>)
    ensures forall u :: u in keep <==> exists r :: r in raws && canon(r) == Some(u)
  {
    keep := {};
    for i := 0 to |raws|
      invariant forall u :: u in keep <==> exists r :: r in raws[..i] && canon(r) == Some(u)
    {
      assert raws[..i + 1] == raws[..i] + [raws[i]];
      if canon(raws[i]).Some? { keep := keep + {canon(raws[i]).value}; }
    }
    assert raws[..|raws|] == raws;
  }
}
