/** Every write the synchroniser can perform, with the condition under which its code performs it. */
module Events {
  import opened Text
  import opened Values
  import opened Rows
  import opened Remote
  import opened Ids

  /** The kinds kept in step with cloud inventory lists. */
  predicate Inventory(k: Kind) {
    k.Server? || k.K8sCluster? || k.MiddleSoftware? || k.EIP? || k.ELB?
  }

  /** One cloud record, ready to be upserted: `want` is merged and compared on update,
      `add` is the payload of a new item. */
  datatype Rec = Rec(ref: string, uuid: string, inst: Option<string>, node: string, want: Row, add: Row)

  ghost predicate Sound(ids: IdScheme, kind: Kind, sys: string, r: Rec) {
    && Inventory(kind)
    && ScalarRow(r.add) && DomainName !in r.add
    && (forall k :: k in r.want ==> k in r.add && r.add[k] == r.want[k])
    && CanonOf(ids, r.uuid) && Get(r.add, Uuid) == Str(r.uuid)
    && Get(r.add, SystemId) == Str(sys)
    && Inked(r.node) && Get(r.want, NodeName) == Str(r.node)
    && (kind.MiddleSoftware? <==> r.inst.Some?) && (InstanceId in r.add <==> r.inst.Some?)
    && (r.inst.Some? ==>
          && Inked(r.inst.value) && Trimmed(r.inst.value)
          && MiddlewareUuid(ids, r.inst.value) == Some(r.uuid)
          && Get(r.want, InstanceId) == Str(r.inst.value) && Get(r.want, Uuid) == Str(r.uuid))
  }

  function ByUuid(kind: Kind, sys: string, uuid: string): Query { Query(kind, sys, On(Uuid, uuid)) }
  function ByInst(kind: Kind, sys: string, inst: string): Query { Query(kind, sys, On(InstanceId, inst)) }
  function ByNode(kind: Kind, sys: string, node: string): Query { Query(kind, sys, On(NodeName, node)) }

  /** Middleware is looked up by instance id first and by uuid second, everything else by uuid. */
  function Lookup(db: Store, kind: Kind, sys: string, r: Rec): Option<nat> {
    if r.inst.Some? && First(db, ByInst(kind, sys, r.inst.value)).Some?
    then First(db, ByInst(kind, sys, r.inst.value))
    else First(db, ByUuid(kind, sys, r.uuid))
  }

  /** The resource an item stands for, however its uuid is spelled. */
  function UuidOf(ids: IdScheme, c: Ci): Option<string> { CloudUuid(ids, Sprint(Get(c.row, Uuid))) }

  /** An item that reconciliation deletes: of a listed resource type when types are given, with a
      uuid that parses, to something outside the cloud set. */
  predicate Orphan(ids: IdScheme, row: Row, keep: set<string>, types: seq<string>) {
    && (types == [] || Trim(Sprint(Get(row, ResourceType))) in types)
    && var canon := CloudUuid(ids, Sprint(Get(row, Uuid)));
    && canon.Some? && canon.value !in keep
  }

  datatype Event =
    | Create(kind: Kind, sys: string, rec: Rec)
    | Refresh(kind: Kind, sys: string, rec: Rec, id: nat)
    | Drop(kind: Kind, sys: string, keep: set<string>, types: seq<string>, id: nat)
    | NodeCreate(sys: string, node: string, row: Row)
    | NodeRefresh(sys: string, node: string, admin: string, id: nat)
    | DomainPatch(sys: string, uuid: string, domains: seq<string>, id: nat)
    | DomainCreate(sys: string, node: string, row: Row)
    | DomainDrop(sys: string, node: string, id: nat)

  ghost predicate Enabled(ids: IdScheme, db: Store, e: Event) {
    match e
    case Create(kind, sys, r) => Sound(ids, kind, sys, r) && Lookup(db, kind, sys, r).None?
    case Refresh(kind, sys, r, id) => Sound(ids, kind, sys, r) && Lookup(db, kind, sys, r) == Some(id)
    case Drop(kind, sys, keep, types, id) =>
      && Inventory(kind) && id in db.cis && Hit(db.cis[id], Query(kind, sys, Any))
      && Orphan(ids, db.cis[id].row, keep, types)
    case NodeCreate(sys, node, row) =>
      && First(db, ByNode(SystemNode, sys, node)).None?
      && ScalarRow(row) && Get(row, SystemId) == Str(sys) && Get(row, NodeName) == Str(node)
    case NodeRefresh(sys, node, admin, id) => First(db, ByNode(SystemNode, sys, node)) == Some(id)
    case DomainPatch(sys, uuid, domains, id) =>
      First(db, ByUuid(EIP, sys, uuid)) == Some(id) && domains != [] && CleanList(domains) == domains
    case DomainCreate(sys, node, row) =>
      ScalarRow(row) && Get(row, SystemId) == Str(sys) && Get(row, NodeName) == Str(node)
    case DomainDrop(sys, node, id) => id in db.cis && Hit(db.cis[id], ByNode(Domain, sys, node))
  }

  function Do(db: Store, e: Event): Store {
    match e
    case Create(kind, sys, r) => Added(db, kind, r.add)
    case Refresh(kind, sys, r, id) => Rewrite(db, id, r.want)
    case Drop(kind, sys, keep, types, id) => Deleted(db, id)
    case NodeCreate(sys, node, row) => Added(db, SystemNode, row)
    case NodeRefresh(sys, node, admin, id) => Rewrite(db, id, map[AdminName := Str(admin)])
    case DomainPatch(sys, uuid, domains, id) => Patched(db, id, map[DomainName := Strs(domains)])
    case DomainCreate(sys, node, row) => Added(db, Domain, row)
    case DomainDrop(sys, node, id) => Deleted(db, id)
  }

  function Patched(db: Store, id: nat, patch: Row): Store {
    if id in db.cis then Updated(db, id, patch) else db
  }

  /** An update that carries the merge of `want` with the item's present row. */
  function Rewrite(db: Store, id: nat, want: Row): Store {
    if id in db.cis then Updated(db, id, Merge(want, db.cis[id].row)) else db
  }

  lemma RewriteWrites(db: Store, id: nat, want: Row)
    requires id in db.cis
    ensures Rewrite(db, id, want) ==
            db.(cis := db.cis[id := db.cis[id].(row := Written(db.cis[id].row, want))])
  {}

  /** The writes of a run, oldest first. */
  datatype Log = Start | Then(prev: Log, last: Event)

  function Run(db: Store, log: Log): Store {
    match log
    case Start => db
    case Then(prev, e) => Do(Run(db, prev), e)
  }

  /** Each write of the run happens in a state in which the code would make it. */
  ghost predicate Legal(ids: IdScheme, db: Store, log: Log) {
    match log
    case Start => true
    case Then(prev, e) => Legal(ids, db, prev) && Enabled(ids, Run(db, prev), e)
  }

  function Append(a: Log, b: Log): Log {
    match b
    case Start => a
    case Then(prev, e) => Then(Append(a, prev), e)
  }

  lemma {:induction false} RunAppend(ids: IdScheme, db: Store, a: Log, b: Log)
    ensures Run(db, Append(a, b)) == Run(Run(db, a), b)
    ensures Legal(ids, db, a) && Legal(ids, Run(db, a), b) ==> Legal(ids, db, Append(a, b))
  {
    if b.Then? { RunAppend(ids, db, a, b.prev); }
  }
}
