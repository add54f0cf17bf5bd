/** Safety of the synchroniser over all runs: whatever the cloud lists contain, whichever calls fail
    or lose their reply, and however often the passes are repeated. */
module Safety {
  import opened Text
  import opened Values
  import opened Rows
  import opened Remote
  import opened Ids
  import opened Events

  // ---------- identity uniqueness ----------

  predicate SameText(a: Ci, b: Ci, k: Field) {
    Get(a.row, k).Str? && Get(a.row, k) == Get(b.row, k)
  }

  /** Two items that a lookup by uuid, by instance id or by node name could not tell apart. */
  predicate Clash(a: Ci, b: Ci) {
    && a.kind == b.kind && SameText(a, b, SystemId)
    && (|| (Inventory(a.kind) && SameText(a, b, Uuid))
        || (a.kind.MiddleSoftware? && SameText(a, b, InstanceId))
        || (a.kind.SystemNode? && SameText(a, b, NodeName)))
  }

  predicate NoClash(db: Store) {
    forall i, j {:trigger Clash(db.cis[i], db.cis[j])} ::
      i in db.cis && j in db.cis && i != j ==> !Clash(db.cis[i], db.cis[j])
  }

  /** A middleware item that a lookup by instance id can find. */
  predicate Findable(c: Ci) {
    && c.kind.MiddleSoftware? && Get(c.row, SystemId).Str?
    && Get(c.row, InstanceId).Str? && Inked(Get(c.row, InstanceId).s) && Trimmed(Get(c.row, InstanceId).s)
  }

  /** Such an item carries the uuid derived from its instance id. */
  predicate Derived(ids: IdScheme, c: Ci) {
    Findable(c) ==> Get(c.row, Uuid) == Str(MiddlewareUuid(ids, Get(c.row, InstanceId).s).value)
  }

  predicate AllDerived(ids: IdScheme, db: Store) {
    forall i {:trigger Derived(ids, db.cis[i])} :: i in db.cis ==> Derived(ids, db.cis[i])
  }

  ghost predicate Unique(ids: IdScheme, db: Store) { NoClash(db) && AllDerived(ids, db) }

  /** Replacing or adding one item gives rise to no clash when the new item clashes with no other. */
  lemma PutClear(db: Store, id: nat, c: Ci, next: nat)
    requires NoClash(db) && id < next && db.next <= next
    requires forall j :: j in db.cis && j != id ==> !Clash(c, db.cis[j])
    ensures NoClash(Db(db.cis[id := c], next))
  {}

  lemma CreateClear(ids: IdScheme, db: Store, kind: Kind, sys: string, r: Rec)
    requires NoClash(db) && Enabled(ids, db, Create(kind, sys, r))
    ensures NoClash(Do(db, Create(kind, sys, r)))
  {
    ScalarRowEncodes(r.add);
    var c := Ci(kind, r.add);
    forall j | j in db.cis ensures !Clash(c, db.cis[j]) {
      assert !Hit(db.cis[j], ByUuid(kind, sys, r.uuid));
      if r.inst.Some? { assert !Hit(db.cis[j], ByInst(kind, sys, r.inst.value)); }
    }
    PutClear(db, db.next, c, db.next + 1);
  }

  /** A scalar the record asks for ends up in the written row, unless it is empty and the row's
      own value is not. */
  lemma WrittenColumn(row: Row, want: Row, k: Field, v: string)
    requires Get(want, k) == Str(v) && (Inked(v) || Get(row, k) == Str(v))
    ensures Get(Written(row, want), k) == Str(v)
  {}

  lemma WrittenElsewhere(row: Row, want: Row, k: Field)
    requires k !in want
    ensures Get(Written(row, want), k) == Get(row, k)
  {}

  /** The row after an upsert write: the identity columns hold what the record says. */
  lemma RefreshedRow(ids: IdScheme, db: Store, kind: Kind, sys: string, r: Rec, id: nat)
    requires Sound(ids, kind, sys, r) && Lookup(db, kind, sys, r) == Some(id)
    ensures id in db.cis && db.cis[id].kind == kind && Get(db.cis[id].row, SystemId) == Str(sys)
    ensures var row := db.cis[id].row; var w := Written(row, r.want);
            && Get(w, SystemId) == Str(sys)
            && Get(w, NodeName) == Str(r.node)
            && Get(w, InstanceId) == (if r.inst.Some? then Str(r.inst.value) else Get(row, InstanceId))
            && Get(w, Uuid) == Str(r.uuid)
    ensures r.inst.None? ==> Get(db.cis[id].row, Uuid) == Str(r.uuid)
  {
    var row := db.cis[id].row;
    WrittenColumn(row, r.want, NodeName, r.node);
    if SystemId in r.want { WrittenColumn(row, r.want, SystemId, sys); }
    else { WrittenElsewhere(row, r.want, SystemId); }
    if Uuid in r.want { WrittenColumn(row, r.want, Uuid, r.uuid); }
    else { WrittenElsewhere(row, r.want, Uuid); }
    if r.inst.Some? { WrittenColumn(row, r.want, InstanceId, r.inst.value); }
    else { WrittenElsewhere(row, r.want, InstanceId); }
  }

  /** No item but one shows the uuid. */
  predicate Alone(db: Store, kind: Kind, sys: string, uuid: string, id: nat) {
    forall j {:trigger Hit(db.cis[j], ByUuid(kind, sys, uuid))} ::
      j in db.cis && j != id ==> !Hit(db.cis[j], ByUuid(kind, sys, uuid))
  }

  /** An update leaves lookups unambiguous exactly if no other item shows the uuid it writes. */
  lemma RefreshClear(ids: IdScheme, db: Store, kind: Kind, sys: string, r: Rec, id: nat)
    requires NoClash(db) && Enabled(ids, db, Refresh(kind, sys, r, id))
    ensures NoClash(Do(db, Refresh(kind, sys, r, id))) <==> Alone(db, kind, sys, r.uuid, id)
  {
    RefreshedRow(ids, db, kind, sys, r, id);
    RewriteWrites(db, id, r.want);
    var was := db.cis[id];
    var c := was.(row := Written(was.row, r.want));
    var post := Do(db, Refresh(kind, sys, r, id));
    assert post.cis[id] == c;
    forall j | j in db.cis && j != id
      ensures Clash(c, db.cis[j]) <==> Hit(db.cis[j], ByUuid(kind, sys, r.uuid))
    {
      assert !Clash(was, db.cis[j]);
      if r.inst.Some? && Get(was.row, InstanceId) != Str(r.inst.value) {
        assert !Hit(db.cis[j], ByInst(kind, sys, r.inst.value));
      }
    }
    if Alone(db, kind, sys, r.uuid, id) { PutClear(db, id, c, db.next); }
    forall j | NoClash(post) && j in db.cis && j != id ensures !Hit(db.cis[j], ByUuid(kind, sys, r.uuid)) {
      assert post.cis[j] == db.cis[j] && !Clash(post.cis[id], post.cis[j]);
    }
  }

  /** A write that leaves the identity columns alone. */
  lemma SideWrite(ids: IdScheme, db: Store, id: nat, patch: Row)
    requires id in db.cis && patch.Keys !! {Uuid, InstanceId, SystemId, NodeName}
    ensures NoClash(db) ==> NoClash(Updated(db, id, patch))
    ensures AllDerived(ids, db) ==> AllDerived(ids, Updated(db, id, patch))
  {
    var was := db.cis[id];
    var c := was.(row := was.row + EncodeRow(patch));
    assert Get(c.row, Uuid) == Get(was.row, Uuid);
    assert Get(c.row, InstanceId) == Get(was.row, InstanceId);
    assert Get(c.row, SystemId) == Get(was.row, SystemId);
    assert Get(c.row, NodeName) == Get(was.row, NodeName);
    assert Derived(ids, was) == Derived(ids, c);
    if NoClash(db) {
      forall j | j in db.cis && j != id ensures !Clash(c, db.cis[j]) {
        assert !Clash(was, db.cis[j]);
      }
      PutClear(db, id, c, db.next);
    }
  }

  lemma NodeCreateClear(ids: IdScheme, db: Store, sys: string, node: string, row: Row)
    requires NoClash(db) && Enabled(ids, db, NodeCreate(sys, node, row))
    ensures NoClash(Do(db, NodeCreate(sys, node, row)))
  {
    ScalarRowEncodes(row);
    var c := Ci(SystemNode, row);
    forall j | j in db.cis ensures !Clash(c, db.cis[j]) {
      assert !Hit(db.cis[j], ByNode(SystemNode, sys, node));
    }
    PutClear(db, db.next, c, db.next + 1);
  }

  lemma DeleteClear(ids: IdScheme, db: Store, id: nat)
    ensures NoClash(db) ==> NoClash(Deleted(db, id))
    ensures AllDerived(ids, db) ==> AllDerived(ids, Deleted(db, id))
  {}

  lemma DomainCreateClear(db: Store, row: Row)
    requires NoClash(db)
    ensures NoClash(Added(db, Domain, row))
  {
    PutClear(db, db.next, Ci(Domain, EncodeRow(row)), db.next + 1);
  }

  /** The one write that makes two items indistinguishable: an update that gives its item a uuid
      another item shows. */
  predicate TakesOver(db: Store, e: Event) {
    e.Refresh? && !Alone(db, e.kind, e.sys, e.rec.uuid, e.id)
  }

  lemma ClearStep(ids: IdScheme, db: Store, e: Event)
    requires NoClash(db) && Enabled(ids, db, e)
    ensures NoClash(Do(db, e)) <==> !TakesOver(db, e)
  {
    hide Clash, Sound, Orphan, EncodeRow, Lookup, ScalarRow, Hit;
    match e
    case Create(kind, sys, r) => CreateClear(ids, db, kind, sys, r);
    case Refresh(kind, sys, r, id) => RefreshClear(ids, db, kind, sys, r, id);
    case Drop(_, _, _, _, id) => DeleteClear(ids, db, id);
    case NodeCreate(sys, node, row) => NodeCreateClear(ids, db, sys, node, row);
    case NodeRefresh(sys, node, admin, id) =>
      SideWrite(ids, db, id, Merge(map[AdminName := Str(admin)], db.cis[id].row));
    case DomainPatch(sys, uuid, domains, id) => SideWrite(ids, db, id, map[DomainName := Strs(domains)]);
    case DomainCreate(sys, node, row) => DomainCreateClear(db, row);
    case DomainDrop(_, _, id) => DeleteClear(ids, db, id);
  }

  lemma PutDerived(ids: IdScheme, db: Store, id: nat, c: Ci, next: nat)
    requires AllDerived(ids, db) && Derived(ids, c) && id < next && db.next <= next
    ensures AllDerived(ids, Db(db.cis[id := c], next))
  {
    hide Derived;
  }

  lemma UpsertDerived(ids: IdScheme, kind: Kind, sys: string, r: Rec, c: Ci)
    requires Sound(ids, kind, sys, r) && c.kind == kind && Get(c.row, Uuid) == Str(r.uuid)
    requires r.inst.Some? ==> Get(c.row, InstanceId) == Str(r.inst.value)
    ensures Derived(ids, c)
  {}

  /** Every item a write touches is derived afterwards. */
  lemma DerivedStep(ids: IdScheme, db: Store, e: Event)
    requires AllDerived(ids, db) && Enabled(ids, db, e)
    ensures AllDerived(ids, Do(db, e))
  {
    hide AllDerived, Orphan, Lookup, MiddlewareUuid, Inked, Trimmed, Written, Hit;
    match e
    case Create(kind, sys, r) =>
      ScalarRowEncodes(r.add);
      UpsertDerived(ids, kind, sys, r, Ci(kind, r.add));
      PutDerived(ids, db, db.next, Ci(kind, r.add), db.next + 1);
    case Refresh(kind, sys, r, id) =>
      RefreshedRow(ids, db, kind, sys, r, id);
      RewriteWrites(db, id, r.want);
      var c := db.cis[id].(row := Written(db.cis[id].row, r.want));
      UpsertDerived(ids, kind, sys, r, c);
      PutDerived(ids, db, id, c, db.next);
    case Drop(_, _, _, _, id) => DeleteClear(ids, db, id);
    case NodeCreate(_, _, row) => PutDerived(ids, db, db.next, Ci(SystemNode, EncodeRow(row)), db.next + 1);
    case NodeRefresh(sys, node, admin, id) =>
      SideWrite(ids, db, id, Merge(map[AdminName := Str(admin)], db.cis[id].row));
    case DomainPatch(sys, uuid, domains, id) => SideWrite(ids, db, id, map[DomainName := Strs(domains)]);
    case DomainCreate(_, _, row) => PutDerived(ids, db, db.next, Ci(Domain, EncodeRow(row)), db.next + 1);
    case DomainDrop(_, _, id) => DeleteClear(ids, db, id);
  }

  /** An update whose item is derived takes nothing over. */
  lemma DerivedAlone(ids: IdScheme, db: Store, kind: Kind, sys: string, r: Rec, id: nat)
    requires NoClash(db) && Enabled(ids, db, Refresh(kind, sys, r, id)) && Derived(ids, db.cis[id])
    ensures Alone(db, kind, sys, r.uuid, id)
  {
    forall j | j in db.cis && j != id ensures !Hit(db.cis[j], ByUuid(kind, sys, r.uuid)) {
      assert !Clash(db.cis[id], db.cis[j]);
    }
  }

  /** Over any run, lookups stay unambiguous and instance ids stay tied to their uuids. */
  lemma {:induction false} UniqueRun(ids: IdScheme, db: Store, log: Log)
    requires Unique(ids, db) && Legal(ids, db, log)
    ensures Unique(ids, Run(db, log))
  {
    hide NoClash, Enabled, Do, Derived;
    if log.Then? {
      UniqueRun(ids, db, log.prev);
      var mid, e := Run(db, log.prev), log.last;
      DerivedStep(ids, mid, e);
      ClearStep(ids, mid, e);
      if e.Refresh? { RefreshedAlone(ids, mid, e); }
    }
  }

  lemma RefreshedAlone(ids: IdScheme, db: Store, e: Event)
    requires Unique(ids, db) && Enabled(ids, db, e)
    ensures !TakesOver(db, e)
  {
    hide NoClash, Sound, Alone;
    if e.Refresh? { DerivedAlone(ids, db, e.kind, e.sys, e.rec, e.id); }
  }

  // ---------- rules a log may obey ----------

  function SystemOf(e: Event): string {
    match e
    case Create(_, sys, _) => sys
    case Refresh(_, sys, _, _) => sys
    case Drop(_, sys, _, _, _) => sys
    case NodeCreate(sys, _, _) => sys
    case NodeRefresh(sys, _, _, _) => sys
    case DomainPatch(sys, _, _, _) => sys
    case DomainCreate(sys, _, _) => sys
    case DomainDrop(sys, _, _) => sys
  }

  predicate HasNode(db: Store, sys: string, node: string) {
    First(db, ByNode(SystemNode, sys, node)).Some?
  }

  /** The upserts of e name a node that db has. */
  predicate Grounded(db: Store, e: Event) {
    match e
    case Create(_, sys, r) => HasNode(db, sys, r.node)
    case Refresh(_, sys, r, _) => HasNode(db, sys, r.node)
    case _ => true
  }

  /** The kind of item an event writes. */
  function KindOf(e: Event): Kind {
    match e
    case Create(kind, _, _) => kind
    case Refresh(kind, _, _, _) => kind
    case Drop(kind, _, _, _, _) => kind
    case NodeCreate(_, _, _) => SystemNode
    case NodeRefresh(_, _, _, _) => SystemNode
    case DomainPatch(_, _, _, _) => EIP
    case DomainCreate(_, _, _) => Domain
    case DomainDrop(_, _, _) => Domain
  }

  datatype Rule =
    | InSystem(sys: string) | OfKind(kind: Kind) | GroundedIn(db: Store) | Upserting(kind: Kind, uuids: set<string>)

  predicate Obeys(e: Event, rule: Rule) {
    match rule
    case InSystem(sys) => SystemOf(e) == sys
    case OfKind(kind) => KindOf(e) == kind
    case GroundedIn(db) => Grounded(db, e)
    case Upserting(kind, uuids) => (e.Create? || e.Refresh?) && e.kind == kind ==> e.rec.uuid in uuids
  }

  /** Every write of the log obeys the rule. */
  predicate Every(log: Log, rule: Rule) {
    log.Then? ==> Every(log.prev, rule) && Obeys(log.last, rule)
  }

  lemma {:induction false} EveryAppend(a: Log, b: Log, rule: Rule)
    ensures Every(Append(a, b), rule) <==> Every(a, rule) && Every(b, rule)
  {
    if b.Then? { EveryAppend(a, b.prev, rule); }
  }

  // ---------- what a write leaves alone ----------

  /** A write only ever reaches an item of the system it is made for. */
  lemma IsolationStep(ids: IdScheme, db: Store, e: Event, id: nat)
    requires Enabled(ids, db, e) && id in db.cis && Get(db.cis[id].row, SystemId) != Str(SystemOf(e))
    ensures id in Do(db, e).cis && Do(db, e).cis[id] == db.cis[id]
  {}

  lemma {:induction false} IsolationRun(ids: IdScheme, db: Store, log: Log, sys: string, id: nat)
    requires Legal(ids, db, log) && Every(log, InSystem(sys))
    requires id in db.cis && Get(db.cis[id].row, SystemId) != Str(sys)
    ensures id in Run(db, log).cis && Run(db, log).cis[id] == db.cis[id]
  {
    if log.Then? {
      IsolationRun(ids, db, log.prev, sys, id);
      IsolationStep(ids, Run(db, log.prev), log.last, id);
    }
  }

  lemma NoRebirthStep(db: Store, e: Event, id: nat)
    requires id < db.next && id !in db.cis
    ensures id !in Do(db, e).cis && db.next <= Do(db, e).next
  {}

  /** Ids only grow, so an item that is gone stays gone. */
  lemma {:induction false} NoRebirth(db: Store, log: Log, id: nat)
    requires id < db.next && id !in db.cis
    ensures id !in Run(db, log).cis && db.next <= Run(db, log).next
  {
    if log.Then? {
      NoRebirth(db, log.prev, id);
      NoRebirthStep(Run(db, log.prev), log.last, id);
    }
  }

  lemma {:induction false} NextGrows(db: Store, log: Log)
    ensures db.next <= Run(db, log).next
  {
    if log.Then? { NextGrows(db, log.prev); }
  }

  // ---------- no information loss ----------

  lemma ContentRewrite(db: Store, target: nat, want: Row, id: nat, k: Field)
    requires id in db.cis && !IsEmpty(Get(db.cis[id].row, k))
    ensures id in Rewrite(db, target, want).cis && Rewrite(db, target, want).cis[id].kind == db.cis[id].kind
    ensures !IsEmpty(Get(Rewrite(db, target, want).cis[id].row, k))
  {
    if target in db.cis { RewriteWrites(db, target, want); }
    WrittenKeepsContent(db.cis[id].row, want, k);
  }

  lemma CleanEncodes(domains: seq<string>)
    requires domains != [] && CleanList(domains) == domains
    ensures !IsEmpty(Encode(Strs(domains)))
  {
    assert domains[0] in CleanList(domains);
    assert Trim(domains[0]) != "";
    EncodeKeepsContent(Strs(domains));
  }

  lemma ContentPatch(db: Store, target: nat, domains: seq<string>, id: nat, k: Field)
    requires id in db.cis && !IsEmpty(Get(db.cis[id].row, k))
    requires domains != [] && CleanList(domains) == domains
    ensures var post := Patched(db, target, map[DomainName := Strs(domains)]);
            id in post.cis && post.cis[id].kind == db.cis[id].kind && !IsEmpty(Get(post.cis[id].row, k))
  {
    hide CleanList, IsEmpty, Encode, Trim;
    CleanEncodes(domains);
  }

  lemma ContentStep(ids: IdScheme, db: Store, e: Event, id: nat, k: Field)
    requires Enabled(ids, db, e) && id in db.cis && id in Do(db, e).cis
    requires !IsEmpty(Get(db.cis[id].row, k))
    ensures !IsEmpty(Get(Do(db, e).cis[id].row, k))
    ensures Do(db, e).cis[id].kind == db.cis[id].kind
  {
    match e
    case Refresh(_, _, r, target) => ContentRewrite(db, target, r.want, id, k);
    case NodeRefresh(_, _, admin, target) => ContentRewrite(db, target, map[AdminName := Str(admin)], id, k);
    case DomainPatch(_, _, domains, target) => ContentPatch(db, target, domains, id, k);
    case _ =>
  }

  /** Over any run, a field that holds something keeps holding something for as long as its item
      exists, whatever the cloud lists say. */
  lemma {:induction false} ContentRun(ids: IdScheme, db: Store, log: Log, id: nat, k: Field)
    requires Legal(ids, db, log) && id in db.cis && id in Run(db, log).cis
    requires !IsEmpty(Get(db.cis[id].row, k))
    ensures !IsEmpty(Get(Run(db, log).cis[id].row, k))
    ensures Run(db, log).cis[id].kind == db.cis[id].kind
  {
    if log.Then? {
      NextGrows(db, log.prev);
      if id !in Run(db, log.prev).cis { NoRebirthStep(Run(db, log.prev), log.last, id); }
      ContentRun(ids, db, log.prev, id, k);
      ContentStep(ids, Run(db, log.prev), log.last, id, k);
    }
  }

  // ---------- referential integrity to system nodes ----------

  predicate SamePlace(a: Ci, b: Ci) {
    a.kind == b.kind && Get(a.row, SystemId) == Get(b.row, SystemId) && Get(a.row, NodeName) == Get(b.row, NodeName)
  }

  /** A write leaves the place of a node item alone. */
  lemma NodeItemStep(ids: IdScheme, db: Store, e: Event, i: nat)
    requires Enabled(ids, db, e) && i in db.cis && db.cis[i].kind.SystemNode?
    ensures i in Do(db, e).cis && SamePlace(db.cis[i], Do(db, e).cis[i])
  {
    hide Orphan, Lookup, MiddlewareUuid, Inked, Trimmed, ScalarRow, CanonOf, CleanList, First, Merge, Written;
    match e
    case Refresh(kind, sys, r, target) =>
      RefreshedRow(ids, db, kind, sys, r, target);
      RewriteWrites(db, target, r.want);
    case NodeRefresh(_, _, admin, target) =>
      var want: Row := map[AdminName := Str(admin)];
      RewriteWrites(db, target, want);
      WrittenElsewhere(db.cis[target].row, want, SystemId);
      WrittenElsewhere(db.cis[target].row, want, NodeName);
    case _ =>
  }

  lemma NodeStep(ids: IdScheme, db: Store, e: Event, sys: string, node: string)
    requires Enabled(ids, db, e) && HasNode(db, sys, node)
    ensures HasNode(Do(db, e), sys, node)
  {
    hide Enabled, Do, Get;
    var q := ByNode(SystemNode, sys, node);
    var i := First(db, q).value;
    NodeItemStep(ids, db, e, i);
    assert Hit(Do(db, e).cis[i], q);
  }

  /** No step of any run removes a system node or renames it. */
  lemma {:induction false} NodeRun(ids: IdScheme, db: Store, log: Log, sys: string, node: string)
    requires Legal(ids, db, log) && HasNode(db, sys, node)
    ensures HasNode(Run(db, log), sys, node)
  {
    if log.Then? {
      NodeRun(ids, db, log.prev, sys, node);
      NodeStep(ids, Run(db, log.prev), log.last, sys, node);
    }
  }

  /** The node an inventory item names exists in its system. */
  predicate Anchored(db: Store, c: Ci) {
    Inventory(c.kind) && Get(c.row, SystemId).Str? && Get(c.row, NodeName).Str? ==>
      HasNode(db, Get(c.row, SystemId).s, Get(c.row, NodeName).s)
  }

  predicate Integral(db: Store) {
    forall i {:trigger Anchored(db, db.cis[i])} :: i in db.cis ==> Anchored(db, db.cis[i])
  }

  predicate PlacedAt(c: Ci, kind: Kind, sys: string, node: string) {
    c.kind == kind && Get(c.row, SystemId) == Str(sys) && Get(c.row, NodeName) == Str(node)
  }

  lemma CreatedPlace(ids: IdScheme, kind: Kind, sys: string, r: Rec)
    requires Sound(ids, kind, sys, r)
    ensures PlacedAt(Ci(kind, EncodeRow(r.add)), kind, sys, r.node)
  {
    ScalarRowEncodes(r.add);
  }

  lemma RefreshedPlace(ids: IdScheme, db: Store, kind: Kind, sys: string, r: Rec, id: nat)
    requires Sound(ids, kind, sys, r) && Lookup(db, kind, sys, r) == Some(id)
    ensures var post := Rewrite(db, id, r.want);
            && id in db.cis && id in post.cis && PlacedAt(post.cis[id], kind, sys, r.node)
            && post.cis.Keys == db.cis.Keys && forall i :: i in db.cis && i != id ==> post.cis[i] == db.cis[i]
  {
    hide Sound, Lookup, Merge, Written;
    RefreshedRow(ids, db, kind, sys, r, id);
    RewriteWrites(db, id, r.want);
  }

  /** An item after a write is where it was, or where the upsert put it, or no inventory item. */
  lemma PlaceStep(ids: IdScheme, db: Store, e: Event, i: nat)
    requires Enabled(ids, db, e) && i in Do(db, e).cis
    ensures var c := Do(db, e).cis[i];
            || (i in db.cis && SamePlace(db.cis[i], c))
            || (e.Create? && i == db.next && PlacedAt(c, e.kind, e.sys, e.rec.node))
            || (e.Refresh? && i == e.id && PlacedAt(c, e.kind, e.sys, e.rec.node))
            || !Inventory(c.kind)
  {
    hide Sound, Orphan, Merge, Lookup, Written, Rewrite, ScalarRow, CleanList, Encode, First;
    match e
    case Create(kind, sys, r) => CreatedPlace(ids, kind, sys, r);
    case Refresh(kind, sys, r, target) => RefreshedPlace(ids, db, kind, sys, r, target);
    case NodeRefresh(_, _, admin, target) => RewriteWrites(db, target, map[AdminName := Str(admin)]);
    case _ =>
  }

  /** Whatever lacks its node in the later state is an item that lacked it before and was left in its
      place. */
  ghost predicate NoNewStray(db: Store, post: Store) {
    forall i {:trigger Anchored(post, post.cis[i])} :: i in post.cis ==> AnchoredOrOld(db, post, i)
  }

  predicate AnchoredOrOld(db: Store, post: Store, i: nat)
    requires i in post.cis
  {
    || Anchored(post, post.cis[i])
    || (i in db.cis && SamePlace(db.cis[i], post.cis[i]) && !Anchored(db, db.cis[i]))
  }

  lemma NoStrayTwice(db: Store, mid: Store, post: Store)
    requires NoNewStray(db, mid) && NoNewStray(mid, post)
    ensures NoNewStray(db, post)
  {
    hide Anchored;
    forall i | i in post.cis ensures AnchoredOrOld(db, post, i) {
      assert i in mid.cis ==> Anchored(mid, mid.cis[i]) || AnchoredOrOld(db, mid, i);
    }
  }

  lemma IntegralKept(db: Store, post: Store)
    requires Integral(db) && NoNewStray(db, post)
    ensures Integral(post)
  {
    hide Anchored;
    forall i | i in post.cis ensures Anchored(post, post.cis[i]) {
      assert i in db.cis ==> Anchored(db, db.cis[i]);
      assert Anchored(post, post.cis[i]) || AnchoredOrOld(db, post, i);
    }
  }

  /** An upsert names a node that db has, or one that its item names already. */
  predicate Housed(db: Store, e: Event) {
    Grounded(db, e) || (e.Refresh? && e.id in db.cis && PlacedAt(db.cis[e.id], e.kind, e.sys, e.rec.node))
  }

  lemma StrayStep(ids: IdScheme, db: Store, e: Event, i: nat)
    requires Enabled(ids, db, e) && Housed(db, e) && i in Do(db, e).cis
    ensures AnchoredOrOld(db, Do(db, e), i)
  {
    hide Enabled, Do, HasNode;
    var c := Do(db, e).cis[i];
    PlaceStep(ids, db, e, i);
    if Inventory(c.kind) && Get(c.row, SystemId).Str? && Get(c.row, NodeName).Str? {
      var sys, node := Get(c.row, SystemId).s, Get(c.row, NodeName).s;
      if HasNode(db, sys, node) { NodeStep(ids, db, e, sys, node); }
    }
  }

  /** The item an upsert writes names the record's node, and no upsert writes a node. */
  lemma UpsertedPlace(ids: IdScheme, db: Store, e: Event) returns (i: nat)
    requires Enabled(ids, db, e) && (e.Create? || e.Refresh?)
    ensures Inventory(e.kind) && (if e.Create? then i !in db.cis else i == e.id)
    ensures i in Do(db, e).cis && PlacedAt(Do(db, e).cis[i], e.kind, e.sys, e.rec.node)
    ensures forall j :: j != i && j in Do(db, e).cis ==> j in db.cis && db.cis[j] == Do(db, e).cis[j]
  {
    hide Orphan, Merge, Lookup, Written, Rewrite, ScalarRow;
    match e
    case Create(kind, sys, r) => CreatedPlace(ids, kind, sys, r); i := db.next;
    case Refresh(kind, sys, r, target) => RefreshedPlace(ids, db, kind, sys, r, target); i := target;
  }

  /** From any store, a write brings about no stray exactly if it is housed. */
  lemma StrayStepIff(ids: IdScheme, db: Store, e: Event)
    requires Enabled(ids, db, e)
    ensures NoNewStray(db, Do(db, e)) <==> Housed(db, e)
  {
    hide Enabled, Do;
    if Housed(db, e) {
      forall i | i in Do(db, e).cis ensures AnchoredOrOld(db, Do(db, e), i) { StrayStep(ids, db, e, i); }
    }
    if NoNewStray(db, Do(db, e)) && (e.Create? || e.Refresh?) {
      var i := UpsertedPlace(ids, db, e);
      assert Anchored(Do(db, e), Do(db, e).cis[i]) || AnchoredOrOld(db, Do(db, e), i);
      if HasNode(Do(db, e), e.sys, e.rec.node) {
        var q := ByNode(SystemNode, e.sys, e.rec.node);
        var n := First(Do(db, e), q).value;
        assert n in db.cis && Hit(db.cis[n], q);
      }
    }
  }

  /** No state of the run has a stray that the state before it had not. */
  ghost predicate NoStraysAlong(db: Store, log: Log) {
    log.Then? ==> NoStraysAlong(db, log.prev) && NoNewStray(Run(db, log.prev), Run(db, log))
  }

  /** Each write of the log is housed in the state before it. */
  predicate HousedAlong(db: Store, log: Log) {
    log.Then? ==> HousedAlong(db, log.prev) && Housed(Run(db, log.prev), log.last)
  }

  /** From any store, a run brings about no stray exactly if each upsert names a node that is there
      when it is made, created earlier in the run or before, or the one its item names already. */
  lemma {:induction false} StraysIff(ids: IdScheme, db: Store, log: Log)
    requires Legal(ids, db, log)
    ensures NoStraysAlong(db, log) <==> HousedAlong(db, log)
  {
    hide NoNewStray, Housed, Enabled, Do;
    if log.Then? {
      StraysIff(ids, db, log.prev);
      StrayStepIff(ids, Run(db, log.prev), log.last);
    }
  }

  /** Over such a run, an item that lacks its node at the end lacked it at the start. */
  lemma {:induction false} StraysRun(ids: IdScheme, db: Store, log: Log)
    requires Legal(ids, db, log) && HousedAlong(db, log)
    ensures NoNewStray(db, Run(db, log))
  {
    hide NoNewStray, Housed, Enabled, Do;
    if log.Start? {
      NoStrayYet(db);
    } else {
      StraysRun(ids, db, log.prev);
      StrayStepIff(ids, Run(db, log.prev), log.last);
      NoStrayTwice(db, Run(db, log.prev), Run(db, log));
    }
  }

  lemma NoStrayYet(db: Store)
    ensures NoNewStray(db, db)
  {
    hide Anchored;
    assert forall i :: i in db.cis ==> AnchoredOrOld(db, db, i);
  }

  lemma GroundedLater(ids: IdScheme, db: Store, log: Log, e: Event)
    requires Legal(ids, db, log) && Grounded(db, e)
    ensures Grounded(Run(db, log), e)
  {
    match e
    case Create(_, sys, r) => NodeRun(ids, db, log, sys, r.node);
    case Refresh(_, sys, r, _) => NodeRun(ids, db, log, sys, r.node);
    case _ =>
  }

  lemma IntegralClear(db: Store, post: Store)
    requires Integral(post)
    ensures NoNewStray(db, post)
  {
    hide Anchored;
    assert forall i :: i in post.cis ==> Anchored(post, post.cis[i]);
  }

  /** Nodes that existed when the run began are there at every step. */
  lemma {:induction false} GroundedFromStart(ids: IdScheme, db: Store, log: Log)
    requires Legal(ids, db, log) && Every(log, GroundedIn(db))
    ensures HousedAlong(db, log)
  {
    if log.Then? {
      GroundedFromStart(ids, db, log.prev);
      GroundedLater(ids, db, log.prev, log.last);
    }
  }

  /** An upsert that goes ahead although its node could not be written leaves an item without node. */
  lemma GroundIsNeeded(ids: IdScheme, sys: string, r: Rec)
    requires Sound(ids, Server, sys, r)
    ensures var db: Store := Db(map[], 0);
            Integral(db) && Enabled(ids, db, Create(Server, sys, r)) && !Integral(Do(db, Create(Server, sys, r)))
  {
    hide Sound, Do;
    var db: Store := Db(map[], 0);
    var e := Create(Server, sys, r);
    assert !Housed(db, e);
    StrayStepIff(ids, db, e);
    if Integral(Do(db, e)) { IntegralClear(db, Do(db, e)); }
  }
}
