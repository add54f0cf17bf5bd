/** The system node step: every collected node name gets its CI. */
module Nodes {
  import opened Text
  import opened Values
  import opened Rows
  import opened Remote
  import opened Ids
  import opened Names
  import opened Events
  import opened Safety
  import opened Records
  import opened Upsert
  import opened Stats
  import opened Passes

  /** The node has its CI and the CI already shows the administrator the step would write. */
  predicate NodeSettled(db: Store, sys: string, node: string, admin: string) {
    var t := First(db, ByNode(SystemNode, sys, node));
    t.Some? && !Differs(Get(db.cis[t.value].row, AdminName), Merge(AdminOnly(admin), db.cis[t.value].row)[AdminName])
  }

  function AdminOnly(admin: string): Row { map[AdminName := Str(admin)] }

  /** The node's item shows the administrator, unless none is configured. */
  predicate AdminShown(db: Store, sys: string, node: string, admin: string) {
    var t := First(db, ByNode(SystemNode, sys, node));
    t.Some? && (Inked(admin) ==> CompareStr(Get(db.cis[t.value].row, AdminName)) == Trim(admin))
  }

  lemma SettledShowsAdmin(db: Store, sys: string, node: string, admin: string)
    requires NodeSettled(db, sys, node, admin)
    ensures AdminShown(db, sys, node, admin)
  {
    hide Trim;
  }

  /** Where a system stands in the product hierarchy. */
  datatype Standing = Standing(product: string, productLine: string, bizDomain: string)

  /** The printed name of the last reported level of a type. */
  function NameOf(levels: seq<Level>, ciType: string): string
    decreases |levels|
  {
    if levels == [] then ""
    else if levels[|levels| - 1].ciType == ciType then Sprint(levels[|levels| - 1].name)
    else NameOf(levels[..|levels| - 1], ciType)
  }

  function StandingOf(levels: seq<Level>): Standing {
    Standing(NameOf(levels, "product"), NameOf(levels, "product_line"), NameOf(levels, "biz_domain"))
  }

  /** The loop over the reported levels: of several levels of one type the last one counts. */
  method ReadLevels(levels: seq<Level>) returns (at: Standing)
    ensures at == StandingOf(levels)
  {
    hide Sprint;
    at := Standing("", "", "");
    for i := 0 to |levels|
      invariant at == StandingOf(levels[..i])
    {
      assert levels[..i + 1][..i] == levels[..i];
      var name := Sprint(levels[i].name);
      match levels[i].ciType {
        case "biz_domain" => at := at.(bizDomain := name);
        case "product_line" => at := at.(productLine := name);
        case "product" => at := at.(product := name);
        case _ =>
      }
    }
    assert levels[..|levels|] == levels;
  }

  /** Of each type the last reported level gives the name; a type without a level leaves it empty. */
  lemma {:induction false} StandingIs(levels: seq<Level>, i: nat)
    requires i < |levels|
    ensures var last := forall j :: i < j < |levels| ==> levels[j].ciType != levels[i].ciType;
            var name, at := Sprint(levels[i].name), StandingOf(levels);
            last ==> match levels[i].ciType
                     case "product" => at.product == name
                     case "product_line" => at.productLine == name
                     case "biz_domain" => at.bizDomain == name
                     case _ => true
    ensures StandingOf([]) == Standing("", "", "")
    decreases |levels|
  {
    hide Sprint;
    if i < |levels| - 1 && levels[|levels| - 1].ciType != levels[i].ciType {
      StandingIs(levels[..|levels| - 1], i);
    }
  }

  /** The payload of a new node. */
  function NodeRow(sys: string, sysName: string, node: string, hint: string, admin: string, uuid: string,
                   at: Standing): Row {
    var (cloud, loc) := SplitNode(node, hint);
    map[Uuid := Str(uuid), SystemId := Str(sys), NodeName := Str(node), AdminName := Str(admin),
        Attr("system_name") := Str(sysName), Attr("product_name") := Str(at.product),
        Attr("product_line_name") := Str(at.productLine), Attr("biz_domain_name") := Str(at.bizDomain),
        Attr("cloud_type") := Str(cloud), Attr("location") := Str(loc)]
  }

  /** The columns that say where the node's system stands. */
  predicate ShowsStanding(row: Row, at: Standing) {
    && Get(row, Attr("product_name")) == Str(at.product) && Get(row, Attr("product_line_name")) == Str(at.productLine)
    && Get(row, Attr("biz_domain_name")) == Str(at.bizDomain)
  }

  /** The columns that say where a node is. */
  predicate ShowsPlace(row: Row, cloud: string, loc: string) {
    Get(row, Attr("cloud_type")) == Str(cloud) && Get(row, Attr("location")) == Str(loc)
  }

  /** A created node shows the cloud and region of the resource it was collected from, exactly unless
      the resource's tag runs on from them. */
  lemma NodeShowsPlace(p: Place, sys: string, sysName: string, admin: string, uuid: string, at: Standing)
    requires Trim(p.region) != ""
    ensures ShowsPlace(NodeRow(sys, sysName, NodeOf(p), Trim(p.region), admin, uuid, at), Label(p.provider),
                       Trim(p.region)) <==>
            !RunsOn(p.provider, p.region, p.tag)
  {
    SplitOfEffective(p.provider, p.region, p.tag);
    SameHint(NodeOf(p), p.region);
    hide SplitNode, RunsOn;
  }

  lemma NodeIdle(ids: IdScheme, db: Store, sys: string)
    ensures Did(ids, db, Start, db, sys, SystemNode)
  {}

  lemma NodeDid(ids: IdScheme, db: Store, sys: string, e: Event)
    requires (e.NodeCreate? || e.NodeRefresh?) && SystemOf(e) == sys && Enabled(ids, db, e)
    ensures Did(ids, db, Start, db, sys, SystemNode) && Did(ids, db, Then(Start, e), Do(db, e), sys, SystemNode)
  {}

  /** The node exists: refresh its administrator when it differs. */
  method RefreshNode(s: Syncer, sys: string, node: string, id: nat, t: Tally)
    returns (st: Tally, ghost log: Log)
    requires First(s.client.store, ByNode(SystemNode, sys, node)) == Some(id)
    modifies s.client
    ensures Did(s.ids, old(s.client.store), log, s.client.store, sys, SystemNode)
    ensures NodeWrite(log, sys, node, s.admin)
    ensures st.errors >= t.errors
    ensures st.added + st.updated + st.skipped + st.errors == t.added + t.updated + t.skipped + t.errors + 1
    ensures st.errors == t.errors ==> NodeSettled(s.client.store, sys, node, s.admin)
    ensures NodeSettled(old(s.client.store), sys, node, s.admin) ==>
              s.client.store == old(s.client.store) && st.added == t.added && st.updated == t.updated
    ensures log.Then? ==> log.last.NodeRefresh?
    ensures st.added == t.added && (st.skipped > t.skipped ==> NodeSettled(old(s.client.store), sys, node, s.admin))
    ensures s.client.Healthy() ==> st.errors == t.errors
  {
    log := Start;
    var first := s.client.GetCiFirst(ByNode(SystemNode, sys, node));
    if first.Err? { return Noted(t, node, "CMDB GetCIFirst system_node"), Start; }
    var row := first.value.value.ci.row;
    var merged := MergePreserveNonEmpty(Some(AdminOnly(s.admin)), Some(row));
    if !Differs(Get(row, AdminName), merged.value[AdminName]) { return t.(skipped := t.skipped + 1), Start; }
    NodeRewritten(s.client.store, sys, node, s.admin, id);
    NodeDid(s.ids, s.client.store, sys, NodeRefresh(sys, node, s.admin, id));
    var res, applied := s.client.UpdateCi(id, merged.value);
    if applied { log := Then(Start, NodeRefresh(sys, node, s.admin, id)); }
    st := if res.Err? then Noted(t, node, "CMDB UpdateCI system_node") else t.(updated := t.updated + 1);
  }

  /** The node is missing: look up the system and its upper levels, then create it. */
  method CreateNode(s: Syncer, sys: string, sysName: string, node: string, hint: string, t: Tally)
    returns (st: Tally, ghost log: Log)
    requires First(s.client.store, ByNode(SystemNode, sys, node)).None?
    modifies s.client
    ensures Did(s.ids, old(s.client.store), log, s.client.store, sys, SystemNode)
    ensures NodeWrite(log, sys, node, s.admin)
    ensures st.errors >= t.errors
    ensures st.added + st.updated + st.skipped + st.errors == t.added + t.updated + t.skipped + t.errors + 1
    ensures st.errors == t.errors ==> NodeSettled(s.client.store, sys, node, s.admin)
    ensures CreatedAt(log, node, hint) && CreatedUnder(log, old(s.client.store), sys, s.client.levels)
    ensures CreatedFor(log, sysName, s.admin)
    ensures s.client.Healthy() ==> (st.errors == t.errors <==> Rooted(old(s.client.store), sys, s.client.levels))
    ensures st.updated == t.updated && st.skipped == t.skipped
  {
    hide SplitNode, NodeSettled, Did, EncodeRow, First, Enabled, NodeRow, StandingOf;
    log := Start;
    NodeIdle(s.ids, s.client.store, sys);
    var root := s.client.GetCiId(Query(System, sys, Any));
    if root.Err? || root.value.None? { return Noted(t, node, "CMDB GetCIID system root"), Start; }
    var levels := s.client.GetLevels(root.value.value);
    if levels.Err? { return Noted(t, node, "CMDB GetSystemLevelRelations"), Start; }
    if levels.value == [] { return Noted(t, node, "CMDB system has no upper levels"), Start; }
    var uuid := s.newUuid(s.client.calls);
    var at := ReadLevels(levels.value);
    var row := NodeRow(sys, sysName, node, hint, s.admin, uuid, at);
    NodeRowFacts(sys, sysName, node, hint, s.admin, uuid, at);
    NodeCreated(s.ids, s.client.store, sys, node, s.admin, row);
    NodeDid(s.ids, s.client.store, sys, NodeCreate(sys, node, row));
    var res, applied := s.client.AddCi(SystemNode, row);
    if applied { log := Then(Start, NodeCreate(sys, node, row)); }
    st := if res.Err? then Noted(t, node, "CMDB AddCI system_node") else t.(added := t.added + 1);
  }

  /** A node that was created shows the cloud and location its name is split into. */
  predicate CreatedAt(log: Log, node: string, hint: string) {
    log.Then? && log.last.NodeCreate? ==> ShowsPlace(log.last.row, SplitNode(node, hint).0, SplitNode(node, hint).1)
  }

  /** A node that was created shows the name of its system and the administrator. */
  predicate CreatedFor(log: Log, sysName: string, admin: string) {
    log.Then? && log.last.NodeCreate? ==>
      Get(log.last.row, Attr("system_name")) == Str(sysName) && Get(log.last.row, AdminName) == Str(admin)
  }

  /** A node is created only under a system item with upper levels, and shows their names. */
  predicate CreatedUnder(log: Log, db: Store, sys: string, levels: nat -> seq<Level>) {
    log.Then? && log.last.NodeCreate? ==>
      var root := First(db, Query(System, sys, Any));
      root.Some? && levels(root.value) != [] && ShowsStanding(log.last.row, StandingOf(levels(root.value)))
  }

  /** The system has its item, with upper levels. */
  predicate Rooted(db: Store, sys: string, levels: nat -> seq<Level>) {
    var root := First(db, Query(System, sys, Any));
    root.Some? && levels(root.value) != []
  }

  /** One loop turn of `addCMDBSystemNodes`. */
  method AddNode(s: Syncer, sys: string, sysName: string, node: string, hint: string, t: Tally)
    returns (st: Tally, ghost log: Log)
    modifies s.client
    ensures Did(s.ids, old(s.client.store), log, s.client.store, sys, SystemNode)
    ensures NodeWrite(log, sys, node, s.admin)
    ensures st.errors >= t.errors
    ensures st.added + st.updated + st.skipped + st.errors == t.added + t.updated + t.skipped + t.errors + 1
    ensures st.errors == t.errors ==> NodeSettled(s.client.store, sys, node, s.admin)
    ensures NodeSettled(old(s.client.store), sys, node, s.admin) ==>
              s.client.store == old(s.client.store) && st.added == t.added && st.updated == t.updated
    ensures CreatedAt(log, node, hint) && CreatedUnder(log, old(s.client.store), sys, s.client.levels)
    ensures CreatedFor(log, sysName, s.admin)
    ensures s.client.Healthy() ==>
              (st.errors == t.errors <==> HasNode(old(s.client.store), sys, node) ||
                                          Rooted(old(s.client.store), sys, s.client.levels))
    ensures st.added > t.added ==> !HasNode(old(s.client.store), sys, node)
    ensures st.updated > t.updated || st.skipped > t.skipped ==> HasNode(old(s.client.store), sys, node)
  {
    var found := s.client.GetCiId(ByNode(SystemNode, sys, node));
    if found.Err? { return Noted(t, node, "CMDB GetCIID system_node"), Start; }
    if found.value.Some? {
      st, log := RefreshNode(s, sys, node, found.value.value, t);
    } else {
      st, log := CreateNode(s, sys, sysName, node, hint, t);
    }
  }

  /** No write, or one write about the given node. */
  predicate NodeWrite(log: Log, sys: string, node: string, admin: string) {
    || log.Start?
    || (&& log.prev.Start?
        && (|| (log.last.NodeCreate? && log.last.sys == sys && log.last.node == node)
            || (log.last.NodeRefresh? && log.last.sys == sys && log.last.node == node && log.last.admin == admin)))
  }

  lemma NodeRewritten(db: Store, sys: string, node: string, admin: string, id: nat)
    requires First(db, ByNode(SystemNode, sys, node)) == Some(id)
    ensures NodeSettled(Rewrite(db, id, AdminOnly(admin)), sys, node, admin)
  {
    RewriteWrites(db, id, AdminOnly(admin));
    var post := Rewrite(db, id, AdminOnly(admin));
    var q := ByNode(SystemNode, sys, node);
    WrittenElsewhere(db.cis[id].row, AdminOnly(admin), SystemId);
    WrittenElsewhere(db.cis[id].row, AdminOnly(admin), NodeName);
    assert forall j {:trigger Hit(post.cis[j], q)} :: j in post.cis && j != id ==>
      Hit(post.cis[j], q) == Hit(db.cis[j], q);
    FirstIs(post, q, id);
    WrittenIsSettled(db.cis[id].row, AdminOnly(admin));
  }

  lemma NodeRowFacts(sys: string, sysName: string, node: string, hint: string, admin: string, uuid: string,
                     at: Standing)
    ensures var row := NodeRow(sys, sysName, node, hint, admin, uuid, at);
            && ScalarRow(row) && Get(row, SystemId) == Str(sys) && Get(row, NodeName) == Str(node)
            && Get(row, AdminName) == Str(admin) && Get(row, Attr("system_name")) == Str(sysName)
            && ShowsPlace(row, SplitNode(node, hint).0, SplitNode(node, hint).1) && ShowsStanding(row, at)
  {
    hide SplitNode;
  }

  lemma NodeCreated(ids: IdScheme, db: Store, sys: string, node: string, admin: string, row: Row)
    requires First(db, ByNode(SystemNode, sys, node)).None? && ScalarRow(row)
    requires Get(row, SystemId) == Str(sys) && Get(row, NodeName) == Str(node) && Get(row, AdminName) == Str(admin)
    ensures NodeSettled(Added(db, SystemNode, row), sys, node, admin) && Enabled(ids, db, NodeCreate(sys, node, row))
  {
    hide ScalarRow, EncodeRow;
    var q := ByNode(SystemNode, sys, node);
    ScalarRowEncodes(row);
    var post := Added(db, SystemNode, row);
    assert forall j {:trigger Hit(post.cis[j], q)} :: j in post.cis && j != db.next ==>
      Hit(post.cis[j], q) == Hit(db.cis[j], q);
    FirstIs(post, q, db.next);
  }

  /** A write about one node leaves the others settled. */
  lemma NodeStable(ids: IdScheme, db: Store, log: Log, sys: string, node: string, other: string, admin: string)
    requires NodeSettled(db, sys, node, admin) && node != other
    requires Legal(ids, db, log) && NodeWrite(log, sys, other, admin)
    ensures NodeSettled(Run(db, log), sys, node, admin)
  {
    if log.Then? {
      var q := ByNode(SystemNode, sys, node);
      var i := First(db, q).value;
      match log.last
      case NodeCreate(_, _, row) =>
        ScalarRowEncodes(row);
        FirstIs(Run(db, log), q, i);
      case NodeRefresh(_, _, _, id) =>
        RewriteWrites(db, id, AdminOnly(admin));
        WrittenElsewhere(db.cis[id].row, AdminOnly(admin), NodeName);
        FirstIs(Run(db, log), q, i);
    }
  }

  /** `addCMDBSystemNodes`: the map is walked in any order. */
  method AddSystemNodes(s: Syncer, sys: string, sysName: string, nodes: map<string, string>)
    returns (st: Tally, ghost log: Log)
    modifies s.client
    ensures Did(s.ids, old(s.client.store), log, s.client.store, sys, SystemNode)
    ensures Every(log, GroundedIn(old(s.client.store)))
    ensures st.added + st.updated + st.skipped + st.errors == |nodes|
    ensures st.errors == 0 ==> forall n :: n in nodes ==> NodeSettled(s.client.store, sys, n, s.admin)
    ensures st.errors == 0 ==> forall n :: n in nodes ==> AdminShown(s.client.store, sys, n, s.admin)
    ensures (forall n :: n in nodes ==> NodeSettled(old(s.client.store), sys, n, s.admin)) ==>
              s.client.store == old(s.client.store) && st.added == 0 && st.updated == 0
    ensures s.client.Healthy() && Rooted(old(s.client.store), sys, s.client.levels) ==> st.errors == 0
  {
    hide NodeSettled, AdminShown, NodeWrite, CreatedAt, CreatedUnder, Enabled, Do, Rooted, HasNode;
    st, log := ZERO, Start;
    ghost var db := s.client.store;
    var keys := nodes.Keys;
    while keys != {}
      invariant keys <= nodes.Keys
      invariant Did(s.ids, db, log, s.client.store, sys, SystemNode) && Every(log, GroundedIn(db))
      invariant st.added + st.updated + st.skipped + st.errors == |nodes| - |keys|
      invariant s.client.Healthy() && Rooted(db, sys, s.client.levels) ==> st.errors == 0
      invariant st.errors == 0 ==>
                  forall n :: n in nodes && n !in keys ==> NodeSettled(s.client.store, sys, n, s.admin)
      invariant (forall n :: n in nodes ==> NodeSettled(db, sys, n, s.admin)) ==>
                  s.client.store == db && st.added == 0 && st.updated == 0
    {
      var n :| n in keys;
      ghost var mid, one := s.client.store, Start;
      StillRooted(s.ids, db, log, mid, sys, s.client.levels);
      st, one := AddNode(s, sys, sysName, n, nodes[n], st);
      forall o | o in nodes && o !in keys && NodeSettled(mid, sys, o, s.admin)
        ensures NodeSettled(s.client.store, sys, o, s.admin)
      {
        NodeStable(s.ids, mid, one, sys, o, n, s.admin);
      }
      log := NodesAppend(s.ids, db, log, mid, one, s.client.store, sys, n, s.admin);
      keys := keys - {n};
    }
    forall n | n in nodes && NodeSettled(s.client.store, sys, n, s.admin)
      ensures AdminShown(s.client.store, sys, n, s.admin)
    {
      SettledShowsAdmin(s.client.store, sys, n, s.admin);
    }
  }

  /** Node writes leave the system's own item alone. */
  lemma StillRooted(ids: IdScheme, db: Store, log: Log, post: Store, sys: string, levels: nat -> seq<Level>)
    requires Did(ids, db, log, post, sys, SystemNode)
    ensures Rooted(post, sys, levels) <==> Rooted(db, sys, levels)
  {
    OtherKinds(ids, db, log, SystemNode, System);
    FirstSame(db, post, Query(System, sys, Any));
  }

  lemma NodesAppend(ids: IdScheme, db: Store, log: Log, mid: Store, one: Log, post: Store, sys: string,
                    node: string, admin: string) returns (all: Log)
    requires Did(ids, db, log, mid, sys, SystemNode) && Every(log, GroundedIn(db))
    requires Did(ids, mid, one, post, sys, SystemNode) && NodeWrite(one, sys, node, admin)
    ensures Did(ids, db, all, post, sys, SystemNode) && Every(all, GroundedIn(db))
  {
    all := Append(log, one);
    RunAppend(ids, db, log, one);
  }
}
