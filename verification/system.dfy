/** One full synchronisation of a system: nodes, the inventory kinds, the firewall bindings. */
module SystemSync {
  import opened Text
  import opened Values
  import opened Rows
  import opened Remote
  import opened Ids
  import opened Events
  import opened Safety
  import opened Records
  import opened Upsert
  import opened Stats
  import opened Passes
  import opened Nodes
  import opened Codec
  import opened Domains
  import opened DomainRuns
  import opened Inventories
  import opened Group
  import Apply
  import Bind
  import Patch
  import Presence

  const INVENTORY: set<Kind> := {K8sCluster, Server, MiddleSoftware, EIP, ELB}

  /** What a run is asked to bring the CMDB to; `waf` is off when no firewall account is configured. */
  datatype Job = Job(ids: IdScheme, sys: string, admin: string, l: Lists, waf: bool,
                     byEip: map<string, seq<string>>, byNode: map<string, seq<string>>)

  /** Every listed resource's node has its CI, and the CI shows the administrator. */
  ghost predicate NodesTidy(j: Job, db: Store) {
    forall p :: p in Places(j.l) ==> NodeSettled(db, j.sys, NodeOf(p), j.admin)
  }

  /** The records of the kinds in `done` are all settled. */
  ghost predicate Tidy(j: Job, db: Store, done: set<Kind>) {
    forall k {:trigger Whole(j, db, k)} :: k in done ==> Whole(j, db, k)
  }

  /** The records of one kind are settled. */
  ghost predicate Whole(j: Job, db: Store, k: Kind) {
    SettledAll(db, k, j.sys, RecsOf(j.ids, j.sys, j.l, k))
  }

  /** What the lists repeat under one uuid agrees with itself. */
  ghost predicate Harmonious(j: Job, db: Store) {
    forall k {:trigger Harmony(db, k, RecsOf(j.ids, j.sys, j.l, k))} ::
      k in INVENTORY ==> Harmony(db, k, RecsOf(j.ids, j.sys, j.l, k))
  }

  lemma HarmoniousLater(j: Job, db: Store, log: Log, now: Store)
    requires Went(j.ids, db, log, now, j.sys)
    ensures Harmonious(j, db) ==> Harmonious(j, now)
  {
    hide Harmony;
    forall k | Harmonious(j, db) && k in INVENTORY ensures Harmony(now, k, RecsOf(j.ids, j.sys, j.l, k)) {
      HarmonyRun(db, log, k, RecsOf(j.ids, j.sys, j.l, k));
    }
  }

  /** What a kind's lists leave over only shrinks, and halves in an error-free step. */
  ghost predicate Shrunk(j: Job, db: Store, now: Store, k: Kind, swept: bool) {
    var was, left := Leftover(j.ids, db, k, j.sys, j.l), Leftover(j.ids, now, k, j.sys, j.l);
    left <= was && (swept && KeepSet(j.ids, j.l, k) != {} ==> 2 * |left| <= |was|)
  }

  ghost predicate AllShrunk(j: Job, db: Store, now: Store, swept: set<Kind>) {
    forall k {:trigger Shrunk(j, db, now, k, k in swept)} :: k in INVENTORY ==> Shrunk(j, db, now, k, k in swept)
  }

  lemma ShrunkTurn(j: Job, db: Store, mid: Store, one: Log, post: Store, k: Kind, swept: set<Kind>, clean: bool)
    requires AllShrunk(j, db, mid, swept) && k in INVENTORY && k !in swept
    requires Did(j.ids, mid, one, post, j.sys, k) && Shrunk(j, mid, post, k, clean)
    ensures AllShrunk(j, db, post, swept + if clean then {k} else {})
    ensures AllShrunk(j, db, post, {})
  {
    hide Leftover, KeepSet, Did, AgreeOn;
    forall o | o in INVENTORY
      ensures Shrunk(j, db, post, o, o in swept + if clean then {k} else {}) && Shrunk(j, db, post, o, false)
    {
      assert Shrunk(j, db, mid, o, o in swept);
      if o == k {
        Fewer(Leftover(j.ids, mid, k, j.sys, j.l), Leftover(j.ids, db, k, j.sys, j.l));
      } else {
        OtherKind(j, mid, one, post, k, o);
        LeftoverSame(j.ids, mid, post, o, j.sys, j.l);
      }
    }
  }

  lemma OtherKind(j: Job, db: Store, log: Log, post: Store, k: Kind, o: Kind)
    requires Did(j.ids, db, log, post, j.sys, k) && o != k
    ensures AgreeOn(db, post, o)
  {
    OtherKinds(j.ids, db, log, k, o);
  }

  /** The inventory items are the same in both states, up to the firewall's column. */
  ghost predicate InventoryAgrees(db: Store, post: Store) {
    forall k {:trigger AgreeOn(db, post, k)} :: k in INVENTORY ==> AgreeOn(db, post, k)
  }

  lemma NothingAgrees(db: Store)
    ensures InventoryAgrees(db, db)
  {}

  /** Steps that write no inventory item, or only the firewall's column, change nothing about this. */
  lemma ShrunkStays(j: Job, db: Store, mid: Store, post: Store, swept: set<Kind>)
    requires AllShrunk(j, db, mid, swept) && InventoryAgrees(mid, post)
    ensures AllShrunk(j, db, post, swept) && AllShrunk(j, db, post, {})
  {
    hide Leftover, KeepSet, AgreeOn;
    forall k | k in INVENTORY ensures Shrunk(j, db, post, k, k in swept) && Shrunk(j, db, post, k, false) {
      assert Shrunk(j, db, mid, k, k in swept);
      LeftoverSame(j.ids, mid, post, k, j.sys, j.l);
    }
  }

  lemma NothingShrunk(j: Job, db: Store)
    ensures AllShrunk(j, db, db, {})
  {
    hide Leftover, KeepSet;
    forall k | k in INVENTORY ensures Shrunk(j, db, db, k, k in {}) {}
  }

  /** The firewall step would write nothing. */
  ghost predicate WafQuiet(j: Job, db: Store) {
    j.waf ==>
      && Patch.Quiet(db, j.sys, Patch.EipKeys(j.ids, j.l.eips), j.byEip)
      && Apply.AllQuiet(db, j.sys, Apply.NodeKeys(j.l.eips), j.byNode)
  }

  lemma TidyNodesExist(j: Job, db: Store)
    requires NodesTidy(j, db)
    ensures AllNodes(db, j.sys, j.l)
  {}

  // ---------- what survives writes to other kinds ----------

  lemma NodeSettledSame(db: Store, post: Store, sys: string, node: string, admin: string)
    requires NodeSettled(db, sys, node, admin) && SameOn(db, post, SystemNode)
    ensures NodeSettled(post, sys, node, admin)
  {
    FirstSame(db, post, ByNode(SystemNode, sys, node));
  }

  lemma NodesTidySame(j: Job, db: Store, post: Store)
    requires NodesTidy(j, db) && SameOn(db, post, SystemNode)
    ensures NodesTidy(j, post)
  {
    forall p | p in Places(j.l) ensures NodeSettled(post, j.sys, NodeOf(p), j.admin) {
      NodeSettledSame(db, post, j.sys, NodeOf(p), j.admin);
    }
  }

  lemma KindSame(j: Job, db: Store, post: Store, k: Kind)
    requires Whole(j, db, k) && AgreeOn(db, post, k)
    ensures Whole(j, post, k)
  {
    RecsSound(j.ids, j.sys, j.l, k);
    var rs := RecsOf(j.ids, j.sys, j.l, k);
    forall i | 0 <= i < |rs| ensures Settled(post, k, j.sys, rs[i]) {
      SettledAgrees(j.ids, db, post, k, j.sys, rs[i]);
    }
  }

  /** Writes to one kind leave the other kinds tidy. */
  lemma TidySame(j: Job, db: Store, log: Log, post: Store, k: Kind, done: set<Kind>)
    requires Did(j.ids, db, log, post, j.sys, k) && Tidy(j, db, done) && k !in done
    ensures Tidy(j, post, done)
  {
    forall o | o in done ensures Whole(j, post, o) {
      assert Whole(j, db, o);
      OtherKinds(j.ids, db, log, k, o);
      KindSame(j, db, post, o);
    }
  }

  lemma WritesSame(db: Store, post: Store, sys: string, key: string, want: seq<string>)
    requires SameOn(db, post, EIP)
    ensures Patch.Writes(post, sys, key, want) == Patch.Writes(db, sys, key, want)
  {
    FirstSame(db, post, ByUuid(EIP, sys, key));
  }

  lemma AllQuietSame(j: Job, db: Store, post: Store)
    requires SameOn(db, post, Domain) && SameOn(db, post, SystemNode)
    ensures Apply.AllQuiet(post, j.sys, Apply.NodeKeys(j.l.eips), j.byNode) <==>
            Apply.AllQuiet(db, j.sys, Apply.NodeKeys(j.l.eips), j.byNode)
  {
    hide Apply.NodeQuiet, SameOn;
    forall n | n in Apply.NodeKeys(j.l.eips)
      ensures Apply.NodeQuiet(post, j.sys, n, Patch.Bound(j.byNode, n)) <==>
              Apply.NodeQuiet(db, j.sys, n, Patch.Bound(j.byNode, n))
    {
      Apply.NodeSame(db, post, j.sys, n);
      Apply.SameGoes(db, post, j.sys, n, Patch.Bound(j.byNode, n));
    }
  }

  /** The firewall step stays quiet under writes to other kinds. */
  lemma WafQuietSame(j: Job, db: Store, log: Log, post: Store, k: Kind)
    requires Did(j.ids, db, log, post, j.sys, k) && k != EIP && k != Domain && k != SystemNode
    ensures WafQuiet(j, post) <==> WafQuiet(j, db)
  {
    hide Patch.Writes, SameOn, AgreeOn, Legal, Every;
    OtherKinds(j.ids, db, log, k, EIP);
    OtherKinds(j.ids, db, log, k, Domain);
    OtherKinds(j.ids, db, log, k, SystemNode);
    AllQuietSame(j, db, post);
    forall key | key in Patch.EipKeys(j.ids, j.l.eips)
      ensures Patch.Writes(post, j.sys, key, Patch.Bound(j.byEip, key)) ==
              Patch.Writes(db, j.sys, key, Patch.Bound(j.byEip, key))
    {
      WritesSame(db, post, j.sys, key, Patch.Bound(j.byEip, key));
    }
  }

  // ---------- what survives the reconciliation of EIPs ----------

  /** No EIP id is cut right behind a space. */
  predicate CleanKeys(ids: IdScheme, eips: seq<Option<Eip>>) {
    forall e :: e in eips && e.Some? ==> Trimmed(EipKey(ids, e.value.id))
  }

  lemma {:induction false} EipKeyFrom(ids: IdScheme, eips: seq<Option<Eip>>, key: string) returns (i: nat)
    requires key in Patch.EipKeys(ids, eips)
    ensures i < |eips| && eips[i].Some? && EipKey(ids, eips[i].value.id) == key
    decreases |eips|
  {
    var init, last := eips[..|eips| - 1], eips[|eips| - 1];
    if key in Patch.EipKeys(ids, init) { i := EipKeyFrom(ids, init, key); }
    else { i := |eips| - 1; }
  }

  /** A key denotes the resource of its id, if there is one: what is long enough to be cut is no uuid,
      cut or not. */
  lemma KeyParses(ids: IdScheme, raw: string)
    requires Trimmed(EipKey(ids, raw))
    ensures CloudUuid(ids, EipKey(ids, raw)) == CloudUuid(ids, raw)
  {
    var t, key := Trim(raw), EipKey(ids, raw);
    assert Trim(key) == key;
    if t != "" && ids.parse(t).Some? { CanonRoundTrip(ids, ids.parse(t).value); }
    else if |t| > MAX_KEY { assert |key| == MAX_KEY && ids.parse(key).None?; }
  }

  lemma KeepHas(ids: IdScheme, l: Lists, i: nat)
    requires i < |l.eips| && l.eips[i].Some? && CloudUuid(ids, l.eips[i].value.id).Some?
    ensures CloudUuid(ids, l.eips[i].value.id).value in KeepSet(ids, l, EIP)
  {
    hide CloudUuid;
    var raw := l.eips[i].value.id;
    assert RawIds(l, EIP)[i] == raw && raw in RawIds(l, EIP);
    assert Canon(ids, EIP)(raw) == CloudUuid(ids, raw);
  }

  lemma KeptUuid(ids: IdScheme, row: Row, key: string, keep: set<string>)
    requires Get(row, Uuid) == Str(key) && (CloudUuid(ids, key).Some? ==> CloudUuid(ids, key).value in keep)
    ensures !Orphan(ids, row, keep, Types(EIP))
  {
    hide CloudUuid;
  }

  /** An item that a listed EIP's key finds is no orphan of the list. */
  lemma KeyNotStray(j: Job, db: Store, key: string, id: nat)
    requires CleanKeys(j.ids, j.l.eips) && key in Patch.EipKeys(j.ids, j.l.eips)
    requires id in db.cis && Hit(db.cis[id], ByUuid(EIP, j.sys, key))
    ensures !Orphan(j.ids, db.cis[id].row, KeepSet(j.ids, j.l, EIP), Types(EIP))
  {
    hide EipKey, CloudUuid, KeepSet, Orphan, Types;
    var i := EipKeyFrom(j.ids, j.l.eips, key);
    assert j.l.eips[i] in j.l.eips;
    KeyParses(j.ids, j.l.eips[i].value.id);
    if CloudUuid(j.ids, key).Some? { KeepHas(j.ids, j.l, i); }
    KeptUuid(j.ids, db.cis[id].row, key, KeepSet(j.ids, j.l, EIP));
  }

  lemma EipCutQuiet(j: Job, db: Store, gone: set<nat>)
    requires CleanKeys(j.ids, j.l.eips) && Strays(j.ids, db, EIP, j.sys, j.l, gone) && WafQuiet(j, db)
    ensures WafQuiet(j, Cut(db, gone))
  {
    var post := Cut(db, gone);
    if j.waf {
      forall key | key in Patch.EipKeys(j.ids, j.l.eips)
        ensures Patch.Writes(post, j.sys, key, Patch.Bound(j.byEip, key)) ==
              Patch.Writes(db, j.sys, key, Patch.Bound(j.byEip, key))
      {
        FirstKept(j, db, gone, key);
      }
      StraysAreEips(j, db, gone);
      AllQuietSame(j, db, post);
    }
  }

  lemma FirstKept(j: Job, db: Store, gone: set<nat>, key: string)
    requires CleanKeys(j.ids, j.l.eips) && Strays(j.ids, db, EIP, j.sys, j.l, gone)
              && key in Patch.EipKeys(j.ids, j.l.eips)
    ensures First(Cut(db, gone), ByUuid(EIP, j.sys, key)) == First(db, ByUuid(EIP, j.sys, key))
    ensures First(db, ByUuid(EIP, j.sys, key)).Some? ==> First(db, ByUuid(EIP, j.sys, key)).value !in gone
  {
    var q := ByUuid(EIP, j.sys, key);
    match First(db, q)
    case Some(i) =>
      KeyNotStray(j, db, key, i);
      FirstIs(Cut(db, gone), q, i);
    case None =>
      assert First(Cut(db, gone), q).None?;
  }

  lemma StraysAreEips(j: Job, db: Store, gone: set<nat>)
    requires Strays(j.ids, db, EIP, j.sys, j.l, gone)
    ensures SameOn(db, Cut(db, gone), Domain) && SameOn(db, Cut(db, gone), SystemNode)
  {}

  // ---------- the steps of a run ----------

  /** A legal run within one system. */
  ghost predicate Went(ids: IdScheme, db: Store, log: Log, post: Store, sys: string) {
    Legal(ids, db, log) && post == Run(db, log) && Every(log, InSystem(sys))
  }

  lemma WentOn(ids: IdScheme, db: Store, log: Log, mid: Store, one: Log, post: Store, sys: string) returns (all: Log)
    requires Went(ids, db, log, mid, sys) && Went(ids, mid, one, post, sys)
    ensures Went(ids, db, all, post, sys)
  {
    all := Append(log, one);
    RunAppend(ids, db, log, one);
    EveryAppend(log, one, InSystem(sys));
  }

  /** The run's client and parameters. */
  ghost predicate For(j: Job, s: Syncer) {
    j.ids == s.ids && j.admin == s.admin && Trimmed(j.sys) && j.sys != ""
  }

  /** The node step: collect the node names of all lists, then make sure of their CIs. */
  method NodeStep(s: Syncer, sys: string, sysName: string, l: Lists, ghost j: Job) returns (st: Tally, ghost log: Log)
    requires For(j, s) && j.sys == sys && j.l == l
    modifies s.client
    ensures Did(s.ids, old(s.client.store), log, s.client.store, sys, SystemNode)
    ensures NoNewStray(old(s.client.store), s.client.store)
    ensures st.errors == 0 ==> NodesTidy(j, s.client.store)
    ensures NodesTidy(j, old(s.client.store)) ==>
              s.client.store == old(s.client.store) && st.added == 0 && st.updated == 0
    ensures s.client.Healthy() && Rooted(old(s.client.store), sys, s.client.levels) ==> st.errors == 0
  {
    ghost var db := s.client.store;
    var nodes := MergeNodeKeys(map[], Places(l));
    st, log := AddSystemNodes(s, sys, sysName, nodes);
    GroundedFromStart(s.ids, db, log);
    StraysRun(s.ids, db, log);
  }

  /** The step of one inventory kind, and what it keeps. */
  method KindStep(s: Syncer, k: Kind, sys: string, l: Lists, ghost j: Job, ghost done: set<Kind>)
    returns (st: Tally, ghost log: Log)
    requires For(j, s) && j.sys == sys && j.l == l && k in INVENTORY
    modifies s.client
    ensures Did(s.ids, old(s.client.store), log, s.client.store, sys, k)
    ensures AllNodes(old(s.client.store), sys, l) ==> NoNewStray(old(s.client.store), s.client.store)
    ensures NodesTidy(j, old(s.client.store)) ==> NodesTidy(j, s.client.store)
    ensures Shrunk(j, old(s.client.store), s.client.store, k, st.errors == 0)
    ensures st.errors == 0 && Harmonious(j, old(s.client.store)) && k !in done && Tidy(j, old(s.client.store), done) ==>
              Tidy(j, s.client.store, done + {k})
    ensures Tidy(j, old(s.client.store), INVENTORY) ==>
              st.added == 0 && st.updated == 0 && Tidy(j, s.client.store, INVENTORY)
    ensures Tidy(j, old(s.client.store), INVENTORY) && CleanKeys(s.ids, l.eips) && WafQuiet(j, old(s.client.store)) ==>
              WafQuiet(j, s.client.store)
    ensures s.client.Healthy() ==> (st.errors == 0 <==> Presence.Identified(s.ids, l, k))
  {
    hide Presence.Identified, NoneRejected, Cands, Harmony, Legal, Every, Run, SettledAll, AgreeOn, SameOn, NodesTidy,
      NoNewStray, AllNodes, WafQuiet, RecsOf, Strays, CleanKeys, NodeSettled, Leftover, KeepSet;
    ghost var db, gone := s.client.store, {};
    st, log, gone := SyncKind(s, k, sys, l);
    ghost var post := s.client.store;
    if AllNodes(db, sys, l) { GroundedFromStart(s.ids, db, log); StraysRun(s.ids, db, log); }
    OtherKinds(s.ids, db, log, k, SystemNode);
    assert Tidy(j, db, INVENTORY) ==> Whole(j, db, k);
    if NodesTidy(j, db) { NodesTidySame(j, db, post); }
    KindTidy(j, db, log, post, k, done, st.errors == 0);
    if Tidy(j, db, INVENTORY) { KindRest(j, db, log, post, k, gone); }
    Presence.NoneRejectedIff(s.ids, sys, l, k);
  }

  lemma KindTidy(j: Job, db: Store, log: Log, post: Store, k: Kind, done: set<Kind>, ok: bool)
    requires Did(j.ids, db, log, post, j.sys, k) && k in INVENTORY
    requires ok && Harmony(db, k, RecsOf(j.ids, j.sys, j.l, k)) ==> Whole(j, post, k)
    ensures ok && Harmonious(j, db) && k !in done && Tidy(j, db, done) ==> Tidy(j, post, done + {k})
  {
    if ok && Harmonious(j, db) && k !in done && Tidy(j, db, done) { TidySame(j, db, log, post, k, done); }
  }

  /** A step over settled records only deletes orphans, and disturbs nothing. */
  lemma KindRest(j: Job, db: Store, log: Log, post: Store, k: Kind, gone: set<nat>)
    requires Did(j.ids, db, log, post, j.sys, k) && k in INVENTORY && Tidy(j, db, INVENTORY)
    requires Whole(j, post, k)
    requires post == Cut(db, gone) && Strays(j.ids, db, k, j.sys, j.l, gone)
    ensures Tidy(j, post, INVENTORY)
    ensures CleanKeys(j.ids, j.l.eips) && WafQuiet(j, db) ==> WafQuiet(j, post)
  {
    TidySame(j, db, log, post, k, INVENTORY - {k});
    if CleanKeys(j.ids, j.l.eips) && WafQuiet(j, db) {
      if k == EIP { EipCutQuiet(j, db, gone); } else { WafQuietSame(j, db, log, post, k); }
    }
  }

  // ---------- the firewall step ----------

  /** What the binding tables hold for the listed EIPs. */
  ghost predicate Binds(j: Job, rows: seq<Option<Bind.WafRow>>, accounts: seq<string>) {
    var ps := Bind.Pairs(j.ids, Bind.Allowed(accounts), rows, j.l.eips);
    && j.waf == (accounts != [])
    && j.byEip == Bind.Bound(j.ids, Bind.ByEip, ps) && j.byNode == Bind.Bound(j.ids, Bind.ByNode, ps)
  }

  /** No bound domain holds a separator, and no unwanted domain of a listed node has two items. */
  ghost predicate Tame(j: Job, db: Store) {
    && (forall key :: key in Patch.EipKeys(j.ids, j.l.eips) ==> SeparatorFree(Patch.Bound(j.byEip, key)))
    && (forall n {:trigger n in Apply.NodeKeys(j.l.eips)} :: n in Apply.NodeKeys(j.l.eips) ==>
          FewTexts(db, NodeDomains(j.sys, n), Patch.Bound(j.byNode, n)))
  }

  ghost predicate FewTexts(db: Store, q: Query, want: seq<string>) {
    forall text {:trigger Holders(db, q, text)} :: text != "" && text !in want ==> |Holders(db, q, text)| <= 1
  }

  lemma TameSame(j: Job, db: Store, post: Store)
    requires Tame(j, db) && SameOn(db, post, Domain)
    ensures Tame(j, post)
  {
    forall n | n in Apply.NodeKeys(j.l.eips) ensures FewTexts(post, NodeDomains(j.sys, n), Patch.Bound(j.byNode, n)) {
      var q := NodeDomains(j.sys, n);
      forall text | text != "" && text !in Patch.Bound(j.byNode, n) ensures |Holders(post, q, text)| <= 1 {
        assert Holders(post, q, text) == Holders(db, q, text);
      }
    }
  }

  /** When one firewall step is enough: it writes no list with a separator, and no node it brings in
      line has two items for an unwanted domain. */
  ghost predicate WafFits(j: Job, db: Store) {
    j.waf ==>
      && (forall key {:trigger Patch.Writes(db, j.sys, key, Patch.Bound(j.byEip, key))} ::
            key in Patch.EipKeys(j.ids, j.l.eips) && Patch.Writes(db, j.sys, key, Patch.Bound(j.byEip, key)) ==>
              SeparatorFree(Patch.Bound(j.byEip, key)))
      && (forall n {:trigger n in Apply.NodeKeys(j.l.eips)} :: n in Apply.NodeKeys(j.l.eips) ==> NodeFits(j, db, n))
  }

  ghost predicate NodeFits(j: Job, db: Store, n: string) {
    Proceeds(db, j.sys, n, Patch.Bound(j.byNode, n)) ==> FewTexts(db, NodeDomains(j.sys, n), Patch.Bound(j.byNode, n))
  }

  lemma TameFits(j: Job, db: Store)
    requires Tame(j, db)
    ensures WafFits(j, db)
  {
    hide FewTexts, SeparatorFree, Proceeds;
  }

  lemma NodeFitsSame(j: Job, db: Store, post: Store, n: string)
    requires Apply.SameNode(db, post, j.sys, n)
    ensures NodeFits(j, post, n) <==> NodeFits(j, db, n)
  {
    hide Holders;
    Apply.SameGoes(db, post, j.sys, n, Patch.Bound(j.byNode, n));
    forall text ensures Holders(post, NodeDomains(j.sys, n), text) == Holders(db, NodeDomains(j.sys, n), text) {}
  }

  /** Where an error-free firewall step leaves the store, another one writes nothing exactly if the
      step fitted. */
  lemma WafSettles(j: Job, db: Store, patches: Log, mid: Store, domains: Log, post: Store)
    requires Did(j.ids, db, patches, mid, j.sys, EIP) && Did(j.ids, mid, domains, post, j.sys, Domain)
    requires mid == Patch.PatchedAll(db, j.sys, Patch.EipKeys(j.ids, j.l.eips), j.byEip)
    requires Apply.NodesUpTo(mid, post, j.sys, Apply.NodeKeys(j.l.eips), j.byNode)
    ensures WafQuiet(j, post) <==> WafFits(j, db)
  {
    hide SeparatorFree, SameOn, Did, Patch.PatchedAll, Patch.Writes, NodeFits, Apply.NodeQuiet;
    Patch.PatchesSettle(j.ids, db, j.sys, j.l.eips, j.byEip);
    PatchesLater(j, mid, domains, post);
    forall n | n in Apply.NodeKeys(j.l.eips)
      ensures Apply.NodeQuiet(post, j.sys, n, Patch.Bound(j.byNode, n)) <==> NodeFits(j, db, n)
    {
      NodeSettles(j, db, patches, mid, domains, post, n);
    }
  }

  lemma PatchesLater(j: Job, mid: Store, domains: Log, post: Store)
    requires Did(j.ids, mid, domains, post, j.sys, Domain)
    ensures Patch.Quiet(post, j.sys, Patch.EipKeys(j.ids, j.l.eips), j.byEip) <==>
            Patch.Quiet(mid, j.sys, Patch.EipKeys(j.ids, j.l.eips), j.byEip)
  {
    hide Patch.Writes, SameOn;
    OtherKinds(j.ids, mid, domains, Domain, EIP);
    forall key | key in Patch.EipKeys(j.ids, j.l.eips)
      ensures Patch.Writes(post, j.sys, key, Patch.Bound(j.byEip, key)) ==
              Patch.Writes(mid, j.sys, key, Patch.Bound(j.byEip, key))
    {
      WritesSame(mid, post, j.sys, key, Patch.Bound(j.byEip, key));
    }
  }

  lemma NodeSettles(j: Job, db: Store, patches: Log, mid: Store, domains: Log, post: Store, n: string)
    requires Did(j.ids, db, patches, mid, j.sys, EIP) && Did(j.ids, mid, domains, post, j.sys, Domain)
    requires Apply.NodesUpTo(mid, post, j.sys, Apply.NodeKeys(j.l.eips), j.byNode) && n in Apply.NodeKeys(j.l.eips)
    ensures Apply.NodeQuiet(post, j.sys, n, Patch.Bound(j.byNode, n)) <==> NodeFits(j, db, n)
  {
    hide SameOn, AgreeOn;
    OtherKinds(j.ids, db, patches, EIP, Domain);
    OtherKinds(j.ids, db, patches, EIP, SystemNode);
    Apply.NodeSame(db, mid, j.sys, n);
    NodeFitsSame(j, db, mid, n);
    Apply.NodesStay(j.ids, mid, domains, post, j.sys, n);
    Apply.QuietAfter(mid, post, j.sys, n, Patch.Bound(j.byNode, n));
  }

  /** Patches and domain writes leave nodes and inventory records tidy. */
  lemma WafKeeps(j: Job, db: Store, patches: Log, mid: Store, domains: Log, post: Store, done: set<Kind>)
    requires Did(j.ids, db, patches, mid, j.sys, EIP) && Patch.PatchesOnly(patches)
    requires Did(j.ids, mid, domains, post, j.sys, Domain) && done <= INVENTORY
    ensures NodesTidy(j, db) ==> NodesTidy(j, post)
    ensures Tidy(j, db, done) ==> Tidy(j, post, done)
  {
    hide SameOn, AgreeOn, NodesTidy, Whole, Legal, Every;
    OtherKinds(j.ids, db, patches, EIP, SystemNode);
    OtherKinds(j.ids, mid, domains, Domain, SystemNode);
    if NodesTidy(j, db) { NodesTidySame(j, db, mid); NodesTidySame(j, mid, post); }
    if Tidy(j, db, done) {
      TidySame(j, db, patches, mid, EIP, done - {EIP});
      if EIP in done {
        assert Whole(j, db, EIP);
        Patch.PatchesAgree(j.ids, db, patches);
        KindSame(j, db, mid, EIP);
      }
      TidySame(j, mid, domains, post, Domain, done);
    }
  }

  lemma WafAgrees(j: Job, db: Store, patches: Log, mid: Store, domains: Log, post: Store)
    requires Did(j.ids, db, patches, mid, j.sys, EIP) && Patch.PatchesOnly(patches)
    requires Did(j.ids, mid, domains, post, j.sys, Domain)
    ensures InventoryAgrees(db, post)
  {
    hide AgreeOn, Every, SameOn;
    Patch.PatchesAgree(j.ids, db, patches);
    forall k | k in INVENTORY ensures AgreeOn(db, post, k) {
      if k != EIP { OtherKinds(j.ids, db, patches, EIP, k); }
      OtherKinds(j.ids, mid, domains, Domain, k);
      AgreeTwice(db, mid, post, k);
    }
  }

  lemma {:induction false} WafHoused(ids: IdScheme, db: Store, log: Log)
    requires Legal(ids, db, log) && (Patch.PatchesOnly(log) || Every(log, OfKind(Domain)))
    ensures HousedAlong(db, log)
  {
    if log.Then? { WafHoused(ids, db, log.prev); }
  }

  lemma WafLogged(ids: IdScheme, db: Store, patches: Log, mid: Store, domains: Log, post: Store, sys: string)
    returns (all: Log)
    requires Did(ids, db, patches, mid, sys, EIP) && Patch.PatchesOnly(patches)
              && Did(ids, mid, domains, post, sys, Domain)
    ensures Went(ids, db, all, post, sys) && NoNewStray(db, post)
  {
    all := Append(patches, domains);
    RunAppend(ids, db, patches, domains);
    EveryAppend(patches, domains, InSystem(sys));
    WafHoused(ids, db, patches);
    StraysRun(ids, db, patches);
    WafHoused(ids, mid, domains);
    StraysRun(ids, mid, domains);
    NoStrayTwice(db, mid, post);
  }

  /** No listed host name holds a separator of domain lists. */
  ghost predicate PlainRows(rows: seq<Option<Bind.WafRow>>) {
    forall row :: Some(row) in rows ==> ',' !in row.host && '、' !in row.host
  }

  /** The EIP item found under a key shows exactly the hosts of the rows that meet an EIP of that key. */
  ghost predicate HostsShown(ids: IdScheme, db: Store, sys: string, allowed: set<string>,
                             rows: seq<Option<Bind.WafRow>>, eips: seq<Option<Eip>>, key: string) {
    var t := First(db, ByUuid(EIP, sys, key));
    t.Some? ==> forall d {:trigger d in ParseDomains(Get(db.cis[t.value].row, DomainName))} ::
      d in ParseDomains(Get(db.cis[t.value].row, DomainName)) <==>
      Bind.HostUnder(ids, Bind.ByEip, allowed, rows, eips, key, d)
  }

  /** The node has a domain item for the host of each such row, and one item less than before for every
      other text. */
  ghost predicate HostsHeld(ids: IdScheme, db: Store, now: Store, sys: string, allowed: set<string>,
                            rows: seq<Option<Bind.WafRow>>, eips: seq<Option<Eip>>, node: string) {
    forall text {:trigger Holders(now, NodeDomains(sys, node), text)} :: text != "" ==>
      var was, held := Holders(db, NodeDomains(sys, node), text), Holders(now, NodeDomains(sys, node), text);
      if Bind.HostUnder(ids, Bind.ByNode, allowed, rows, eips, node, text) then held != {}
      else |held| == if was == {} then 0 else |was| - 1
  }

  /** Wherever a row meets an EIP, the EIP shows its hosts and the node of the EIP holds them. */
  ghost predicate WafShown(ids: IdScheme, db: Store, now: Store, sys: string, accounts: seq<string>,
                           rows: seq<Option<Bind.WafRow>>, eips: seq<Option<Eip>>) {
    var allowed := set a | a in accounts;
    forall row, e {:trigger Bind.Meets(ids, allowed, rows, eips, row, e)} ::
      Bind.Meets(ids, allowed, rows, eips, row, e) ==>
        && (PlainRows(rows) ==> HostsShown(ids, now, sys, allowed, rows, eips, EipKey(ids, e.id)))
        && (HasNode(db, sys, NodeOf(EipPlace(e))) ==>
              HostsHeld(ids, db, now, sys, allowed, rows, eips, NodeOf(EipPlace(e))))
  }

  lemma EipHosts(ids: IdScheme, db: Store, now: Store, sys: string, allowed: set<string>,
                 rows: seq<Option<Bind.WafRow>>, eips: seq<Option<Eip>>, key: string, d: string)
    requires Bind.HostUnder(ids, Bind.ByEip, allowed, rows, eips, key, d) && PlainRows(rows)
    requires Apply.EipBound(db, now, sys, key, Bind.Bound(ids, Bind.ByEip, Bind.Pairs(ids, allowed, rows, eips)))
    ensures HostsShown(ids, now, sys, allowed, rows, eips, key)
  {
    hide Bind.Bound, Bind.Pairs, Bind.HostUnder, ParseDomains, Clean;
    Bind.BuildIsJoin(ids, Bind.ByEip, allowed, rows, eips, key);
    var m := Bind.Bound(ids, Bind.ByEip, Bind.Pairs(ids, allowed, rows, eips));
    assert d in ListAt(m, key);
    forall x | x in m[key] ensures ',' !in x && '、' !in x {
      assert x in ListAt(m, key);
      PlainHost(ids, allowed, rows, eips, key, x);
    }
    assert SeparatorFree(m[key]);
  }

  lemma PlainHost(ids: IdScheme, allowed: set<string>, rows: seq<Option<Bind.WafRow>>, eips: seq<Option<Eip>>,
                  key: string, d: string)
    requires Bind.HostUnder(ids, Bind.ByEip, allowed, rows, eips, key, d) && PlainRows(rows)
    ensures ',' !in d && '、' !in d
  {
    hide Bind.Serves, Trim;
    var row, e :| Bind.Meets(ids, allowed, rows, eips, row, e) && Trim(row.host) == d;
    if ',' in d { TrimSubset(row.host, ','); }
    if '、' in d { TrimSubset(row.host, '、'); }
  }

  lemma NodeHosts(ids: IdScheme, db: Store, now: Store, sys: string, allowed: set<string>,
                  rows: seq<Option<Bind.WafRow>>, eips: seq<Option<Eip>>, node: string, d: string)
    requires Bind.HostUnder(ids, Bind.ByNode, allowed, rows, eips, node, d) && HasNode(db, sys, node)
    requires Apply.NodeBound(db, now, sys, node, Bind.Bound(ids, Bind.ByNode, Bind.Pairs(ids, allowed, rows, eips)))
    ensures HostsHeld(ids, db, now, sys, allowed, rows, eips, node)
  {
    hide Bind.Bound, Bind.Pairs, Bind.HostUnder, Holders, Clean, HasNode;
    Bind.BuildIsJoin(ids, Bind.ByNode, allowed, rows, eips, node);
    var m := Bind.Bound(ids, Bind.ByNode, Bind.Pairs(ids, allowed, rows, eips));
    assert d in ListAt(m, node);
    forall text | text != ""
      ensures var was, held := Holders(db, NodeDomains(sys, node), text), Holders(now, NodeDomains(sys, node), text);
              if Bind.HostUnder(ids, Bind.ByNode, allowed, rows, eips, node, text) then held != {}
              else |held| == if was == {} then 0 else |was| - 1
    {
      assert text in ListAt(m, node) <==> Bind.HostUnder(ids, Bind.ByNode, allowed, rows, eips, node, text);
    }
  }

  lemma BoundIsShown(j: Job, db: Store, now: Store, rows: seq<Option<Bind.WafRow>>, accounts: seq<string>)
    requires Binds(j, rows, accounts)
    requires Apply.AllBound(j.ids, db, now, j.sys, j.l.eips, j.byEip, j.byNode)
    ensures WafShown(j.ids, db, now, j.sys, accounts, rows, j.l.eips)
  {
    hide Bind.Bound, Bind.Pairs, HasNode, Apply.EipBound, Apply.NodeBound, HostsShown, HostsHeld, EipKey, NodeOf,
      EipPlace, PlainRows, Trim, Bind.Serves;
    var allowed := Bind.Allowed(accounts);
    forall row, e | Bind.Meets(j.ids, allowed, rows, j.l.eips, row, e)
      ensures PlainRows(rows) ==> HostsShown(j.ids, now, j.sys, allowed, rows, j.l.eips, EipKey(j.ids, e.id))
      ensures HasNode(db, j.sys, NodeOf(EipPlace(e))) ==>
                HostsHeld(j.ids, db, now, j.sys, allowed, rows, j.l.eips, NodeOf(EipPlace(e)))
    {
      var key, node, d := EipKey(j.ids, e.id), NodeOf(EipPlace(e)), Trim(row.host);
      assert Bind.HostUnder(j.ids, Bind.ByEip, allowed, rows, j.l.eips, key, d);
      assert Bind.HostUnder(j.ids, Bind.ByNode, allowed, rows, j.l.eips, node, d);
      if PlainRows(rows) { EipHosts(j.ids, db, now, j.sys, allowed, rows, j.l.eips, key, d); }
      if HasNode(db, j.sys, node) { NodeHosts(j.ids, db, now, j.sys, allowed, rows, j.l.eips, node, d); }
    }
  }

  /** `syncWAFDerivedCMDB` up to the certificates: bind, then apply. */
  method WafStep(s: Syncer, sys: string, l: Lists, rows: seq<Option<Bind.WafRow>>, accounts: seq<string>,
                 ghost j: Job, ghost done: set<Kind>)
    returns (st: Tally, ghost log: Log)
    requires For(j, s) && j.sys == sys && j.l == l && Binds(j, rows, accounts)
    modifies s.client
    ensures Went(s.ids, old(s.client.store), log, s.client.store, sys)
    ensures NoNewStray(old(s.client.store), s.client.store)
    ensures NodesTidy(j, old(s.client.store)) ==> NodesTidy(j, s.client.store)
    ensures done <= INVENTORY && Tidy(j, old(s.client.store), done) ==> Tidy(j, s.client.store, done)
    ensures Tidy(j, old(s.client.store), INVENTORY) ==> Tidy(j, s.client.store, INVENTORY)
    ensures InventoryAgrees(old(s.client.store), s.client.store)
    ensures st.errors == 0 ==> (WafQuiet(j, s.client.store) <==> WafFits(j, old(s.client.store)))
    ensures WafQuiet(j, old(s.client.store)) ==>
              s.client.store == old(s.client.store) && st.added == 0 && st.updated == 0 && st.deleted == 0
    ensures st.errors == 0 && j.waf ==>
              Apply.AllBound(s.ids, old(s.client.store), s.client.store, sys, l.eips, j.byEip, j.byNode)
    ensures st.errors == 0 && accounts != [] ==>
              WafShown(s.ids, old(s.client.store), s.client.store, sys, accounts, rows, l.eips)
    ensures s.client.Healthy() ==> st.errors == 0
  {
    NothingAgrees(s.client.store);
    NoStrayYet(s.client.store);
    if accounts == [] { return ZERO, Start; }
    hide InventoryAgrees, Did, Tidy, NodesTidy, WafFits, Went, NoNewStray, Clean, Filled, Gathered, Every, Legal,
      WafShown, Apply.AllBound;
    ghost var db, patches, mid, domains := s.client.store, Start, s.client.store, Start;
    var byEip, byNode, byCert := Bind.Build(s.ids, l.eips, rows, accounts);
    ghost var ps := Bind.Pairs(s.ids, Bind.Allowed(accounts), rows, l.eips);
    Bind.EipTableDomains(s.ids, ps);
    TablesClean(j, rows, accounts);
    var eipRows := RowsOf(Bind.DomainsOf(byEip));
    var nodeRows := RowsOf(byNode);
    st, patches, mid, domains := Apply.ApplyBindings(s, sys, l.eips, eipRows, nodeRows);
    ghost var post := s.client.store;
    log := WafLogged(s.ids, db, patches, mid, domains, post, sys);
    WafAgrees(j, db, patches, mid, domains, post);
    if done <= INVENTORY { WafKeeps(j, db, patches, mid, domains, post, done); }
    WafKeeps(j, db, patches, mid, domains, post, INVENTORY);
    if st.errors == 0 {
      WafSettles(j, db, patches, mid, domains, post);
      BoundIsShown(j, db, post, rows, accounts);
    }
  }

  lemma TablesClean(j: Job, rows: seq<Option<Bind.WafRow>>, accounts: seq<string>)
    requires Binds(j, rows, accounts)
    ensures forall k :: k in j.byEip ==> Clean(j.byEip[k]) && j.byEip[k] != []
    ensures forall k :: k in j.byNode ==> Clean(j.byNode[k]) && j.byNode[k] != []
  {
    forall k ensures k in j.byEip ==> Clean(j.byEip[k]) && j.byEip[k] != [] {
      Bind.BuildIsJoin(j.ids, Bind.ByEip, Bind.Allowed(accounts), rows, j.l.eips, k);
    }
    forall k ensures k in j.byNode ==> Clean(j.byNode[k]) && j.byNode[k] != [] {
      Bind.BuildIsJoin(j.ids, Bind.ByNode, Bind.Allowed(accounts), rows, j.l.eips, k);
    }
  }

  // ---------- the whole run ----------

  /** The counters of a run by step, without certificates and billing. */
  datatype Steps = Steps(node: Tally, k8s: Tally, host: Tally, middleware: Tally, eip: Tally, waf: Tally, elb: Tally)

  predicate ErrorFree(o: Steps) {
    && o.node.errors == 0 && o.k8s.errors == 0 && o.host.errors == 0 && o.middleware.errors == 0
    && o.eip.errors == 0 && o.waf.errors == 0 && o.elb.errors == 0
  }

  /** Nothing was added or updated, and the firewall step deleted nothing either. */
  predicate Idle(o: Steps) {
    && o.node.added == 0 && o.node.updated == 0 && o.k8s.added == 0 && o.k8s.updated == 0
    && o.host.added == 0 && o.host.updated == 0 && o.middleware.added == 0 && o.middleware.updated == 0
    && o.eip.added == 0 && o.eip.updated == 0 && o.elb.added == 0 && o.elb.updated == 0
    && o.waf.added == 0 && o.waf.updated == 0 && o.waf.deleted == 0
  }

  /** A further run has nothing to add or update. */
  ghost predicate Finished(j: Job, db: Store) {
    NodesTidy(j, db) && Tidy(j, db, INVENTORY) && WafQuiet(j, db)
  }

  /** How far a run has come: its log, the kinds done, whether the node step and all steps so far
      were free of errors, whether they wrote nothing but deletions, whether the firewall is done, and
      the log and the store up to where it began. */
  datatype Course = Course(log: Log, done: set<Kind>, nodesOk: bool, ok: bool, idle: bool, bound: bool,
                           before: Log, at: Store)

  /** What holds on the way, between the start of a run and now. */
  ghost predicate OnCourse(j: Job, db: Store, now: Store, c: Course) {
    && Went(j.ids, db, c.log, now, j.sys) && c.done <= INVENTORY
    && (c.nodesOk ==> NodesTidy(j, now))
    && (c.nodesOk ==> NoNewStray(db, now))
    && AllShrunk(j, db, now, if c.ok then c.done else {})
    && (c.ok && Harmonious(j, db) ==> Tidy(j, now, c.done))
    && (!c.bound && Tame(j, db) ==> Tame(j, now))
    && (c.bound ==> Went(j.ids, db, c.before, c.at, j.sys))
    && (c.bound && c.nodesOk ==> AllNodes(c.at, j.sys, j.l))
    && (c.bound ==> (Tame(j, db) ==> WafFits(j, c.at)) && (c.ok ==> (WafQuiet(j, now) <==> WafFits(j, c.at))))
    && (c.bound && c.ok && j.waf ==> Apply.AllBound(j.ids, c.at, now, j.sys, j.l.eips, j.byEip, j.byNode))
    && (Finished(j, db) && CleanKeys(j.ids, j.l.eips) ==> c.idle && Finished(j, now))
  }

  predicate NoWrites(t: Tally) { t.added == 0 && t.updated == 0 }

  method BeginCourse(s: Syncer, sys: string, sysName: string, l: Lists, ghost j: Job)
    returns (st: Tally, ghost c: Course)
    requires For(j, s) && j.sys == sys && j.l == l
    modifies s.client
    ensures OnCourse(j, old(s.client.store), s.client.store, c)
    ensures c.done == {} && c.nodesOk == c.ok == (st.errors == 0) && c.idle == NoWrites(st) && !c.bound
    ensures s.client.Healthy() && Rooted(old(s.client.store), sys, s.client.levels) ==> st.errors == 0
  {
    hide NodesTidy, Whole, Tame, Harmonious, WafQuiet, Unique, NoNewStray, SameOn, AgreeOn, AllShrunk;
    ghost var db := s.client.store;
    ghost var log;
    st, log := NodeStep(s, sys, sysName, l, j);
    c := Course(log, {}, st.errors == 0, st.errors == 0, NoWrites(st), false, Start, db);
    OtherKinds(s.ids, db, log, SystemNode, Domain);
    if Tame(j, db) { TameSame(j, db, s.client.store); }
    NothingShrunk(j, db);
    forall k | k in INVENTORY ensures AgreeOn(db, s.client.store, k) { OtherKinds(s.ids, db, log, SystemNode, k); }
    ShrunkStays(j, db, db, s.client.store, {});
  }

  lemma KindOthers(ids: IdScheme, db: Store, log: Log, post: Store, sys: string, k: Kind)
    requires Did(ids, db, log, post, sys, k) && k in INVENTORY
    ensures Went(ids, db, log, post, sys) && SameOn(db, post, Domain)
  {
    OtherKinds(ids, db, log, k, Domain);
  }

  /** The steps after the firewall step leave its work alone. */
  lemma StillBound(j: Job, at: Store, db: Store, log: Log, post: Store, k: Kind)
    requires Did(j.ids, db, log, post, j.sys, k) && k in INVENTORY && k != EIP
    ensures WafQuiet(j, post) <==> WafQuiet(j, db)
    ensures Apply.AllBound(j.ids, at, db, j.sys, j.l.eips, j.byEip, j.byNode) ==>
              Apply.AllBound(j.ids, at, post, j.sys, j.l.eips, j.byEip, j.byNode)
  {
    hide Apply.AllBound, SameOn, AgreeOn, WafQuiet, Legal, Every;
    WafQuietSame(j, db, log, post, k);
    OtherKinds(j.ids, db, log, k, EIP);
    OtherKinds(j.ids, db, log, k, Domain);
    if Apply.AllBound(j.ids, at, db, j.sys, j.l.eips, j.byEip, j.byNode) {
      Apply.AllBoundSame(j.ids, at, db, post, j.sys, j.l.eips, j.byEip, j.byNode);
    }
  }

  /** What a kind's step does for the run. */
  ghost predicate Stepped(j: Job, mid: Store, post: Store, k: Kind, done: set<Kind>, clean: bool, idle: bool) {
    && (AllNodes(mid, j.sys, j.l) ==> NoNewStray(mid, post)) && (NodesTidy(j, mid) ==> NodesTidy(j, post))
    && Shrunk(j, mid, post, k, clean)
    && (clean && Harmonious(j, mid) && k !in done && Tidy(j, mid, done) ==> Tidy(j, post, done + {k}))
    && (Tidy(j, mid, INVENTORY) ==> idle && Tidy(j, post, INVENTORY))
    && (Tidy(j, mid, INVENTORY) && CleanKeys(j.ids, j.l.eips) && WafQuiet(j, mid) ==> WafQuiet(j, post))
  }

  lemma StepOnCourse(j: Job, db: Store, mid: Store, one: Log, post: Store, k: Kind, c: Course, clean: bool, idle: bool)
    returns (next: Course)
    requires OnCourse(j, db, mid, c) && (c.bound ==> k != EIP) && k in INVENTORY && k !in c.done
    requires Did(j.ids, mid, one, post, j.sys, k) && Stepped(j, mid, post, k, c.done, clean, idle)
    ensures next == c.(log := next.log, done := c.done + {k}, ok := c.ok && clean, idle := c.idle && idle)
    ensures OnCourse(j, db, post, next)
  {
    hide Apply.AllBound, AllNodes, Tidy, NodesTidy, Tame, WafQuiet, Harmonious, NoNewStray, SameOn, AgreeOn, Did, Went,
      CleanKeys, Unique, WafFits, AllShrunk, Shrunk, RecsOf, Leftover, Legal, Every, Run, Append, Inventory, KindOf;
    if c.nodesOk { TidyNodesExist(j, mid); }
    HarmoniousLater(j, db, c.log, mid);
    KindOthers(j.ids, mid, one, post, j.sys, k);
    var log := WentOn(j.ids, db, c.log, mid, one, post, j.sys);
    next := c.(log := log, done := c.done + {k}, ok := c.ok && clean, idle := c.idle && idle);
    ShrunkTurn(j, db, mid, one, post, k, if c.ok then c.done else {}, clean);
    if Tame(j, mid) { TameSame(j, mid, post); }
    if c.bound { StillBound(j, c.at, mid, one, post, k); }
    if c.nodesOk { NoStrayTwice(db, mid, post); }
  }

  method KindTurn(s: Syncer, k: Kind, sys: string, l: Lists, ghost j: Job, ghost db: Store, ghost c: Course)
    returns (st: Tally, ghost next: Course)
    requires For(j, s) && j.sys == sys && j.l == l && k in INVENTORY && k !in c.done
    requires OnCourse(j, db, s.client.store, c) && (c.bound ==> k != EIP)
    modifies s.client
    ensures OnCourse(j, db, s.client.store, next)
    ensures next.done == c.done + {k} && next.nodesOk == c.nodesOk && next.ok == (c.ok && st.errors == 0)
    ensures next.idle == (c.idle && NoWrites(st)) && next.bound == c.bound && next.at == c.at
    ensures s.client.Healthy() ==> (st.errors == 0 <==> Presence.Identified(s.ids, l, k))
  {
    hide OnCourse, Presence.Identified, AllNodes, Tidy, NodesTidy, WafQuiet, Harmonious, NoNewStray, Did, CleanKeys,
      Shrunk;
    ghost var mid, one := s.client.store, Start;
    st, one := KindStep(s, k, sys, l, j, c.done);
    next := StepOnCourse(j, db, mid, one, s.client.store, k, c, st.errors == 0, NoWrites(st));
  }

  method WafTurn(s: Syncer, sys: string, l: Lists, rows: seq<Option<Bind.WafRow>>, accounts: seq<string>, ghost j: Job,
                 ghost db: Store, ghost c: Course)
    returns (st: Tally, ghost next: Course)
    requires For(j, s) && j.sys == sys && j.l == l && Binds(j, rows, accounts)
    requires OnCourse(j, db, s.client.store, c) && !c.bound
    modifies s.client
    ensures OnCourse(j, db, s.client.store, next)
    ensures next.done == c.done && next.nodesOk == c.nodesOk && next.ok == (c.ok && st.errors == 0)
    ensures next.idle == (c.idle && NoWrites(st) && st.deleted == 0) && next.bound && next.at == old(s.client.store)
    ensures s.client.Healthy() ==> st.errors == 0
  {
    hide Apply.AllBound, AllNodes, Tidy, NodesTidy, Tame, WafFits, WafQuiet, Harmonious, NoNewStray, Went, AllShrunk,
      InventoryAgrees, Binds;
    ghost var mid, one := s.client.store, Start;
    st, one := WafStep(s, sys, l, rows, accounts, j, c.done);
    ghost var log := WentOn(s.ids, db, c.log, mid, one, s.client.store, sys);
    if c.nodesOk { NoStrayTwice(db, mid, s.client.store); }
    next := Course(log, c.done, c.nodesOk, c.ok && st.errors == 0, c.idle && NoWrites(st) && st.deleted == 0, true,
                   c.log, mid);
    if Tame(j, mid) { TameFits(j, mid); }
    if c.nodesOk { TidyNodesExist(j, mid); }
    ShrunkStays(j, db, mid, s.client.store, if c.ok then c.done else {});
  }

  /** The first half of a run: nodes, clusters, hosts, middleware. */
  method ComputeStep(s: Syncer, sys: string, sysName: string, l: Lists, ghost j: Job)
    returns (o: Steps, ghost c: Course)
    requires For(j, s) && j.sys == sys && j.l == l
    modifies s.client
    ensures OnCourse(j, old(s.client.store), s.client.store, c)
    ensures c.done == {K8sCluster} + {Server} + {MiddleSoftware} && !c.bound && c.nodesOk == (o.node.errors == 0)
    ensures c.ok == (o.node.errors == 0 && o.k8s.errors == 0 && o.host.errors == 0 && o.middleware.errors == 0)
    ensures c.idle == (NoWrites(o.node) && NoWrites(o.k8s) && NoWrites(o.host) && NoWrites(o.middleware))
    ensures s.client.Healthy() && Rooted(old(s.client.store), sys, s.client.levels) ==>
              && o.node.errors == 0 && (o.k8s.errors == 0 <==> Presence.Identified(s.ids, l, K8sCluster))
              && (o.host.errors == 0 <==> Presence.Identified(s.ids, l, Server))
              && (o.middleware.errors == 0 <==> Presence.Identified(s.ids, l, MiddleSoftware))
  {
    hide OnCourse, Presence.Identified, Rooted;
    ghost var db := s.client.store;
    var node, k8s, host, middleware;
    node, c := BeginCourse(s, sys, sysName, l, j);
    k8s, c := KindTurn(s, K8sCluster, sys, l, j, db, c);
    host, c := KindTurn(s, Server, sys, l, j, db, c);
    middleware, c := KindTurn(s, MiddleSoftware, sys, l, j, db, c);
    o := Steps(node, k8s, host, middleware, ZERO, ZERO, ZERO);
  }

  /** No list repeats a uuid with records that contradict each other. */
  predicate Consistent(j: Job) {
    forall k {:trigger RecsOf(j.ids, j.sys, j.l, k)} :: k in INVENTORY ==> Agreeing(RecsOf(j.ids, j.sys, j.l, k))
  }

  /** Where a list repeats uuids, no record wants the printed form of a stored list. */
  predicate AllUnprinted(j: Job, db: Store) {
    forall k {:trigger RecsOf(j.ids, j.sys, j.l, k)} :: k in INVENTORY ==>
      DistinctUuids(RecsOf(j.ids, j.sys, j.l, k)) || Unprinted(db, k, RecsOf(j.ids, j.sys, j.l, k))
  }

  lemma HarmonyParts(j: Job, db: Store)
    ensures Harmonious(j, db) <==> Consistent(j) && AllUnprinted(j, db)
  {
    hide Agreeing, DistinctUuids, Unprinted, RecsOf;
    forall k | k in INVENTORY
      ensures Harmony(db, k, RecsOf(j.ids, j.sys, j.l, k)) <==>
              Agreeing(RecsOf(j.ids, j.sys, j.l, k)) &&
              (DistinctUuids(RecsOf(j.ids, j.sys, j.l, k)) || Unprinted(db, k, RecsOf(j.ids, j.sys, j.l, k)))
    {}
  }

  lemma TidyAgrees(j: Job, db: Store)
    requires Tidy(j, db, INVENTORY) && Unique(j.ids, db)
    ensures Consistent(j)
  {
    hide Agreeing, RecsOf, SettledAll, Unique;
    forall k | k in INVENTORY ensures Agreeing(RecsOf(j.ids, j.sys, j.l, k)) {
      assert Whole(j, db, k);
      RecsSound(j.ids, j.sys, j.l, k);
      if !Agreeing(RecsOf(j.ids, j.sys, j.l, k)) {
        DisagreementNeverSettles(j.ids, db, k, j.sys, RecsOf(j.ids, j.sys, j.l, k));
      }
    }
  }

  /** The record's item shows the node it was collected from, and the node has its CI. */
  predicate AtHome(db: Store, k: Kind, sys: string, r: Rec) {
    var t := Lookup(db, k, sys, r);
    t.Some? && CompareStr(Get(db.cis[t.value].row, NodeName)) == r.node && HasNode(db, sys, r.node)
  }

  ghost predicate AllAtHome(j: Job, db: Store) {
    forall k, r {:trigger AtHome(db, k, j.sys, r)} ::
      k in INVENTORY && r in RecsOf(j.ids, j.sys, j.l, k) ==> AtHome(db, k, j.sys, r)
  }

  lemma TidyAtHome(j: Job, db: Store)
    requires NodesTidy(j, db) && Tidy(j, db, INVENTORY)
    ensures AllAtHome(j, db)
  {
    hide SettledAll, RecsOf, NodesTidy, AtHome;
    TidyNodesExist(j, db);
    forall k, r | k in INVENTORY && r in RecsOf(j.ids, j.sys, j.l, k) ensures AtHome(db, k, j.sys, r) {
      assert Whole(j, db, k);
      SettledMember(db, k, j.sys, RecsOf(j.ids, j.sys, j.l, k), r);
      RecAtHome(j.ids, db, k, j.sys, j.l, r);
    }
  }

  lemma RecAtHome(ids: IdScheme, db: Store, k: Kind, sys: string, l: Lists, r: Rec)
    requires r in RecsOf(ids, sys, l, k) && Settled(db, k, sys, r) && AllNodes(db, sys, l)
    ensures AtHome(db, k, sys, r)
  {
    hide Cands, Merge, Changed, MiddlewareUuid, CanonOf, ScalarRow, Lookup;
    var cands := Cands(ids, sys, l, k);
    RecsMembers(cands, r);
    var i :| 0 <= i < |cands| && cands[i] == Upsert(r);
    CandNode(ids, sys, l, k, i);
    var p :| p in Places(l) && NodeOf(p) == r.node;
    Names.EffectiveFacts(p.provider, p.region, p.tag);
    CandsSound(ids, sys, l, k);
    assert SoundCand(ids, k, sys, cands[i]);
    SettledColumn(db, k, sys, r, NodeName, r.node);
  }

  lemma TidyAdmins(j: Job, db: Store)
    requires NodesTidy(j, db)
    ensures forall p :: p in Places(j.l) ==> AdminShown(db, j.sys, NodeOf(p), j.admin)
  {
    hide NodeSettled, AdminShown, NodeOf;
    forall p | p in Places(j.l) ensures AdminShown(db, j.sys, NodeOf(p), j.admin) {
      SettledShowsAdmin(db, j.sys, NodeOf(p), j.admin);
    }
  }

  lemma TidyShown(j: Job, db: Store)
    requires Tidy(j, db, INVENTORY)
    ensures Presence.AllShown(j.ids, db, j.sys, j.l)
  {
    hide SettledAll, RecsOf, Presence.AllShown;
    forall k | Inventory(k) ensures SettledAll(db, k, j.sys, RecsOf(j.ids, j.sys, j.l, k)) {
      assert k in INVENTORY && Whole(j, db, k);
    }
    Presence.SettledIsShown(j.ids, db, j.sys, j.l);
  }

  /** Every listed resource that is not passed over can be identified. */
  ghost predicate AllIdentified(ids: IdScheme, l: Lists) {
    forall k :: k in INVENTORY ==> Presence.Identified(ids, l, k)
  }

  /** `syncSystemOutcome` once the lists are loaded.  Whatever fails, writes are legal and stay in the
      system, identities stay unique, and no item is left without its node that had one, if the node
      step went well.  After an error-free run every listed resource is at home and shown, the firewall
      hosts are where they belong, and a further run has nothing to add or update exactly if the lists are consistent and the firewall step, from the
      store in which it began, fitted. */
  method SyncSystem(s: Syncer, sys: string, sysName: string, l: Lists, rows: seq<Option<Bind.WafRow>>,
                    accounts: seq<string>,
                    ghost j: Job)
    returns (o: Steps, ghost log: Log, ghost before: Log, ghost at: Store)
    requires For(j, s) && j.sys == sys && j.l == l && Binds(j, rows, accounts)
    modifies s.client
    ensures Went(s.ids, old(s.client.store), log, s.client.store, sys)
    ensures Unique(s.ids, old(s.client.store)) ==> Unique(s.ids, s.client.store)
    ensures o.node.errors == 0 ==> NoNewStray(old(s.client.store), s.client.store)
    ensures o.node.errors == 0 ==> forall p :: p in Places(l) ==> AdminShown(s.client.store, sys, NodeOf(p), s.admin)
    ensures AllShrunk(j, old(s.client.store), s.client.store, if ErrorFree(o) then INVENTORY else {})
    ensures ErrorFree(o) && Harmonious(j, old(s.client.store)) ==>
              AllAtHome(j, s.client.store) && Presence.AllShown(s.ids, s.client.store, sys, l)
    ensures ErrorFree(o) && accounts != [] ==> WafShown(s.ids, at, s.client.store, sys, accounts, rows, l.eips)
    ensures ErrorFree(o) ==> AllNodes(at, sys, l)
    ensures s.client.Healthy() && Rooted(old(s.client.store), sys, s.client.levels) ==>
              (ErrorFree(o) <==> AllIdentified(s.ids, l))
    ensures ErrorFree(o) && Harmonious(j, old(s.client.store)) && WafFits(j, at) ==> Finished(j, s.client.store)
    ensures ErrorFree(o) && Unique(s.ids, old(s.client.store)) && AllUnprinted(j, old(s.client.store)) ==>
              (Finished(j, s.client.store) <==> Consistent(j) && WafFits(j, at))
    ensures Went(s.ids, old(s.client.store), before, at, sys) && (Tame(j, old(s.client.store)) ==> WafFits(j, at))
    ensures Finished(j, old(s.client.store)) && CleanKeys(s.ids, l.eips) ==> Finished(j, s.client.store) && Idle(o)
  {
    hide OnCourse, Finished, Harmonious, Tame, CleanKeys, Unique, NoNewStray, Went, AllShrunk, WafFits, AllAtHome,
      Consistent, AllUnprinted, Presence.AllShown, Presence.Identified, WafShown, Rooted, Apply.AllBound, Binds,
      AllNodes;
    ghost var db := s.client.store;
    ghost var c;
    var eip, waf, elb;
    o, c := ComputeStep(s, sys, sysName, l, j);
    eip, c := KindTurn(s, EIP, sys, l, j, db, c);
    at := s.client.store;
    waf, c := WafTurn(s, sys, l, rows, accounts, j, db, c);
    elb, c := KindTurn(s, ELB, sys, l, j, db, c);
    o := o.(eip := eip, waf := waf, elb := elb);
    log, before := c.log, c.before;
    FinishCourse(j, db, s.client.store, c);
    if ErrorFree(o) && accounts != [] { CourseShown(j, db, s.client.store, c, rows, accounts); }
  }

  lemma CourseShown(j: Job, db: Store, now: Store, c: Course, rows: seq<Option<Bind.WafRow>>, accounts: seq<string>)
    requires OnCourse(j, db, now, c) && c.bound && c.ok && Binds(j, rows, accounts) && accounts != []
    ensures WafShown(j.ids, c.at, now, j.sys, accounts, rows, j.l.eips)
  {
    hide WafShown, Apply.AllBound, Bind.Bound, Bind.Pairs, Tidy, NodesTidy, Tame, WafFits, WafQuiet, Harmonious,
      NoNewStray, Went, AllShrunk, AllNodes, Finished, CleanKeys;
    BoundIsShown(j, c.at, now, rows, accounts);
  }

  lemma FinishCourse(j: Job, db: Store, now: Store, c: Course)
    requires OnCourse(j, db, now, c) && c.done == INVENTORY && c.bound
    ensures Went(j.ids, db, c.log, now, j.sys)
    ensures Unique(j.ids, db) ==> Unique(j.ids, now)
    ensures c.nodesOk ==> NoNewStray(db, now)
    ensures c.nodesOk ==> forall p :: p in Places(j.l) ==> AdminShown(now, j.sys, NodeOf(p), j.admin)
    ensures AllShrunk(j, db, now, if c.ok then INVENTORY else {})
    ensures c.nodesOk ==> AllNodes(c.at, j.sys, j.l)
    ensures c.nodesOk && c.ok && Harmonious(j, db) ==> AllAtHome(j, now) && Presence.AllShown(j.ids, now, j.sys, j.l)
    ensures c.nodesOk && c.ok && Harmonious(j, db) && WafFits(j, c.at) ==> Finished(j, now)
    ensures c.nodesOk && c.ok && Unique(j.ids, db) && AllUnprinted(j, db) ==>
              (Finished(j, now) <==> Consistent(j) && WafFits(j, c.at))
    ensures Went(j.ids, db, c.before, c.at, j.sys) && (Tame(j, db) ==> WafFits(j, c.at))
    ensures Finished(j, db) && CleanKeys(j.ids, j.l.eips) ==> Finished(j, now) && c.idle
  {
    hide AllShrunk, Tame, WafFits, WafQuiet, NodesTidy, Tidy, Harmonious, Consistent, AllUnprinted, AllAtHome,
      CleanKeys, NoNewStray, Unique, Presence.AllShown, Apply.AllBound, AllNodes, AdminShown, NodeOf;
    if Unique(j.ids, db) { UniqueRun(j.ids, db, c.log); }
    HarmonyParts(j, db);
    if NodesTidy(j, now) { TidyAdmins(j, now); }
    if NodesTidy(j, now) && Tidy(j, now, INVENTORY) { TidyAtHome(j, now); }
    if Tidy(j, now, INVENTORY) { TidyShown(j, now); }
    if Tidy(j, now, INVENTORY) && Unique(j.ids, now) { TidyAgrees(j, now); }
  }

  /** Two runs in a row over the same lists: after an error-free first run the second adds and updates
      nothing, whatever its calls do. */
  method SyncTwice(s: Syncer, sys: string, sysName: string, l: Lists, rows: seq<Option<Bind.WafRow>>,
                   accounts: seq<string>,
                   ghost j: Job)
    returns (first: Steps, second: Steps, ghost at: Store)
    requires For(j, s) && j.sys == sys && j.l == l && Binds(j, rows, accounts)
    modifies s.client
    ensures ErrorFree(first) && Harmonious(j, old(s.client.store)) && WafFits(j, at) ==>
              CleanKeys(s.ids, l.eips) ==> Idle(second)
    ensures Tame(j, old(s.client.store)) ==> WafFits(j, at)
  {
    hide Harmonious, WafFits, Tame, CleanKeys, Finished, AllShrunk;
    ghost var log, before, later;
    first, log, before, at := SyncSystem(s, sys, sysName, l, rows, accounts, j);
    second, log, before, later := SyncSystem(s, sys, sysName, l, rows, accounts, j);
  }
}
