/** Carrying the firewall bindings of a system into the CMDB: EIP columns first, then node domains. */
module Apply {
  import opened Text
  import opened Rows
  import opened Remote
  import opened Ids
  import opened Events
  import opened Safety
  import opened Records
  import opened Upsert
  import opened Stats
  import opened Passes
  import opened Nodes
  import opened Codec
  import opened Domains
  import opened DomainSync
  import opened DomainTheory
  import opened DomainRuns
  import opened Group
  import Patch

  /** The nodes of the listed EIPs, each once. */
  function NodeKeys(eips: seq<Option<Eip>>): (keys: seq<string>)
    ensures NoDup(keys) && forall n :: n in keys ==> Trimmed(n) && n != ""
    decreases |eips|
  {
    if eips == [] then []
    else
      var keys, last := NodeKeys(eips[..|eips| - 1]), eips[|eips| - 1];
      if last.None? || NodeOf(EipPlace(last.value)) in keys then keys
      else
        EipNodeTrimmed(last.value);
        keys + [NodeOf(EipPlace(last.value))]
  }

  lemma EipNodeTrimmed(e: Eip)
    ensures Trimmed(NodeOf(EipPlace(e))) && NodeOf(EipPlace(e)) != ""
  {
    Names.EffectiveFacts(EipPlace(e).provider, EipPlace(e).region, EipPlace(e).tag);
  }

  ghost predicate SameTexts(db: Store, post: Store, q: Query) {
    forall text {:trigger Holders(post, q, text)} :: Holders(post, q, text) == Holders(db, q, text)
  }

  /** Each text of the node is where one run takes it. */
  ghost predicate Reached(db: Store, post: Store, q: Query, want: seq<string>) {
    forall text {:trigger TextSynced(db, post, q, want, text)} :: text != "" ==> TextSynced(db, post, q, want, text)
  }

  ghost predicate NodeDone(db: Store, post: Store, sys: string, node: string, want: seq<string>) {
    if Proceeds(db, sys, node, want) then Reached(db, post, NodeDomains(sys, node), want)
    else SameTexts(db, post, NodeDomains(sys, node))
  }

  /** A further run would write nothing. */
  ghost predicate NodeQuiet(db: Store, sys: string, node: string, want: seq<string>) {
    !Proceeds(db, sys, node, want) || Converged(db, NodeDomains(sys, node), want)
  }

  /** A node in one state looks to its run the way it does in another. */
  ghost predicate SameNode(db: Store, post: Store, sys: string, node: string) {
    SameTexts(db, post, NodeDomains(sys, node)) && HasNode(post, sys, node) == HasNode(db, sys, node)
  }

  lemma SameGoes(db: Store, post: Store, sys: string, node: string, want: seq<string>)
    requires SameNode(db, post, sys, node)
    ensures Proceeds(post, sys, node, want) == Proceeds(db, sys, node, want)
    ensures NodeQuiet(post, sys, node, want) == NodeQuiet(db, sys, node, want)
  {
    var q := NodeDomains(sys, node);
    forall text ensures Holders(post, q, text) == Holders(db, q, text) {}
  }

  lemma DoneLater(db: Store, mid: Store, post: Store, sys: string, node: string, want: seq<string>)
    requires NodeDone(db, mid, sys, node, want) && SameTexts(mid, post, NodeDomains(sys, node))
    ensures NodeDone(db, post, sys, node, want)
  {
    var q := NodeDomains(sys, node);
    if Proceeds(db, sys, node, want) {
      forall text | text != "" ensures TextSynced(db, post, q, want, text) {
        assert TextSynced(db, mid, q, want, text);
        assert Holders(post, q, text) == Holders(mid, q, text);
      }
    } else {
      forall text ensures Holders(post, q, text) == Holders(db, q, text) {
        assert Holders(post, q, text) == Holders(mid, q, text);
      }
    }
  }

  lemma DoneFrom(db: Store, mid: Store, post: Store, sys: string, node: string, want: seq<string>)
    requires SameNode(db, mid, sys, node) && NodeDone(mid, post, sys, node, want)
    ensures NodeDone(db, post, sys, node, want)
  {
    var q := NodeDomains(sys, node);
    SameGoes(db, mid, sys, node, want);
    if Proceeds(db, sys, node, want) {
      forall text | text != "" ensures TextSynced(db, post, q, want, text) {
        assert TextSynced(mid, post, q, want, text);
        assert Holders(mid, q, text) == Holders(db, q, text);
      }
    } else {
      forall text ensures Holders(post, q, text) == Holders(db, q, text) {
        assert Holders(mid, q, text) == Holders(db, q, text);
      }
    }
  }

  /** Writes to domain items create and remove no system node. */
  lemma NodesStay(ids: IdScheme, db: Store, log: Log, post: Store, sys: string, node: string)
    requires Did(ids, db, log, post, sys, Domain)
    ensures HasNode(post, sys, node) == HasNode(db, sys, node)
  {
    OtherKinds(ids, db, log, Domain, SystemNode);
    FirstAgrees(db, post, ByNode(SystemNode, sys, node));
  }

  /** What an error-free run on one node means for it and for the others. */
  lemma RunDone(db: Store, post: Store, sys: string, node: string, want: seq<string>)
    requires Proceeds(db, sys, node, want) ==> Synced(db, post, NodeDomains(sys, node), want)
    requires !Proceeds(db, sys, node, want) ==> post == db
    ensures NodeDone(db, post, sys, node, want)
    ensures OthersSame(db, post, sys, node)
  {
    if Proceeds(db, sys, node, want) {
      forall other, text | other != node
        ensures Holders(post, NodeDomains(sys, other), text) == Holders(db, NodeDomains(sys, other), text)
      {
        RunLeavesOthers(db, post, sys, node, want, NodeDomains(sys, other), text);
      }
    }
  }

  ghost predicate OthersSame(db: Store, post: Store, sys: string, node: string) {
    forall other: string {:trigger NodeDomains(sys, other)} :: other != node ==>
      SameTexts(db, post, NodeDomains(sys, other))
  }

  /** One turn of the node loop. */
  method SyncNode(s: Syncer, sys: string, node: string, bound: map<string, seq<string>>, t: Tally)
    returns (st: Tally, ghost log: Log)
    requires Trimmed(sys) && Trimmed(node) && node != ""
    modifies s.client
    ensures Did(s.ids, old(s.client.store), log, s.client.store, sys, Domain)
    ensures st.errors >= t.errors && st.updated == t.updated
    ensures st.errors == t.errors ==>
              NodeDone(old(s.client.store), s.client.store, sys, node, Patch.Bound(bound, node)) &&
              OthersSame(old(s.client.store), s.client.store, sys, node)
    ensures NodeQuiet(old(s.client.store), sys, node, Patch.Bound(bound, node)) ==>
              s.client.store == old(s.client.store) && st.added == t.added && st.deleted == t.deleted
    ensures s.client.Healthy() ==> st.errors == t.errors
  {
    hide Converged, Synced, NodeDone, OthersSame, Did;
    var domains := if node in bound then bound[node] else [];
    assert CleanList(domains) == Patch.Bound(bound, node);
    ghost var db := s.client.store;
    var one;
    one, log := ReconcileNodeDomains(s, sys, node, domains);
    st := Merged(t, one);
    if one.errors == 0 { RunDone(db, s.client.store, sys, node, Patch.Bound(bound, node)); }
  }

  /** The nodes in `keys` are done, every other node looks as it did. */
  ghost predicate NodesUpTo(db: Store, mid: Store, sys: string, keys: seq<string>, bound: map<string, seq<string>>) {
    && (forall n {:trigger n in keys} :: n in keys ==> NodeDone(db, mid, sys, n, Patch.Bound(bound, n)))
    && (forall n: string {:trigger NodeDomains(sys, n)} :: n !in keys ==> SameNode(db, mid, sys, n))
  }

  lemma NodesNone(db: Store, sys: string, bound: map<string, seq<string>>)
    ensures NodesUpTo(db, db, sys, [], bound)
  {
    forall n: string ensures SameNode(db, db, sys, n) {}
  }

  lemma NodesNext(ids: IdScheme, db: Store, mid: Store, log: Log, post: Store, sys: string, keys: seq<string>,
                  node: string,
                  bound: map<string, seq<string>>)
    requires NodesUpTo(db, mid, sys, keys, bound) && node !in keys && Did(ids, mid, log, post, sys, Domain)
    requires NodeDone(mid, post, sys, node, Patch.Bound(bound, node)) && OthersSame(mid, post, sys, node)
    ensures NodesUpTo(db, post, sys, keys + [node], bound)
  {
    forall n | n in keys + [node] ensures NodeDone(db, post, sys, n, Patch.Bound(bound, n)) {
      if n == node { DoneFrom(db, mid, post, sys, n, Patch.Bound(bound, n)); }
      else { DoneLater(db, mid, post, sys, n, Patch.Bound(bound, n)); }
    }
    forall n | n !in keys + [node] ensures SameNode(db, post, sys, n) {
      NodesStay(ids, mid, log, post, sys, n);
    }
  }

  lemma NodeKeysStep(eips: seq<Option<Eip>>, i: nat) returns (next: seq<string>)
    requires i < |eips|
    ensures next == NodeKeys(eips[..i + 1])
    ensures var keys := NodeKeys(eips[..i]);
            next == if eips[i].None? || NodeOf(EipPlace(eips[i].value)) in keys then keys
                    else keys + [NodeOf(EipPlace(eips[i].value))]
    ensures eips[i].Some? ==> NodeOf(EipPlace(eips[i].value)) in NodeKeys(eips)
  {
    assert eips[..i + 1][..i] == eips[..i];
    next := NodeKeys(eips[..i + 1]);
    NodeKeysGrow(eips, i + 1);
  }

  lemma {:induction false} NodeKeysGrow(eips: seq<Option<Eip>>, n: nat)
    requires n <= |eips|
    ensures forall k :: k in NodeKeys(eips[..n]) ==> k in NodeKeys(eips)
    decreases |eips|
  {
    if n == |eips| {
      assert eips[..n] == eips;
    } else {
      assert eips[..|eips| - 1][..n] == eips[..n];
      NodeKeysGrow(eips[..|eips| - 1], n);
    }
  }

  lemma DomainAppend(ids: IdScheme, db: Store, log: Log, mid: Store, one: Log, post: Store, sys: string, kind: Kind)
    returns (all: Log)
    requires Did(ids, db, log, mid, sys, kind) && Did(ids, mid, one, post, sys, kind)
    ensures Did(ids, db, all, post, sys, kind)
  {
    all := Append(log, one);
    RunAppend(ids, db, log, one);
    EveryAppend(log, one, InSystem(sys));
    EveryAppend(log, one, OfKind(kind));
  }

  ghost predicate AllQuiet(db: Store, sys: string, keys: seq<string>, bound: map<string, seq<string>>) {
    forall n {:trigger n in keys} :: n in keys ==> NodeQuiet(db, sys, n, Patch.Bound(bound, n))
  }

  /** `syncNodeDomainCIsFromBind`. */
  method SyncNodes(s: Syncer, sys: string, eips: seq<Option<Eip>>, bound: map<string, seq<string>>)
    returns (st: Tally, ghost log: Log)
    requires Trimmed(sys)
    modifies s.client
    ensures Did(s.ids, old(s.client.store), log, s.client.store, sys, Domain) && st.updated == 0
    ensures st.errors == 0 ==> NodesUpTo(old(s.client.store), s.client.store, sys, NodeKeys(eips), bound)
    ensures AllQuiet(old(s.client.store), sys, NodeKeys(eips), bound) ==>
              s.client.store == old(s.client.store) && st.added == 0 && st.deleted == 0
    ensures s.client.Healthy() ==> st.errors == 0
  {
    st, log := ZERO, Start;
    ghost var db, all := s.client.store, NodeKeys(eips);
    ghost var keys: seq<string> := [];
    NodesNone(db, sys, bound);
    var seen: set<string> := {};
    for i := 0 to |eips|
      invariant keys == NodeKeys(eips[..i]) && forall n :: n in seen <==> n in keys
      invariant Did(s.ids, db, log, s.client.store, sys, Domain) && st.updated == 0
      invariant st.errors == 0 ==> NodesUpTo(db, s.client.store, sys, keys, bound)
      invariant AllQuiet(db, sys, all, bound) ==> s.client.store == db && st.added == 0 && st.deleted == 0
      invariant s.client.Healthy() ==> st.errors == 0
    {
      ghost var next := NodeKeysStep(eips, i);
      if eips[i].None? { continue; }
      var node := NodeOf(EipPlace(eips[i].value));
      if node in seen { continue; }
      EipNodeTrimmed(eips[i].value);
      seen := seen + {node};
      ghost var mid, one := s.client.store, Start;
      st, one := SyncNode(s, sys, node, bound, st);
      if st.errors == 0 { NodesNext(s.ids, db, mid, one, s.client.store, sys, keys, node, bound); }
      log := DomainAppend(s.ids, db, log, mid, one, s.client.store, sys, Domain);
      keys := next;
    }
    assert eips[..|eips|] == eips;
  }

  /** After an error-free run a node asks for no further write exactly when it was left alone or no
      unwanted text had more than one item. */
  lemma QuietAfter(db: Store, post: Store, sys: string, node: string, want: seq<string>)
    requires NodeDone(db, post, sys, node, want) && HasNode(post, sys, node) == HasNode(db, sys, node)
    ensures NodeQuiet(post, sys, node, want) <==>
            (Proceeds(db, sys, node, want) ==>
               forall text :: text != "" && text !in want ==> |Holders(db, NodeDomains(sys, node), text)| <= 1)
  {
    var q := NodeDomains(sys, node);
    if Proceeds(db, sys, node, want) {
      forall text | text != ""
        ensures (Holders(post, q, text) != {} <==> text in want) <==> (text !in want ==> |Holders(db, q, text)| <= 1)
        ensures want == [] ==> Holders(post, q, text) == {}
      {
        assert TextSynced(db, post, q, want, text);
      }
    } else {
      SameGoes(db, post, sys, node, want);
    }
  }

  // ---------- what the bindings leave in the CMDB ----------

  /** What the bindings mean for the item of a listed EIP: it shows the domains bound to its key, in
      order, unless one of them contains a separator; without bound domains it stays as it was. */
  ghost predicate EipBound(db: Store, post: Store, sys: string, key: string, m: map<string, seq<string>>) {
    var t := First(db, ByUuid(EIP, sys, key));
    && First(post, ByUuid(EIP, sys, key)) == t
    && (key in m && m[key] != [] && SeparatorFree(m[key]) ==> Patch.Says(post, sys, key, m[key]))
    && ((key in m ==> m[key] == []) && t.Some? ==> t.value in post.cis && post.cis[t.value] == db.cis[t.value])
  }

  /** What they mean for the node of a listed EIP: if it has its CI, every bound domain has an item and
      every other text lost one; without its CI or without bound domains nothing changes. */
  ghost predicate NodeBound(db: Store, post: Store, sys: string, node: string, m: map<string, seq<string>>) {
    forall text {:trigger Holders(post, NodeDomains(sys, node), text)} :: text != "" ==>
      var was, now := Holders(db, NodeDomains(sys, node), text), Holders(post, NodeDomains(sys, node), text);
      if node in m && m[node] != [] && HasNode(db, sys, node) then
        if text in m[node] then now != {} && (was != {} ==> now == was)
        else now <= was && (was != {} ==> |now| == |was| - 1)
      else now == was
  }

  lemma {:induction false} GatheredClean(rows: seq<(string, seq<string>)>, key: string)
    requires key in Gathered(rows)
    ensures CleanList(Gathered(rows)[key]) == Gathered(rows)[key]
    decreases |rows|
  {
    var last := rows[|rows| - 1];
    CleanListIdempotent(last.1);
    if key != last.0 { GatheredClean(rows[..|rows| - 1], key); }
  }

  lemma EipIsBound(ids: IdScheme, db: Store, mid: Store, log: Log, post: Store, sys: string, eips: seq<Option<Eip>>,
                   rows: seq<(string, seq<string>)>, e: Eip)
    requires mid == Patch.PatchedAll(db, sys, Patch.EipKeys(ids, eips), Gathered(rows))
    requires Did(ids, mid, log, post, sys, Domain) && Some(e) in eips && Trim(e.id) != ""
    ensures EipBound(db, post, sys, EipKey(ids, e.id), Gathered(rows))
  {
    hide Gathered, Patch.PatchedAll, SeparatorFree, Legal, Every, Run, ParseDomains, EipKey, AgreeOn, SameOn, Hit;
    var key, m := EipKey(ids, e.id), Gathered(rows);
    Patch.PatchedAgrees(db, sys, Patch.EipKeys(ids, eips), m);
    FirstAgrees(db, mid, ByUuid(EIP, sys, key));
    OtherKinds(ids, mid, log, Domain, EIP);
    FirstSame(mid, post, ByUuid(EIP, sys, key));
    if key in m && m[key] != [] {
      GatheredClean(rows, key);
      if SeparatorFree(m[key]) { Patch.PatchedSays(ids, db, sys, eips, m, e); }
    } else if First(db, ByUuid(EIP, sys, key)).Some? {
      Patch.UnboundStays(db, sys, Patch.EipKeys(ids, eips), m, key);
    }
  }

  lemma DoneIsBound(db: Store, post: Store, sys: string, node: string, m: map<string, seq<string>>)
    requires NodeDone(db, post, sys, node, Patch.Bound(m, node)) && sys != "" && node != ""
    requires node in m ==> CleanList(m[node]) == m[node]
    ensures NodeBound(db, post, sys, node, m)
  {
    hide Holders, CleanList, HasNode;
    var q, want := NodeDomains(sys, node), Patch.Bound(m, node);
    assert want == if node in m then m[node] else [];
    forall text | text != ""
      ensures var was, now := Holders(db, q, text), Holders(post, q, text);
              if node in m && m[node] != [] && HasNode(db, sys, node) then
                if text in m[node] then now != {} && (was != {} ==> now == was)
                else now <= was && (was != {} ==> |now| == |was| - 1)
              else now == was
    {
      if Proceeds(db, sys, node, want) { assert TextSynced(db, post, q, want, text); }
    }
  }

  lemma NodeIsBound(ids: IdScheme, db: Store, patches: Log, mid: Store, post: Store, sys: string,
                    eips: seq<Option<Eip>>, rows: seq<(string, seq<string>)>, e: Eip)
    requires Did(ids, db, patches, mid, sys, EIP) && sys != "" && Some(e) in eips
    requires NodesUpTo(mid, post, sys, NodeKeys(eips), Gathered(rows))
    ensures NodeBound(db, post, sys, NodeOf(EipPlace(e)), Gathered(rows))
  {
    hide Gathered, Legal, Every, Run, NodeOf, EipPlace, NodeKeys, Holders, NodeDone, NodeBound, SameOn, SameNode;
    var node, m := NodeOf(EipPlace(e)), Gathered(rows);
    var i :| 0 <= i < |eips| && eips[i] == Some(e);
    var next := NodeKeysStep(eips, i);
    EipNodeTrimmed(e);
    OtherKinds(ids, db, patches, EIP, Domain);
    OtherKinds(ids, db, patches, EIP, SystemNode);
    NodeSame(db, mid, sys, node);
    DoneFrom(db, mid, post, sys, node, Patch.Bound(m, node));
    if node in m { GatheredClean(rows, node); }
    DoneIsBound(db, post, sys, node, m);
  }

  lemma NodeSame(db: Store, post: Store, sys: string, node: string)
    requires SameOn(db, post, Domain) && SameOn(db, post, SystemNode)
    ensures SameNode(db, post, sys, node)
  {
    FirstSame(db, post, ByNode(SystemNode, sys, node));
  }

  /** The bindings have reached every listed EIP and its node. */
  ghost predicate AllBound(ids: IdScheme, db: Store, post: Store, sys: string, eips: seq<Option<Eip>>,
                           byEip: map<string, seq<string>>, byNode: map<string, seq<string>>) {
    forall e :: Some(e) in eips ==>
      && (Trim(e.id) != "" ==> EipBound(db, post, sys, EipKey(ids, e.id), byEip))
      && NodeBound(db, post, sys, NodeOf(EipPlace(e)), byNode)
  }

  lemma AllAreBound(ids: IdScheme, db: Store, patches: Log, mid: Store, log: Log, post: Store, sys: string,
                    eips: seq<Option<Eip>>, eipRows: seq<(string, seq<string>)>, nodeRows: seq<(string, seq<string>)>)
    requires Did(ids, db, patches, mid, sys, EIP) && Did(ids, mid, log, post, sys, Domain) && sys != ""
    requires mid == Patch.PatchedAll(db, sys, Patch.EipKeys(ids, eips), Gathered(eipRows))
    requires NodesUpTo(mid, post, sys, NodeKeys(eips), Gathered(nodeRows))
    ensures AllBound(ids, db, post, sys, eips, Gathered(eipRows), Gathered(nodeRows))
  {
    hide Did, Patch.PatchedAll, NodesUpTo, EipBound, NodeBound, Gathered, EipKey, NodeOf, EipPlace, Trim;
    forall e | Some(e) in eips
      ensures Trim(e.id) != "" ==> EipBound(db, post, sys, EipKey(ids, e.id), Gathered(eipRows))
      ensures NodeBound(db, post, sys, NodeOf(EipPlace(e)), Gathered(nodeRows))
    {
      if Trim(e.id) != "" { EipIsBound(ids, db, mid, log, post, sys, eips, eipRows, e); }
      NodeIsBound(ids, db, patches, mid, post, sys, eips, nodeRows, e);
    }
  }

  /** Writes to other kinds leave that as it is. */
  lemma AllBoundSame(ids: IdScheme, db: Store, mid: Store, post: Store, sys: string, eips: seq<Option<Eip>>,
                     byEip: map<string, seq<string>>, byNode: map<string, seq<string>>)
    requires AllBound(ids, db, mid, sys, eips, byEip, byNode) && SameOn(mid, post, EIP) && SameOn(mid, post, Domain)
    ensures AllBound(ids, db, post, sys, eips, byEip, byNode)
  {
    hide EipKey, NodeOf, EipPlace, Trim, EipBound, NodeBound, SameOn;
    forall e | Some(e) in eips
      ensures Trim(e.id) != "" ==> EipBound(db, post, sys, EipKey(ids, e.id), byEip)
      ensures NodeBound(db, post, sys, NodeOf(EipPlace(e)), byNode)
    {
      EipBoundSame(db, mid, post, sys, EipKey(ids, e.id), byEip);
      NodeBoundSame(db, mid, post, sys, NodeOf(EipPlace(e)), byNode);
    }
  }

  lemma EipBoundSame(db: Store, mid: Store, post: Store, sys: string, key: string, m: map<string, seq<string>>)
    requires SameOn(mid, post, EIP)
    ensures EipBound(db, mid, sys, key, m) ==> EipBound(db, post, sys, key, m)
  {
    hide SameOn, SeparatorFree, ParseDomains;
    FirstSame(mid, post, ByUuid(EIP, sys, key));
  }

  lemma NodeBoundSame(db: Store, mid: Store, post: Store, sys: string, node: string, m: map<string, seq<string>>)
    requires SameOn(mid, post, Domain)
    ensures NodeBound(db, mid, sys, node, m) ==> NodeBound(db, post, sys, node, m)
  {
    hide HasNode;
    forall text ensures Holders(post, NodeDomains(sys, node), text) == Holders(mid, NodeDomains(sys, node), text) {}
  }

  /** `applyWAFDomainBindings`, from the two result lists of the binding. */
  method ApplyBindings(s: Syncer, sys: string, eips: seq<Option<Eip>>, eipRows: seq<(string, seq<string>)>,
                       nodeRows: seq<(string, seq<string>)>)
    returns (st: Tally, ghost patches: Log, ghost mid: Store, ghost domains: Log)
    requires Trimmed(sys)
    modifies s.client
    ensures Did(s.ids, old(s.client.store), patches, mid, sys, EIP) && Patch.PatchesOnly(patches)
    ensures Did(s.ids, mid, domains, s.client.store, sys, Domain)
    ensures st.errors == 0 ==>
              && mid == Patch.PatchedAll(old(s.client.store), sys, Patch.EipKeys(s.ids, eips), Gathered(eipRows))
              && NodesUpTo(mid, s.client.store, sys, NodeKeys(eips), Gathered(nodeRows))
    ensures st.errors == 0 && sys != "" ==>
              AllBound(s.ids, old(s.client.store), s.client.store, sys, eips, Gathered(eipRows), Gathered(nodeRows))
    ensures Patch.Quiet(old(s.client.store), sys, Patch.EipKeys(s.ids, eips), Gathered(eipRows)) &&
            AllQuiet(old(s.client.store), sys, NodeKeys(eips), Gathered(nodeRows)) ==>
              s.client.store == old(s.client.store) && st.added == 0 && st.updated == 0 && st.deleted == 0
    ensures s.client.Healthy() ==> st.errors == 0
  {
    hide Did, Patch.PatchedAll, NodesUpTo, AllBound, Gathered, AllQuiet, Patch.Quiet;
    ghost var db := s.client.store;
    var eipDomains := MapOf(eipRows);
    var nodeDomains := MapOf(nodeRows);
    st, patches := Patch.PatchEips(s, sys, eips, eipDomains);
    mid := s.client.store;
    var nodes;
    nodes, domains := SyncNodes(s, sys, eips, nodeDomains);
    st := Merged(st, nodes);
    if st.errors == 0 && sys != "" {
      AllAreBound(s.ids, db, patches, mid, domains, s.client.store, sys, eips, eipRows, nodeRows);
    }
  }
}
