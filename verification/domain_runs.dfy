/** `reconcileNodeDomainCIs` and what repeated runs of it converge to. */
module DomainRuns {
  import opened Common
  import opened Text
  import opened Rows
  import opened Remote
  import opened Ids
  import opened Events
  import opened Safety
  import opened Stats
  import opened Passes
  import opened Codec
  import opened Domains
  import opened DomainSync
  import opened DomainTheory

  /** The node shows exactly the wanted texts. */
  ghost predicate Converged(db: Store, q: Query, want: seq<string>) {
    forall text {:trigger Holders(db, q, text)} :: text != "" ==> (Holders(db, q, text) != {} <==> text in want)
  }

  /** The node shows no domain. */
  ghost predicate Bare(db: Store, q: Query) {
    forall text {:trigger Holders(db, q, text)} :: text != "" ==> Holders(db, q, text) == {}
  }

  lemma BareMap(db: Store, q: Query)
    ensures Bare(db, q) <==> Texts(Listed(db, q)) == map[]
  {
    forall text ensures text in Texts(Listed(db, q)) <==> text != "" && Holders(db, q, text) != {} {
      ListedTexts(db, q, text);
    }
  }

  /** The run does not stop early: the node has its CI, and an empty wanted list does not face
      existing domains. */
  ghost predicate Proceeds(db: Store, sys: string, node: string, want: seq<string>) {
    && sys != "" && node != "" && HasNode(db, sys, node)
    && (want == [] ==> Bare(db, NodeDomains(sys, node)))
  }

  /** Every text of the node is where an error-free run takes it: a wanted one has an item, the items
      it had before if there were any; an unwanted one has lost an item. */
  ghost predicate Aligned(db: Store, post: Store, q: Query, domains: seq<string>) {
    forall text {:trigger Holders(post, q, text)} :: text != "" ==>
      var was, now := Holders(db, q, text), Holders(post, q, text);
      if exists d :: d in domains && Trim(d) == text then now != {} && (was != {} ==> now == was)
      else now <= was && |now| == if was == {} then 0 else |was| - 1
  }

  lemma NodeIdle(ids: IdScheme, db: Store, sys: string)
    ensures Did(ids, db, Start, db, sys, Domain)
  {}

  lemma SyncedAligns(db: Store, post: Store, q: Query, domains: seq<string>)
    requires Synced(db, post, q, CleanList(domains))
    ensures Aligned(db, post, q, domains)
  {
    hide Holders, Trim;
    forall text | text != ""
      ensures var was, now := Holders(db, q, text), Holders(post, q, text);
              if exists d :: d in domains && Trim(d) == text then now != {} && (was != {} ==> now == was)
              else now <= was && |now| == if was == {} then 0 else |was| - 1
    {
      assert TextSynced(db, post, q, CleanList(domains), text);
      assert text in CleanList(domains) <==> exists d :: d in domains && Trim(d) == text;
    }
  }

  /** No text is asked for. */
  predicate AllBlank(domains: seq<string>) {
    forall d :: d in domains ==> Trim(d) == ""
  }

  lemma BlankList(domains: seq<string>)
    ensures CleanList(domains) == [] <==> AllBlank(domains)
  {
    hide Trim;
    NonEmptyHas(CleanList(domains));
    forall d | d in domains && Trim(d) != "" ensures Trim(d) in CleanList(domains) {}
  }

  /** Brings the domain items of a node in line with a list.  Nothing is done without the node's CI, or
      when no domain is asked for while the node shows some; an error-free run otherwise aligns every
      text. */
  method ReconcileNodeDomains(s: Syncer, system: string, nodeName: string, domains: seq<string>)
    returns (st: Tally, ghost log: Log)
    modifies s.client
    ensures var q := NodeDomains(Trim(system), Trim(nodeName));
            && (Trim(system) == "" || Trim(nodeName) == ""
                 || !HasNode(old(s.client.store), Trim(system), Trim(nodeName))
                || (AllBlank(domains) && exists text :: text != "" && Holders(old(s.client.store), q, text) != {}) ==>
                  s.client.store == old(s.client.store))
            && (Trim(system) != "" && Trim(nodeName) != "" && HasNode(old(s.client.store), Trim(system), Trim(nodeName))
                && !AllBlank(domains) && st.errors == 0 ==>
                  Aligned(old(s.client.store), s.client.store, q, domains))
    ensures Did(s.ids, old(s.client.store), log, s.client.store, Trim(system), Domain)
    ensures st.errors == 0 && Proceeds(old(s.client.store), Trim(system), Trim(nodeName), CleanList(domains)) ==>
              Synced(old(s.client.store), s.client.store, NodeDomains(Trim(system), Trim(nodeName)), CleanList(domains))
    ensures !Proceeds(old(s.client.store), Trim(system), Trim(nodeName), CleanList(domains)) ==>
              s.client.store == old(s.client.store) && st.added == 0 && st.deleted == 0
    ensures Converged(old(s.client.store), NodeDomains(Trim(system), Trim(nodeName)), CleanList(domains)) ==>
              s.client.store == old(s.client.store) && st.added == 0 && st.deleted == 0
    ensures st.updated == 0
    ensures s.client.Healthy() ==> st.errors == 0
  {
    hide Holders, Synced, Aligned, AllBlank, Converged, Did;
    st, log := ZERO, Start;
    ghost var db := s.client.store;
    NodeIdle(s.ids, db, Trim(system));
    BlankList(domains);
    var sys, node := Trim(system), Trim(nodeName);
    if sys == "" || node == "" { return; }
    var owner := s.client.GetCiId(ByNode(SystemNode, sys, node));
    if owner.Err? { return Noted(ZERO, node, "CMDB GetCIID system_node for domain"), Start; }
    if owner.value.None? { return ZERO.(skipped := 1), Start; }
    var listed := ListDomains(s, sys, node);
    if listed.Err? { return Noted(ZERO, node, "CMDB list domain CI"), Start; }
    var existing := listed.value;
    BareMap(db, NodeDomains(sys, node));
    var want := DomainNames(domains);
    if want == [] && existing != map[] { return ZERO.(skipped := 1), Start; }
    st, log := SyncTexts(s, sys, node, existing, domains);
    if st.errors == 0 { SyncedAligns(db, s.client.store, NodeDomains(sys, node), domains); }
  }

  /** The plan and its two loops. */
  method SyncTexts(s: Syncer, sys: string, node: string, existing: map<string, nat>, domains: seq<string>)
    returns (st: Tally, ghost log: Log)
    requires existing == Texts(Listed(s.client.store, NodeDomains(sys, node)))
    modifies s.client
    ensures Did(s.ids, old(s.client.store), log, s.client.store, sys, Domain) && st.updated == 0
    ensures st.errors == 0 ==> Synced(old(s.client.store), s.client.store, NodeDomains(sys, node), CleanList(domains))
    ensures Converged(old(s.client.store), NodeDomains(sys, node), CleanList(domains)) ==>
              s.client.store == old(s.client.store) && st.added == 0 && st.deleted == 0
    ensures s.client.Healthy() ==> st.errors == 0
  {
    st, log := ZERO, Start;
    ghost var db, q, want := s.client.store, NodeDomains(sys, node), CleanList(domains);
    CleanListIdempotent(domains);
    var toAdd, toDelete := Plan(existing, domains);
    if toAdd == [] && toDelete == [] {
      IdlePlan(db, q, want);
      return ZERO.(skipped := 1), Start;
    }
    if Converged(db, q, want) { ConvergedPlan(db, q, want, toAdd, toDelete); }
    PlanTrimmed(existing, want);
    st, log := AddDomains(s, sys, node, toAdd, ZERO);
    st, log := FinishRun(s, sys, node, existing, want, toAdd, toDelete, st, db, log);
  }

  /** The deletion half of a run, after the additions. */
  method FinishRun(s: Syncer, sys: string, node: string, existing: map<string, nat>, ghost want: seq<string>,
                   toAdd: seq<string>, toDelete: seq<string>, t: Tally, ghost db: Store, ghost adds: Log)
    returns (st: Tally, ghost log: Log)
    requires existing == Texts(Listed(db, NodeDomains(sys, node)))
    requires Did(s.ids, db, adds, s.client.store, sys, Domain)
    requires t.updated == 0
    requires NoDup(toDelete) && forall d :: d in toDelete <==> d in existing && d !in want
    requires CleanList(want) == want && toAdd == Missing(existing, want)
    requires t.errors == 0 ==> Gained(db, s.client.store, NodeDomains(sys, node), toAdd, |toAdd|)
    requires Kept(db, s.client.store)
    modifies s.client
    ensures Did(s.ids, db, log, s.client.store, sys, Domain) && st.updated == 0
    ensures st.errors == 0 ==> Synced(db, s.client.store, NodeDomains(sys, node), want)
    ensures s.client.Healthy() ==> st.errors == t.errors
  {
    hide Held, Gained, Kept, Synced, Targets, TextOf, Hit, Texts, Listed, CleanList, Missing, Enabled, Do, SystemOf,
      KindOf, NoDup, Cut;
    ghost var q := NodeDomains(sys, node);
    ghost var mid := s.client.store;
    PlanHeld(db, q, toDelete, |toDelete|);
    HeldStill(db, mid, q, existing, toDelete, |toDelete|);
    ghost var one;
    st, one := DropDomains(s, sys, node, existing, toDelete, t);
    log := Append(adds, one);
    RunAppend(s.ids, db, adds, one);
    EveryAppend(adds, one, InSystem(sys));
    EveryAppend(adds, one, OfKind(Domain));
    if st.errors == 0 { RunSyncs(db, mid, q, want, toAdd, toDelete); }
  }

  lemma HeldStill(db: Store, mid: Store, q: Query, existing: map<string, nat>, texts: seq<string>, n: nat)
    requires n <= |texts| && Held(db, q, existing, texts, n)
    requires Kept(db, mid)
    ensures Held(mid, q, existing, texts, n)
  {
    if n > 0 { HeldStill(db, mid, q, existing, texts, n - 1); }
  }

  lemma PlanTrimmed(existing: map<string, nat>, want: seq<string>)
    requires CleanList(want) == want
    ensures forall d :: d in Missing(existing, want) ==> Trimmed(d)
  {
    CleanMembers(want);
    MissingMembers(existing, want);
  }

  /** An empty plan is itself a synchronised outcome. */
  lemma IdlePlan(db: Store, q: Query, want: seq<string>)
    requires CleanList(want) == want && Missing(Texts(Listed(db, q)), want) == []
    requires forall d :: d in Texts(Listed(db, q)) ==> d in want
    ensures Synced(db, db, q, want)
  {
    CleanMembers(want);
    MissingMembers(Texts(Listed(db, q)), want);
    forall text | text != "" ensures TextSynced(db, db, q, want, text) {
      ListedTexts(db, q, text);
      assert text in want ==> text in Texts(Listed(db, q)) || text in Missing(Texts(Listed(db, q)), want);
    }
  }

  /** When the node shows exactly the wanted texts the plan is empty. */
  lemma ConvergedPlan(db: Store, q: Query, want: seq<string>, toAdd: seq<string>, toDelete: seq<string>)
    requires CleanList(want) == want && Converged(db, q, want)
    requires toAdd == Missing(Texts(Listed(db, q)), want)
    requires forall d :: d in toDelete <==> d in Texts(Listed(db, q)) && d !in want
    ensures toAdd == [] && toDelete == []
  {
    CleanMembers(want);
    MissingMembers(Texts(Listed(db, q)), want);
    forall d ensures d in Texts(Listed(db, q)) <==> d in want {
      ListedTexts(db, q, d);
      assert d != "" ==> (Holders(db, q, d) != {} <==> d in want);
    }
    NonEmptyHas(toAdd);
    NonEmptyHas(toDelete);
  }

  // ---------- convergence ----------

  ghost predicate UniqueTexts(db: Store, q: Query) {
    forall text {:trigger Holders(db, q, text)} :: text != "" ==> |Holders(db, q, text)| <= 1
  }

  /** From unique texts one error-free run leaves exactly the wanted set, still unique. */
  lemma RunConverges(db: Store, post: Store, q: Query, want: seq<string>)
    requires Synced(db, post, q, want) && UniqueTexts(db, q)
    ensures Converged(post, q, want) && UniqueTexts(post, q)
  {
    forall text | text != ""
      ensures (Holders(post, q, text) != {} <==> text in want) && |Holders(post, q, text)| <= 1
    {
      assert TextSynced(db, post, q, want, text);
      assert |Holders(db, q, text)| <= 1;
    }
  }

  /** Another node's domains are untouched by the run. */
  lemma RunLeavesOthers(db: Store, post: Store, sys: string, node: string, want: seq<string>, o: Query, text: string)
    requires Synced(db, post, NodeDomains(sys, node), want)
    requires o.kind != Domain || o.sys != sys || (exists other :: other != node && o.key == On(NodeName, other))
    ensures Holders(post, o, text) == Holders(db, o, text)
  {
    var q := NodeDomains(sys, node);
    assert forall c: Ci {:trigger Hit(c, o)} :: Hit(c, o) ==> !Hit(c, q);
    forall i | i in Holders(post, o, text) ensures i in Holders(db, o, text) {
      assert !Hit(post.cis[i], q);
    }
    forall i | i in Holders(db, o, text) ensures i in Holders(post, o, text) {
      assert !Hit(db.cis[i], q);
    }
  }

  ghost predicate Chain(c: Trail<Store>, q: Query, want: seq<string>) {
    c.Next? ==> Chain(c.prev, q, want) && Synced(c.prev.db, c.db, q, want)
  }

  /** With duplicates, each run removes one item per unwanted text, so a text with m items is gone
      after m runs and not before. */
  lemma {:induction false} UnwantedCounts(c: Trail<Store>, q: Query, want: seq<string>, text: string)
    requires Chain(c, q, want) && text != "" && text !in want
    ensures var m, n := |Holders(Origin(c), q, text)|, Length(c);
            |Holders(c.db, q, text)| == if n <= m then m - n else 0
  {
    if c.Next? {
      UnwantedCounts(c.prev, q, want, text);
      assert TextSynced(c.prev.db, c.db, q, want, text);
    }
  }

  /** A wanted text is there after the first run, and its items then stay. */
  lemma {:induction false} WantedStays(c: Trail<Store>, q: Query, want: seq<string>, text: string)
    requires Chain(c, q, want) && text != "" && text in want && c.Next?
    ensures Holders(c.db, q, text) != {}
    ensures c.prev.Next? ==> Holders(c.db, q, text) == Holders(c.prev.db, q, text)
  {
    assert TextSynced(c.prev.db, c.db, q, want, text);
    if c.prev.Next? { WantedStays(c.prev, q, want, text); }
  }

  /** Repeated runs converge exactly when they are as many as the highest multiplicity of an
      unwanted text. */
  lemma ChainConverges(c: Trail<Store>, q: Query, want: seq<string>)
    requires Chain(c, q, want) && c.Next?
    ensures Converged(c.db, q, want) <==>
            forall text :: text != "" && text !in want ==> |Holders(Origin(c), q, text)| <= Length(c)
  {
    forall text | text != ""
      ensures (Holders(c.db, q, text) != {} <==> text in want) <==>
              (text !in want ==> |Holders(Origin(c), q, text)| <= Length(c))
    {
      if text in want { WantedStays(c, q, want, text); }
      else { UnwantedCounts(c, q, want, text); }
    }
  }
}
