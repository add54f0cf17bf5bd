/** Adding and deleting the domain CIs of one node, and the convergence of repeated runs. */
module DomainSync {
  import opened Text
  import opened Values
  import opened Rows
  import opened Remote
  import opened Ids
  import opened Events
  import opened Safety
  import opened Stats
  import opened Passes
  import opened Codec
  import opened Domains

  function DomainRow(sys: string, node: string, text: string, uuid: string): Row {
    map[Uuid := Str(uuid), SystemId := Str(sys), NodeName := Str(node), DomainText := Str(text)]
  }

  lemma DomainRowFacts(ids: IdScheme, db: Store, sys: string, node: string, text: string, uuid: string)
    requires Trimmed(text)
    ensures var row := DomainRow(sys, node, text, uuid); var c := Ci(Domain, EncodeRow(row));
            && Enabled(ids, db, DomainCreate(sys, node, row))
            && Hit(c, NodeDomains(sys, node)) && TextOf(c) == text
  {
    hide CleanList, Trimmed, Inked, ScalarRow, EncodeRow;
    var row := DomainRow(sys, node, text, uuid);
    DomainRowScalar(sys, node, text, uuid);
    ScalarRowEncodes(row);
    assert Trim(Sprint(row[DomainText])) == Trim(text) == text;
  }

  lemma DomainRowScalar(sys: string, node: string, text: string, uuid: string)
    ensures ScalarRow(DomainRow(sys, node, text, uuid))
  {}

  /** The store gained one item for each of the first n texts, in order, and nothing else changed. */
  ghost predicate Gained(db: Store, post: Store, q: Query, texts: seq<string>, n: nat)
    requires n <= |texts|
  {
    && post.next == db.next + n
    && Kept(db, post)
    && (forall i :: i in post.cis ==> i in db.cis || db.next <= i < post.next)
    && (forall k {:trigger texts[k]} :: 0 <= k < n ==> Shows(post, q, db.next + k, texts[k]))
  }

  /** Every item is still there as it was. */
  ghost predicate Kept(db: Store, post: Store) {
    forall i {:trigger post.cis[i]} {:trigger db.cis[i]} :: i in db.cis ==> i in post.cis && post.cis[i] == db.cis[i]
  }

  /** The item exists under the node and carries the text. */
  predicate Shows(db: Store, q: Query, id: nat, text: string) {
    id in db.cis && Hit(db.cis[id], q) && TextOf(db.cis[id]) == text
  }

  lemma GainedSnoc(db: Store, mid: Store, q: Query, texts: seq<string>, k: nat, row: Row)
    requires k < |texts| && Gained(db, mid, q, texts, k)
    requires var c := Ci(Domain, EncodeRow(row)); Hit(c, q) && TextOf(c) == texts[k]
    ensures Gained(db, Added(mid, Domain, row), q, texts, k + 1)
  {
    var post := Added(mid, Domain, row);
    forall j | 0 <= j < k + 1 ensures Shows(post, q, db.next + j, texts[j]) {
      assert j < k ==> Shows(mid, q, db.next + j, texts[j]);
    }
  }

  /** Add one domain item. */
  method AddDomain(s: Syncer, sys: string, node: string, text: string, t: Tally, ghost db: Store, ghost log: Log)
    returns (st: Tally, ghost all: Log, ghost row: Row)
    requires Trimmed(text) && Did(s.ids, db, log, s.client.store, sys, Domain)
    modifies s.client
    ensures Did(s.ids, db, all, s.client.store, sys, Domain)
    ensures st.deleted == t.deleted && st.skipped == t.skipped && st.updated == t.updated && st.errors >= t.errors
    ensures st.added + st.errors == t.added + t.errors + 1
    ensures var c := Ci(Domain, EncodeRow(row)); Hit(c, NodeDomains(sys, node)) && TextOf(c) == text
    ensures st.errors == t.errors ==> s.client.store == Added(old(s.client.store), Domain, row)
    ensures Kept(old(s.client.store), s.client.store)
    ensures s.client.Healthy() ==> st.errors == t.errors
  {
    var payload := DomainRow(sys, node, text, s.newUuid(s.client.calls));
    row, all := payload, log;
    DomainRowFacts(s.ids, s.client.store, sys, node, text, s.newUuid(s.client.calls));
    DidMore(s.ids, db, log, s.client.store, sys, Domain, DomainCreate(sys, node, row));
    var res, applied := s.client.AddCi(Domain, payload);
    if applied { all := Then(log, DomainCreate(sys, node, row)); }
    st := if res.Err? then Noted(t, text, "CMDB AddCI domain") else t.(added := t.added + 1);
  }

  /** The addition loop. */
  method AddDomains(s: Syncer, sys: string, node: string, texts: seq<string>, t: Tally)
    returns (st: Tally, ghost log: Log)
    requires forall d :: d in texts ==> Trimmed(d)
    modifies s.client
    ensures Did(s.ids, old(s.client.store), log, s.client.store, sys, Domain)
    ensures st.deleted == t.deleted && st.skipped == t.skipped && st.updated == t.updated && st.errors >= t.errors
    ensures st.added + st.errors == t.added + t.errors + |texts|
    ensures texts == [] ==> s.client.store == old(s.client.store)
    ensures Kept(old(s.client.store), s.client.store)
    ensures st.errors == t.errors ==>
              Gained(old(s.client.store), s.client.store, NodeDomains(sys, node), texts, |texts|)
    ensures s.client.Healthy() ==> st.errors == t.errors
  {
    st, log := t, Start;
    ghost var db := s.client.store;
    for k := 0 to |texts|
      invariant Did(s.ids, db, log, s.client.store, sys, Domain)
      invariant st.deleted == t.deleted && st.skipped == t.skipped && st.updated == t.updated && st.errors >= t.errors
      invariant st.added + st.errors == t.added + t.errors + k
      invariant k == 0 ==> s.client.store == db
      invariant s.client.Healthy() ==> st.errors == t.errors
      invariant Kept(db, s.client.store)
      invariant st.errors == t.errors ==> Gained(db, s.client.store, NodeDomains(sys, node), texts, k)
    {
      ghost var mid, row := s.client.store, map[];
      st, log, row := AddDomain(s, sys, node, texts[k], st, db, log);
      if st.errors == t.errors { GainedSnoc(db, mid, NodeDomains(sys, node), texts, k, row); }
    }
  }

  lemma DidMore(ids: IdScheme, db: Store, log: Log, mid: Store, sys: string, kind: Kind, e: Event)
    requires Did(ids, db, log, mid, sys, kind) && Enabled(ids, mid, e) && SystemOf(e) == sys && KindOf(e) == kind
    ensures Did(ids, db, Then(log, e), Do(mid, e), sys, kind)
  {}

  /** The ids that the first n texts are mapped to. */
  function Targets(existing: map<string, nat>, texts: seq<string>, n: nat): set<nat>
    requires n <= |texts|
  {
    if n == 0 then {}
    else if texts[n - 1] in existing then Targets(existing, texts, n - 1) + {existing[texts[n - 1]]}
    else Targets(existing, texts, n - 1)
  }

  /** The first n texts are distinct and mapped to items of the node that carry them. */
  predicate Held(db: Store, q: Query, existing: map<string, nat>, texts: seq<string>, n: nat)
    requires n <= |texts|
  {
    n > 0 ==>
      && Held(db, q, existing, texts, n - 1) && texts[n - 1] !in texts[..n - 1]
      && texts[n - 1] in existing && Shows(db, q, existing[texts[n - 1]], texts[n - 1])
  }

  lemma {:induction false} HeldAt(db: Store, q: Query, existing: map<string, nat>, texts: seq<string>, n: nat, k: nat)
    requires k < n <= |texts| && Held(db, q, existing, texts, n)
    ensures texts[k] !in texts[..k] && texts[k] in existing && Shows(db, q, existing[texts[k]], texts[k])
    ensures Held(db, q, existing, texts, k)
  {
    if k < n - 1 { HeldAt(db, q, existing, texts, n - 1, k); }
  }

  lemma {:induction false} TargetsShow(db: Store, q: Query, existing: map<string, nat>, texts: seq<string>, n: nat)
    requires n <= |texts| && Held(db, q, existing, texts, n)
    ensures forall i {:trigger i in Targets(existing, texts, n)} ::
              i in Targets(existing, texts, n) ==> i in db.cis && TextOf(db.cis[i]) in texts[..n]
  {
    if n > 0 {
      TargetsShow(db, q, existing, texts, n - 1);
      assert texts[..n] == texts[..n - 1] + [texts[n - 1]];
    }
  }

  /** Delete one domain item. */
  method DropDomain(s: Syncer, sys: string, node: string, text: string, id: nat, t: Tally, ghost db: Store,
                    ghost log: Log)
    returns (st: Tally, ghost all: Log, ghost gone: set<nat>)
    requires Did(s.ids, db, log, s.client.store, sys, Domain)
    requires id in s.client.store.cis && Hit(s.client.store.cis[id], NodeDomains(sys, node))
    modifies s.client
    ensures Did(s.ids, db, all, s.client.store, sys, Domain)
    ensures st.added == t.added && st.skipped == t.skipped && st.updated == t.updated && st.errors >= t.errors
    ensures st.deleted + st.errors == t.deleted + t.errors + 1
    ensures s.client.store == Cut(old(s.client.store), gone) && gone <= {id}
    ensures st.errors == t.errors ==> gone == {id}
    ensures s.client.Healthy() ==> st.errors == t.errors
  {
    all, gone := log, {};
    DidMore(s.ids, db, log, s.client.store, sys, Domain, DomainDrop(sys, node, id));
    var res, applied := s.client.DeleteCi(id);
    if applied { all, gone := Then(log, DomainDrop(sys, node, id)), {id}; }
    st := if res.Err? then Noted(t, text, "CMDB DeleteCI domain") else t.(deleted := t.deleted + 1);
  }

  /** The deletion loop. */
  method DropDomains(s: Syncer, sys: string, node: string, existing: map<string, nat>, texts: seq<string>, t: Tally)
    returns (st: Tally, ghost log: Log)
    requires Held(s.client.store, NodeDomains(sys, node), existing, texts, |texts|)
    modifies s.client
    ensures Did(s.ids, old(s.client.store), log, s.client.store, sys, Domain)
    ensures DropCounts(t, st, |texts|)
    ensures texts == [] ==> s.client.store == old(s.client.store)
    ensures st.errors == t.errors ==> s.client.store == Cut(old(s.client.store), Targets(existing, texts, |texts|))
    ensures s.client.Healthy() ==> st.errors == t.errors
  {
    hide *;
    st, log := t, Start;
    ghost var db := s.client.store;
    ghost var gone: set<nat> := {};
    NothingDropped(s.ids, db, sys, existing, texts, t);
    for k := 0 to |texts|
      invariant Dropped(s.ids, db, log, s.client.store, sys, existing, texts, k, t, st, gone)
      invariant s.client.Healthy() ==> st.errors == t.errors
    {
      st, log, gone := DropNext(s, sys, node, existing, texts, k, t, st, db, log, gone);
    }
    AllDropped(s.ids, db, log, s.client.store, sys, existing, texts, t, st, gone);
  }

  lemma AllDropped(ids: IdScheme, db: Store, log: Log, now: Store, sys: string, existing: map<string, nat>,
                   texts: seq<string>, t: Tally, st: Tally, gone: set<nat>)
    requires Dropped(ids, db, log, now, sys, existing, texts, |texts|, t, st, gone)
    ensures Did(ids, db, log, now, sys, Domain) && DropCounts(t, st, |texts|)
    ensures texts == [] ==> now == db
    ensures st.errors == t.errors ==> now == Cut(db, Targets(existing, texts, |texts|))
  {
    hide Did;
  }

  /** One turn of the deletion loop. */
  method DropNext(s: Syncer, sys: string, node: string, existing: map<string, nat>, texts: seq<string>, k: nat,
                  ghost t: Tally, before: Tally, ghost db: Store, ghost was: Log, ghost gone: set<nat>)
    returns (st: Tally, ghost log: Log, ghost out: set<nat>)
    requires k < |texts| && Held(db, NodeDomains(sys, node), existing, texts, |texts|)
    requires Dropped(s.ids, db, was, s.client.store, sys, existing, texts, k, t, before, gone)
    modifies s.client
    ensures Dropped(s.ids, db, log, s.client.store, sys, existing, texts, k + 1, t, st, out)
    ensures s.client.Healthy() ==> st.errors == before.errors
  {
    hide Dropped, Did, Held, Targets, Cut, Hit, TextOf, Shows, NodeDomains;
    ghost var mid, cut := s.client.store, {};
    DroppedStep(s.ids, db, was, mid, sys, NodeDomains(sys, node), existing, texts, k, t, before, gone);
    st, log, cut := DropDomain(s, sys, node, texts[k], existing[texts[k]], before, db, was);
    out := DroppedNext(s.ids, db, was, mid, log, s.client.store, sys, NodeDomains(sys, node), existing, texts, k, t,
                       before, st, gone, cut);
  }

  /** The items of the first k texts are gone, except where a deletion failed. */
  ghost predicate Dropped(ids: IdScheme, db: Store, log: Log, now: Store, sys: string, existing: map<string, nat>,
                          texts: seq<string>, k: nat, t: Tally, st: Tally, gone: set<nat>)
    requires k <= |texts|
  {
    && Did(ids, db, log, now, sys, Domain) && DropCounts(t, st, k)
    && now == Cut(db, gone) && gone <= Targets(existing, texts, k)
    && (st.errors == t.errors ==> gone == Targets(existing, texts, k))
  }

  predicate DropCounts(t: Tally, st: Tally, k: nat) {
    && st.added == t.added && st.skipped == t.skipped && st.updated == t.updated && st.errors >= t.errors
    && st.deleted + st.errors == t.deleted + t.errors + k
  }

  lemma NothingDropped(ids: IdScheme, db: Store, sys: string, existing: map<string, nat>, texts: seq<string>, t: Tally)
    ensures Dropped(ids, db, Start, db, sys, existing, texts, 0, t, t, {})
    ensures Targets(existing, texts, 0) == {} && Cut(db, {}) == db
  {}

  lemma DroppedStep(ids: IdScheme, db: Store, log: Log, mid: Store, sys: string, q: Query, existing: map<string, nat>,
                    texts: seq<string>, k: nat, t: Tally, st: Tally, gone: set<nat>)
    requires k < |texts| && Dropped(ids, db, log, mid, sys, existing, texts, k, t, st, gone)
    requires Held(db, q, existing, texts, |texts|)
    ensures Did(ids, db, log, mid, sys, Domain)
    ensures texts[k] in existing && existing[texts[k]] in mid.cis && Hit(mid.cis[existing[texts[k]]], q)
  {
    hide Did, Held, Targets, Cut, Hit;
    TargetFresh(db, mid, q, existing, texts, k, gone);
  }

  lemma DroppedNext(ids: IdScheme, db: Store, was: Log, mid: Store, log: Log, now: Store, sys: string, q: Query,
                    existing: map<string, nat>, texts: seq<string>, k: nat, t: Tally, before: Tally, st: Tally,
                    gone: set<nat>, cut: set<nat>) returns (out: set<nat>)
    requires k < |texts| && Held(db, q, existing, texts, |texts|) && texts[k] in existing
    requires Dropped(ids, db, was, mid, sys, existing, texts, k, t, before, gone)
    requires Did(ids, db, log, now, sys, Domain) && DropCounts(before, st, 1)
    requires now == Cut(mid, cut) && cut <= {existing[texts[k]]}
    requires st.errors == before.errors ==> cut == {existing[texts[k]]}
    ensures Dropped(ids, db, log, now, sys, existing, texts, k + 1, t, st, out)
  {
    hide Did, Held, Targets, Cut, Hit;
    TargetFresh(db, mid, q, existing, texts, k, gone);
    CutTwice(db, gone, cut);
    out := gone + cut;
  }

  lemma TargetFresh(db: Store, mid: Store, q: Query, existing: map<string, nat>, texts: seq<string>, k: nat,
                    gone: set<nat>)
    requires k < |texts| && Held(db, q, existing, texts, |texts|)
    requires mid == Cut(db, gone) && gone <= Targets(existing, texts, k)
    ensures texts[k] in existing && existing[texts[k]] in mid.cis && Hit(mid.cis[existing[texts[k]]], q)
    ensures existing[texts[k]] !in Targets(existing, texts, k)
    ensures Targets(existing, texts, k + 1) == Targets(existing, texts, k) + {existing[texts[k]]}
  {
    hide Hit, TextOf;
    HeldAt(db, q, existing, texts, |texts|, k);
    TargetsShow(db, q, existing, texts, k);
  }
}
