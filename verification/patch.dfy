/** Writing the bound domains of each EIP into its `domain_name` column. */
module Patch {
  import opened Text
  import opened Values
  import opened Rows
  import opened Remote
  import opened Ids
  import opened Events
  import opened Safety
  import opened Records
  import opened Upsert
  import opened Stats
  import opened Passes
  import opened Nodes
  import opened Codec

  /** The item would get a new domain list: something was bound, and the item says otherwise. */
  predicate Rewrites(row: Row, want: seq<string>) {
    want != [] && ParseDomains(Get(row, DomainName)) != want
  }

  predicate Writes(db: Store, sys: string, key: string, want: seq<string>) {
    var t := First(db, ByUuid(EIP, sys, key));
    t.Some? && Rewrites(db.cis[t.value].row, want)
  }

  /** The store after a patch when no call fails. */
  function PatchedBy(db: Store, sys: string, key: string, want: seq<string>): Store {
    if Writes(db, sys, key, want)
    then Patched(db, First(db, ByUuid(EIP, sys, key)).value, map[DomainName := Strs(want)])
    else db
  }

  /** `patchCMDBCIDomainName`. */
  method PatchDomainName(s: Syncer, sys: string, key: string, domains: seq<string>) returns (st: Tally, ghost log: Log)
    modifies s.client
    ensures Did(s.ids, old(s.client.store), log, s.client.store, sys, EIP) && PatchesOnly(log)
    ensures st.added == 0 && st.deleted == 0 && st.updated + st.skipped + st.errors == 1
    ensures st.errors == 0 ==>
              s.client.store == PatchedBy(old(s.client.store), sys, key, CleanList(domains))
    ensures !Writes(old(s.client.store), sys, key, CleanList(domains)) ==>
              s.client.store == old(s.client.store) && st.updated == 0
    ensures st.errors == 0 ==> (st.updated == 1 <==> Writes(old(s.client.store), sys, key, CleanList(domains)))
    ensures s.client.Healthy() ==> st.errors == 0
  {
    hide Did, Writes, PatchedBy, ParseDomains, CleanList, Enabled, Do, First, Hit, Updated;
    log := Start;
    PatchIdle(s.ids, s.client.store, sys);
    var q := ByUuid(EIP, sys, key);
    var found := s.client.GetCiId(q);
    if found.Err? { return Noted(ZERO, key, "CMDB GetCIID waf eip"), Start; }
    PatchDecides(s.client.store, sys, key, domains);
    if found.value.None? { return ZERO.(skipped := 1), Start; }
    var first := s.client.GetCiFirst(q);
    if first.Err? { return Noted(ZERO, key, "CMDB GetCIFirst waf eip"), Start; }
    var existing := ParseDomains(Get(first.value.value.ci.row, DomainName));
    var want := DomainNames(domains);
    if want == [] && existing != [] { return ZERO.(skipped := 1), Start; }
    var a := DomainNames(existing);
    var b := DomainNames(want);
    if a == b { return ZERO.(skipped := 1), Start; }
    st, log := WriteDomains(s, sys, key, want, found.value.value);
  }

  /** The update itself. */
  method WriteDomains(s: Syncer, sys: string, key: string, want: seq<string>, id: nat)
    returns (st: Tally, ghost log: Log)
    requires First(s.client.store, ByUuid(EIP, sys, key)) == Some(id) && want != [] && CleanList(want) == want
    modifies s.client
    ensures Did(s.ids, old(s.client.store), log, s.client.store, sys, EIP) && PatchesOnly(log)
    ensures st.added == 0 && st.deleted == 0 && st.skipped == 0 && st.updated + st.errors == 1
    ensures st.errors == 0 ==> s.client.store == Updated(old(s.client.store), id, map[DomainName := Strs(want)])
    ensures s.client.Healthy() ==> st.errors == 0
  {
    hide Did, CleanList, Enabled, Do, First, Hit, Updated;
    PatchDid(s.ids, s.client.store, sys, key, want, id);
    log := Start;
    var res, applied := s.client.UpdateCi(id, map[DomainName := Strs(want)]);
    if applied { log := Then(Start, DomainPatch(sys, key, want, id)); }
    st := if res.Err? then Noted(ZERO, key, "CMDB UpdateCI waf eip domain_name") else ZERO.(updated := 1);
  }

  /** When the code goes on to write, and what that makes of the store. */
  lemma PatchDecides(db: Store, sys: string, key: string, domains: seq<string>)
    ensures var t, want := First(db, ByUuid(EIP, sys, key)), CleanList(domains);
            && CleanList(want) == want
            && (t.None? ==> !Writes(db, sys, key, want))
            && (t.Some? ==>
                  var existing := ParseDomains(Get(db.cis[t.value].row, DomainName));
                  && (Writes(db, sys, key, want) <==>
                      !(want == [] && existing != []) && CleanList(existing) != CleanList(want))
                  && (Writes(db, sys, key, want) ==>
                        want != [] &&
                        PatchedBy(db, sys, key, want) == Updated(db, t.value, map[DomainName := Strs(want)])))
            && (!Writes(db, sys, key, want) ==> PatchedBy(db, sys, key, want) == db)
  {
    hide ParseDomains, CleanList, EncodeRow, Hit;
    CleanListIdempotent(domains);
    var t := First(db, ByUuid(EIP, sys, key));
    if t.Some? { ParsedIsClean(Get(db.cis[t.value].row, DomainName)); }
  }

  lemma PatchIdle(ids: IdScheme, db: Store, sys: string)
    ensures Did(ids, db, Start, db, sys, EIP)
  {}

  lemma PatchDid(ids: IdScheme, db: Store, sys: string, key: string, want: seq<string>, id: nat)
    requires First(db, ByUuid(EIP, sys, key)) == Some(id) && want != [] && CleanList(want) == want
    ensures var e := DomainPatch(sys, key, want, id);
            Did(ids, db, Start, db, sys, EIP) && Did(ids, db, Then(Start, e), Do(db, e), sys, EIP)
            && Do(db, e) == Updated(db, id, map[DomainName := Strs(want)])
  {}

  predicate PatchesOnly(log: Log) {
    log.Then? ==> PatchesOnly(log.prev) && log.last.DomainPatch?
  }

  /** A patched item holds the encoded list, and no lookup changes. */
  lemma PatchedRow(db: Store, sys: string, key: string, want: seq<string>)
    requires Writes(db, sys, key, want)
    ensures var post := PatchedBy(db, sys, key, want); var i := First(db, ByUuid(EIP, sys, key)).value;
            && i in post.cis && Get(post.cis[i].row, DomainName) == Encode(Strs(want))
            && First(post, ByUuid(EIP, sys, key)) == Some(i)
  {
    PatchAgrees(db, sys, key, want);
    FirstAgrees(db, PatchedBy(db, sys, key, want), ByUuid(EIP, sys, key));
  }

  lemma PatchAgrees(db: Store, sys: string, key: string, want: seq<string>)
    ensures AgreeOn(db, PatchedBy(db, sys, key, want), EIP)
  {
    var t := First(db, ByUuid(EIP, sys, key));
    if t.Some? {
      var row := db.cis[t.value].row;
      assert (row + EncodeRow(map[DomainName := Strs(want)])) - {DomainName} == row - {DomainName};
    }
  }

  /** Patching twice: the second patch is skipped exactly when the first was, or when no domain
      contains a separator. */
  lemma PatchTwice(db: Store, sys: string, key: string, want: seq<string>)
    requires CleanList(want) == want
    ensures !Writes(PatchedBy(db, sys, key, want), sys, key, want) <==>
            !Writes(db, sys, key, want) || SeparatorFree(want)
  {
    if Writes(db, sys, key, want) {
      PatchedRow(db, sys, key, want);
      RoundTripIff(want);
    }
  }

  /** Patching sees the order of domains: after writing one clean list, writing another is skipped
      only when the two agree element by element. */
  lemma PatchSeesOrder(db: Store, sys: string, key: string, want: seq<string>, other: seq<string>)
    requires CleanList(want) == want && Writes(db, sys, key, want) && SeparatorFree(want) && other != []
    ensures Writes(PatchedBy(db, sys, key, want), sys, key, other) <==> other != want
  {
    PatchedRow(db, sys, key, want);
    RoundTripIff(want);
  }

  /** The patch of one key leaves what the items of other keys say. */
  lemma PatchElsewhere(db: Store, sys: string, key: string, want: seq<string>, other: string, list: seq<string>)
    requires key != other
    ensures Writes(PatchedBy(db, sys, key, want), sys, other, list) == Writes(db, sys, other, list)
  {
    if Writes(db, sys, key, want) {
      PatchAgrees(db, sys, key, want);
      FirstAgrees(db, PatchedBy(db, sys, key, want), ByUuid(EIP, sys, other));
    }
  }

  // ---------- the loop over the EIPs of a system ----------

  /** The keys of the listed EIPs, each once. */
  function EipKeys(ids: IdScheme, eips: seq<Option<Eip>>): (keys: seq<string>)
    ensures NoDup(keys) && "" !in keys
    decreases |eips|
  {
    if eips == [] then []
    else
      var keys, last := EipKeys(ids, eips[..|eips| - 1]), eips[|eips| - 1];
      var key := if last.Some? then EipKey(ids, last.value.id) else "";
      if key == "" || key in keys then keys else keys + [key]
  }

  /** The domains bound to a key; an unbound key reads as the empty list. */
  function Bound(bound: map<string, seq<string>>, key: string): seq<string> {
    if key in bound then CleanList(bound[key]) else []
  }

  function PatchedAll(db: Store, sys: string, keys: seq<string>, bound: map<string, seq<string>>): Store
    decreases |keys|
  {
    if keys == [] then db
    else
      var key := keys[|keys| - 1];
      PatchedBy(PatchedAll(db, sys, keys[..|keys| - 1], bound), sys, key, Bound(bound, key))
  }

  lemma PatchedAllSnoc(db: Store, sys: string, keys: seq<string>, key: string, bound: map<string, seq<string>>)
    ensures PatchedAll(db, sys, keys + [key], bound) ==
            PatchedBy(PatchedAll(db, sys, keys, bound), sys, key, Bound(bound, key))
  {
    assert (keys + [key])[..|keys|] == keys;
  }

  /** No key's item would get a new list. */
  predicate Quiet(db: Store, sys: string, keys: seq<string>, bound: map<string, seq<string>>) {
    forall key :: key in keys ==> !Writes(db, sys, key, Bound(bound, key))
  }

  /** One turn of the loop: patch one key and merge the counters. */
  method PatchKey(s: Syncer, sys: string, key: string, bound: map<string, seq<string>>, t: Tally, ghost db: Store,
                  ghost log: Log)
    returns (st: Tally, ghost all: Log)
    requires Did(s.ids, db, log, s.client.store, sys, EIP) && PatchesOnly(log)
    modifies s.client
    ensures Did(s.ids, db, all, s.client.store, sys, EIP) && PatchesOnly(all)
    ensures st.added == t.added && st.deleted == t.deleted && st.errors >= t.errors
    ensures st.updated + st.skipped + st.errors == t.updated + t.skipped + t.errors + 1
    ensures st.errors == t.errors ==> s.client.store == PatchedBy(old(s.client.store), sys, key, Bound(bound, key))
    ensures !Writes(old(s.client.store), sys, key, Bound(bound, key)) ==>
              s.client.store == old(s.client.store) && st.updated == t.updated
    ensures s.client.Healthy() ==> st.errors == t.errors
  {
    ghost var mid, more := s.client.store, Start;
    var one;
    one, more := PatchDomainName(s, sys, key, if key in bound then bound[key] else []);
    st := Merged(t, one);
    all := PatchesAppend(s.ids, db, log, mid, more, s.client.store, sys);
  }

  /** The EIP loop of `applyWAFDomainBindings`. */
  method PatchEips(s: Syncer, sys: string, eips: seq<Option<Eip>>, bound: map<string, seq<string>>)
    returns (st: Tally, ghost log: Log)
    modifies s.client
    ensures Did(s.ids, old(s.client.store), log, s.client.store, sys, EIP) && PatchesOnly(log)
    ensures st.added == 0 && st.deleted == 0 && st.updated + st.skipped + st.errors == |EipKeys(s.ids, eips)|
    ensures st.errors == 0 ==>
              s.client.store == PatchedAll(old(s.client.store), sys, EipKeys(s.ids, eips), bound)
    ensures Quiet(old(s.client.store), sys, EipKeys(s.ids, eips), bound) ==>
              s.client.store == old(s.client.store) && st.updated == 0
    ensures s.client.Healthy() ==> st.errors == 0
  {
    st, log := ZERO, Start;
    ghost var db, all := s.client.store, EipKeys(s.ids, eips);
    ghost var keys: seq<string> := [];
    var seen: set<string> := {};
    for i := 0 to |eips|
      invariant keys == EipKeys(s.ids, eips[..i]) && forall k :: k in seen <==> k in keys
      invariant Did(s.ids, db, log, s.client.store, sys, EIP) && PatchesOnly(log)
      invariant st.added == 0 && st.deleted == 0 && st.updated + st.skipped + st.errors == |keys|
      invariant st.errors == 0 ==> s.client.store == PatchedAll(db, sys, keys, bound)
      invariant Quiet(db, sys, all, bound) ==> s.client.store == db && st.updated == 0
      invariant s.client.Healthy() ==> st.errors == 0
    {
      ghost var next := KeysStep(s.ids, eips, i);
      if eips[i].None? { continue; }
      var key := EipKey(s.ids, eips[i].value.id);
      if key == "" || key in seen { continue; }
      seen := seen + {key};
      PatchedAllSnoc(db, sys, keys, key, bound);
      st, log := PatchKey(s, sys, key, bound, st, db, log);
      keys := next;
    }
    assert eips[..|eips|] == eips;
  }

  lemma KeysStep(ids: IdScheme, eips: seq<Option<Eip>>, i: nat) returns (next: seq<string>)
    requires i < |eips|
    ensures next == EipKeys(ids, eips[..i + 1])
    ensures var keys := EipKeys(ids, eips[..i]); var key := if eips[i].Some? then EipKey(ids, eips[i].value.id) else "";
            next == if key == "" || key in keys then keys else keys + [key]
    ensures eips[i].Some? && EipKey(ids, eips[i].value.id) != "" ==> EipKey(ids, eips[i].value.id) in EipKeys(ids, eips)
  {
    assert eips[..i + 1][..i] == eips[..i];
    next := EipKeys(ids, eips[..i + 1]);
    KeysGrow(ids, eips, i + 1);
  }

  lemma {:induction false} KeysGrow(ids: IdScheme, eips: seq<Option<Eip>>, n: nat)
    requires n <= |eips|
    ensures forall k :: k in EipKeys(ids, eips[..n]) ==> k in EipKeys(ids, eips)
    decreases |eips|
  {
    if n == |eips| {
      assert eips[..n] == eips;
    } else {
      var init := eips[..|eips| - 1];
      assert init[..n] == eips[..n];
      KeysGrow(ids, init, n);
    }
  }

  lemma PatchesAppend(ids: IdScheme, db: Store, log: Log, mid: Store, one: Log, post: Store, sys: string)
    returns (all: Log)
    requires Did(ids, db, log, mid, sys, EIP) && Did(ids, mid, one, post, sys, EIP)
    requires PatchesOnly(log) && PatchesOnly(one)
    ensures Did(ids, db, all, post, sys, EIP) && PatchesOnly(all)
  {
    all := Append(log, one);
    RunAppend(ids, db, log, one);
    EveryAppend(log, one, InSystem(sys));
    EveryAppend(log, one, OfKind(EIP));
    PatchesOnlyAppend(log, one);
  }

  lemma {:induction false} PatchesOnlyAppend(a: Log, b: Log)
    requires PatchesOnly(a) && PatchesOnly(b)
    ensures PatchesOnly(Append(a, b))
  {
    if b.Then? { PatchesOnlyAppend(a, b.prev); }
  }

  /** Patches change nothing but the column they own. */
  lemma {:induction false} PatchesAgree(ids: IdScheme, db: Store, log: Log)
    requires Legal(ids, db, log) && PatchesOnly(log)
    ensures AgreeOn(db, Run(db, log), EIP)
  {
    if log.Then? {
      PatchesAgree(ids, db, log.prev);
      PatchedAlike(Run(db, log.prev), log.last.id, log.last.domains);
      AgreeTwice(db, Run(db, log.prev), Run(db, log), EIP);
    }
  }

  lemma PatchedAlike(db: Store, id: nat, domains: seq<string>)
    ensures AgreeOn(db, Events.Patched(db, id, map[DomainName := Strs(domains)]), EIP)
  {
    if id in db.cis {
      var row := db.cis[id].row;
      assert (row + EncodeRow(map[DomainName := Strs(domains)])) - {DomainName} == row - {DomainName};
    }
  }

  /** Whether a key outside the loop's keys would be written is not affected by the loop. */
  lemma {:induction false} PatchedAllElsewhere(db: Store, sys: string, keys: seq<string>,
                                               bound: map<string, seq<string>>,
                                               other: string, list: seq<string>)
    requires other !in keys
    ensures Writes(PatchedAll(db, sys, keys, bound), sys, other, list) == Writes(db, sys, other, list)
    decreases |keys|
  {
    if keys != [] {
      var init, key := keys[..|keys| - 1], keys[|keys| - 1];
      PatchedAllElsewhere(db, sys, init, bound, other, list);
      PatchElsewhere(PatchedAll(db, sys, init, bound), sys, key, Bound(bound, key), other, list);
    }
  }

  /** Each key after an error-free loop: it would be written again exactly when it was written and
      one of its domains contains a separator. */
  lemma {:induction false} PatchedAllKey(db: Store, sys: string, keys: seq<string>, bound: map<string, seq<string>>,
                                         key: string)
    requires NoDup(keys) && key in keys
    ensures var want := Bound(bound, key);
            !Writes(PatchedAll(db, sys, keys, bound), sys, key, want) <==>
            !Writes(db, sys, key, want) || SeparatorFree(want)
    decreases |keys|
  {
    var init, last := keys[..|keys| - 1], keys[|keys| - 1];
    var mid, want := PatchedAll(db, sys, init, bound), Bound(bound, last);
    assert keys == init + [last];
    if key in bound { CleanListIdempotent(bound[key]); }
    if key == last {
      assert last !in init;
      PatchedAllElsewhere(db, sys, init, bound, last, want);
      PatchTwice(mid, sys, last, want);
    } else {
      PatchedAllKey(db, sys, init, bound, key);
      PatchElsewhere(mid, sys, last, want, key, Bound(bound, key));
    }
  }

  /** A second loop over the same bindings writes nothing exactly when every list the first loop
      wrote is free of separators. */
  lemma PatchesSettle(ids: IdScheme, db: Store, sys: string, eips: seq<Option<Eip>>, bound: map<string, seq<string>>)
    ensures var keys := EipKeys(ids, eips);
            Quiet(PatchedAll(db, sys, keys, bound), sys, keys, bound) <==>
            forall key :: key in keys && Writes(db, sys, key, Bound(bound, key)) ==> SeparatorFree(Bound(bound, key))
  {
    var keys := EipKeys(ids, eips);
    forall key | key in keys
      ensures Writes(PatchedAll(db, sys, keys, bound), sys, key, Bound(bound, key)) <==>
              Writes(db, sys, key, Bound(bound, key)) && !SeparatorFree(Bound(bound, key))
    {
      PatchedAllKey(db, sys, keys, bound, key);
    }
  }

  /** The EIP item found under a key shows a list of domains. */
  predicate Says(db: Store, sys: string, key: string, list: seq<string>) {
    var t := First(db, ByUuid(EIP, sys, key));
    t.Some? ==> ParseDomains(Get(db.cis[t.value].row, DomainName)) == list
  }

  /** After an error-free loop the item of each listed EIP shows the domains bound to its key. */
  lemma PatchedSays(ids: IdScheme, db: Store, sys: string, eips: seq<Option<Eip>>, bound: map<string, seq<string>>,
                    e: Eip)
    requires Some(e) in eips && Trim(e.id) != "" && EipKey(ids, e.id) in bound
    requires var list := bound[EipKey(ids, e.id)]; CleanList(list) == list && list != [] && SeparatorFree(list)
    ensures Says(PatchedAll(db, sys, EipKeys(ids, eips), bound), sys, EipKey(ids, e.id), bound[EipKey(ids, e.id)])
  {
    hide PatchedAll, SeparatorFree, EipKeys;
    var key := EipKey(ids, e.id);
    assert key != "" by { KeyNotBlank(ids, e.id); }
    var i :| 0 <= i < |eips| && eips[i] == Some(e);
    var next := KeysStep(ids, eips, i);
    PatchedAllKey(db, sys, EipKeys(ids, eips), bound, key);
  }

  lemma KeyNotBlank(ids: IdScheme, id: string)
    ensures EipKey(ids, id) == "" <==> Trim(id) == ""
  {}

  lemma {:induction false} PatchedAgrees(db: Store, sys: string, keys: seq<string>, bound: map<string, seq<string>>)
    ensures AgreeOn(db, PatchedAll(db, sys, keys, bound), EIP)
    decreases |keys|
  {
    if keys != [] {
      hide AgreeOn, Writes;
      var init, key := keys[..|keys| - 1], keys[|keys| - 1];
      PatchedAgrees(db, sys, init, bound);
      var mid := PatchedAll(db, sys, init, bound);
      PatchAgrees(mid, sys, key, Bound(bound, key));
      AgreeTwice(db, mid, PatchedBy(mid, sys, key, Bound(bound, key)), EIP);
    }
  }

  /** Only items of keys with bound domains are written. */
  lemma {:induction false} PatchedOnly(db: Store, sys: string, keys: seq<string>, bound: map<string, seq<string>>,
                                       i: nat)
    requires i in db.cis
    requires forall key :: key in keys && key in bound && bound[key] != [] ==>
              First(db, ByUuid(EIP, sys, key)) != Some(i)
    ensures i in PatchedAll(db, sys, keys, bound).cis && PatchedAll(db, sys, keys, bound).cis[i] == db.cis[i]
    decreases |keys|
  {
    if keys != [] {
      hide AgreeOn, Writes;
      var init, key := keys[..|keys| - 1], keys[|keys| - 1];
      assert keys == init + [key];
      PatchedOnly(db, sys, init, bound, i);
      var mid := PatchedAll(db, sys, init, bound);
      PatchedAgrees(db, sys, init, bound);
      FirstAgrees(db, mid, ByUuid(EIP, sys, key));
      PatchOne(mid, sys, key, Bound(bound, key), i);
      if key !in bound || bound[key] == [] { assert Bound(bound, key) == []; }
    }
  }

  /** The item of a key without bound domains is left alone. */
  lemma UnboundStays(db: Store, sys: string, keys: seq<string>, bound: map<string, seq<string>>, key: string)
    requires (key in bound ==> bound[key] == []) && First(db, ByUuid(EIP, sys, key)).Some?
    ensures var i := First(db, ByUuid(EIP, sys, key)).value; var post := PatchedAll(db, sys, keys, bound);
            i in post.cis && post.cis[i] == db.cis[i]
  {
    PatchedOnly(db, sys, keys, bound, First(db, ByUuid(EIP, sys, key)).value);
  }

  lemma PatchOne(db: Store, sys: string, key: string, want: seq<string>, i: nat)
    requires i in db.cis && (want == [] || First(db, ByUuid(EIP, sys, key)) != Some(i))
    ensures i in PatchedBy(db, sys, key, want).cis && PatchedBy(db, sys, key, want).cis[i] == db.cis[i]
  {}
}
