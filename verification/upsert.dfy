/** What an error-free upsert does to the store, and why doing it twice changes nothing. */
module Upsert {
  import opened Text
  import opened Values
  import opened Rows
  import opened Remote
  import opened Ids
  import opened Events
  import opened Safety

  /** The record has its item, and change detection finds nothing to write. */
  predicate Settled(db: Store, kind: Kind, sys: string, r: Rec) {
    var t := Lookup(db, kind, sys, r);
    t.Some? && !Changed(db.cis[t.value].row, Merge(r.want, db.cis[t.value].row))
  }

  /** The store after the record's loop turn when no call fails. */
  function Upserted(db: Store, kind: Kind, sys: string, r: Rec): Store {
    var t := Lookup(db, kind, sys, r);
    if t.None? then Added(db, kind, r.add)
    else if Settled(db, kind, sys, r) then db
    else Rewrite(db, t.value, r.want)
  }

  function UpsertedAll(db: Store, kind: Kind, sys: string, rs: seq<Rec>): Store
    decreases |rs|
  {
    if rs == [] then db
    else Upserted(UpsertedAll(db, kind, sys, rs[..|rs| - 1]), kind, sys, rs[|rs| - 1])
  }

  lemma CreatedSettles(ids: IdScheme, db: Store, kind: Kind, sys: string, r: Rec)
    requires Sound(ids, kind, sys, r) && Lookup(db, kind, sys, r).None?
    ensures Settled(Added(db, kind, r.add), kind, sys, r)
  {
    ScalarRowEncodes(r.add);
    var post := Added(db, kind, r.add);
    var q := if r.inst.Some? then ByInst(kind, sys, r.inst.value) else ByUuid(kind, sys, r.uuid);
    assert forall j {:trigger Hit(post.cis[j], q)} ::
        j in post.cis && j < db.next ==> Hit(post.cis[j], q) == Hit(db.cis[j], q);
    FirstIs(post, q, db.next);
  }

  lemma RewrittenSettles(ids: IdScheme, db: Store, kind: Kind, sys: string, r: Rec, id: nat)
    requires Sound(ids, kind, sys, r) && Lookup(db, kind, sys, r) == Some(id)
    ensures Settled(Rewrite(db, id, r.want), kind, sys, r)
    ensures Lookup(Rewrite(db, id, r.want), kind, sys, r) == Some(id)
  {
    RefreshedRow(ids, db, kind, sys, r, id);
    RewriteWrites(db, id, r.want);
    var post := Rewrite(db, id, r.want);
    var q := if r.inst.Some? then ByInst(kind, sys, r.inst.value) else ByUuid(kind, sys, r.uuid);
    assert forall j {:trigger Hit(post.cis[j], q)} ::
        j in post.cis && j != id ==> Hit(post.cis[j], q) == Hit(db.cis[j], q);
    FirstIs(post, q, id);
    assert forall k :: k in r.want ==> k in r.add;
    WrittenIsSettled(db.cis[id].row, r.want);
  }

  lemma UpsertedSettles(ids: IdScheme, db: Store, kind: Kind, sys: string, r: Rec)
    requires Sound(ids, kind, sys, r)
    ensures Settled(Upserted(db, kind, sys, r), kind, sys, r)
  {
    var t := Lookup(db, kind, sys, r);
    if t.None? { CreatedSettles(ids, db, kind, sys, r); }
    else if !Settled(db, kind, sys, r) { RewrittenSettles(ids, db, kind, sys, r, t.value); }
  }

  /** A settled item compares equal to its record in the identity columns the record carries. */
  lemma SettledColumn(db: Store, kind: Kind, sys: string, r: Rec, k: Field, v: string)
    requires Settled(db, kind, sys, r) && Get(r.want, k) == Str(v) && v != "" && Trimmed(v)
    ensures var row := db.cis[Lookup(db, kind, sys, r).value].row;
            CompareStr(Get(row, k)) == v
  {
    var row := db.cis[Lookup(db, kind, sys, r).value].row;
    assert !Differs(Get(row, k), Merge(r.want, row)[k]);
  }

  /** The item a record finds shows its instance id or its uuid. */
  lemma FoundColumns(ids: IdScheme, db: Store, kind: Kind, sys: string, r: Rec, i: nat)
    requires Sound(ids, kind, sys, r) && Lookup(db, kind, sys, r) == Some(i)
    ensures i in db.cis
    ensures || CompareStr(Get(db.cis[i].row, Uuid)) == r.uuid
            || (r.inst.Some? && CompareStr(Get(db.cis[i].row, InstanceId)) == r.inst.value)
  {}

  /** The item of a settled record shows both. */
  lemma SettledColumns(ids: IdScheme, db: Store, kind: Kind, sys: string, r: Rec, i: nat)
    requires Sound(ids, kind, sys, r) && Settled(db, kind, sys, r) && Lookup(db, kind, sys, r) == Some(i)
    ensures i in db.cis && CompareStr(Get(db.cis[i].row, Uuid)) == r.uuid
    ensures r.inst.Some? ==> CompareStr(Get(db.cis[i].row, InstanceId)) == r.inst.value
  {
    if r.inst.Some? {
      SettledColumn(db, kind, sys, r, Uuid, r.uuid);
      SettledColumn(db, kind, sys, r, InstanceId, r.inst.value);
    }
  }

  /** Records with different uuids never share an item once one of them is settled. */
  lemma ItemsDiffer(ids: IdScheme, db: Store, kind: Kind, sys: string, r: Rec, o: Rec)
    requires Sound(ids, kind, sys, r) && Sound(ids, kind, sys, o) && r.uuid != o.uuid
    requires Settled(db, kind, sys, r) && Lookup(db, kind, sys, r).Some?
    ensures Lookup(db, kind, sys, r) != Lookup(db, kind, sys, o)
  {
    hide *;
    var i := Lookup(db, kind, sys, r).value;
    InstancesDiffer(ids, kind, sys, r, o);
    SettledColumns(ids, db, kind, sys, r, i);
    if Lookup(db, kind, sys, o) == Some(i) { FoundColumns(ids, db, kind, sys, o, i); }
  }

  /** Two states that differ in one item, which hits neither of the record's queries afterwards,
      and was not the record's own item before. */
  lemma LookupStable(db: Store, post: Store, kind: Kind, sys: string, r: Rec, j: nat)
    requires forall i :: i != j ==> (i in db.cis <==> i in post.cis)
    requires forall i :: i != j && i in db.cis ==> post.cis[i] == db.cis[i]
    requires j in post.cis ==> !Hit(post.cis[j], ByUuid(kind, sys, r.uuid)) &&
                               (r.inst.Some? ==> !Hit(post.cis[j], ByInst(kind, sys, r.inst.value)))
    requires Lookup(db, kind, sys, r).Some? && Lookup(db, kind, sys, r) != Some(j)
    ensures Lookup(post, kind, sys, r) == Lookup(db, kind, sys, r)
  {
    var i := Lookup(db, kind, sys, r).value;
    if r.inst.Some? {
      var q := ByInst(kind, sys, r.inst.value);
      if First(db, q).Some? {
        FirstIs(post, q, i);
      } else {
        forall k | k in post.cis ensures !Hit(post.cis[k], q) { assert k != j ==> !Hit(db.cis[k], q); }
        FirstIs(post, ByUuid(kind, sys, r.uuid), i);
      }
    } else {
      FirstIs(post, ByUuid(kind, sys, r.uuid), i);
    }
  }

  lemma StableUnderCreate(ids: IdScheme, db: Store, kind: Kind, sys: string, r: Rec, o: Rec)
    requires Sound(ids, kind, sys, r) && Sound(ids, kind, sys, o) && r.uuid != o.uuid
    requires Settled(db, kind, sys, r)
    ensures Settled(Added(db, kind, o.add), kind, sys, r)
  {
    hide First, Merge, CanonOf, MiddlewareUuid, Inked, Trimmed;
    InstancesDiffer(ids, kind, sys, r, o);
    ScalarRowEncodes(o.add);
    LookupStable(db, Added(db, kind, o.add), kind, sys, r, db.next);
  }

  lemma StableUnderRewrite(ids: IdScheme, db: Store, kind: Kind, sys: string, r: Rec, o: Rec, id: nat)
    requires Sound(ids, kind, sys, r) && Sound(ids, kind, sys, o) && r.uuid != o.uuid
    requires Settled(db, kind, sys, r) && Lookup(db, kind, sys, o) == Some(id)
    requires Lookup(db, kind, sys, r) != Some(id)
    ensures Settled(Rewrite(db, id, o.want), kind, sys, r)
  {
    InstancesDiffer(ids, kind, sys, r, o);
    RefreshedRow(ids, db, kind, sys, o, id);
    RewriteWrites(db, id, o.want);
    LookupStable(db, Rewrite(db, id, o.want), kind, sys, r, id);
  }

  /** Upserting one record leaves every other settled record settled. */
  lemma SettledStable(ids: IdScheme, db: Store, kind: Kind, sys: string, r: Rec, o: Rec)
    requires Sound(ids, kind, sys, r) && Sound(ids, kind, sys, o) && r.uuid != o.uuid
    requires Settled(db, kind, sys, r)
    ensures Settled(Upserted(db, kind, sys, o), kind, sys, r)
  {
    var t := Lookup(db, kind, sys, o);
    if t.None? {
      StableUnderCreate(ids, db, kind, sys, r, o);
    } else if !Settled(db, kind, sys, o) {
      ItemsDiffer(ids, db, kind, sys, r, o);
      StableUnderRewrite(ids, db, kind, sys, r, o, t.value);
    }
  }

  lemma InstancesDiffer(ids: IdScheme, kind: Kind, sys: string, r: Rec, o: Rec)
    requires Sound(ids, kind, sys, r) && Sound(ids, kind, sys, o) && r.uuid != o.uuid
    ensures r.inst.Some? <==> o.inst.Some?
    ensures r.inst.Some? ==> r.inst != o.inst
  {}

  // ---------- passes ----------

  ghost predicate SoundAll(ids: IdScheme, kind: Kind, sys: string, rs: seq<Rec>) {
    forall i :: 0 <= i < |rs| ==> Sound(ids, kind, sys, rs[i])
  }

  predicate DistinctUuids(rs: seq<Rec>) {
    forall i, j :: 0 <= i < j < |rs| ==> rs[i].uuid != rs[j].uuid
  }

  /** Two records want the same, up to change detection, wherever both want something. */
  predicate Agree(r: Rec, o: Rec) {
    NoQuarrel(r.want, o.want)
  }

  /** Records that the list repeats under one uuid agree. */
  predicate Agreeing(rs: seq<Rec>) {
    forall i, j {:trigger Agree(rs[i], rs[j])} ::
      0 <= i < j < |rs| && rs[i].uuid == rs[j].uuid ==> Agree(rs[i], rs[j])
  }

  predicate SettledAll(db: Store, kind: Kind, sys: string, rs: seq<Rec>) {
    forall i :: 0 <= i < |rs| ==> Settled(db, kind, sys, rs[i])
  }

  /** No record wants the printed form of a list that an item of its kind holds. */
  predicate Unprinted(db: Store, kind: Kind, rs: seq<Rec>) {
    forall i, j {:trigger db.cis[i], rs[j]} :: i in db.cis && db.cis[i].kind == kind && 0 <= j < |rs| ==>
      NotPrinted(db.cis[i].row, rs[j].want)
  }

  predicate NotPrinted(row: Row, want: Row) {
    forall k :: k in row && k in want ==> !Prints(row[k], want[k])
  }

  /** Writes are encoded, so no run brings in a list. */
  lemma {:induction false} UnprintedRun(db: Store, log: Log, kind: Kind, rs: seq<Rec>)
    requires Unprinted(db, kind, rs)
    ensures Unprinted(Run(db, log), kind, rs)
  {
    hide Unprinted, Do;
    if log.Then? {
      UnprintedRun(db, log.prev, kind, rs);
      UnprintedStep(Run(db, log.prev), log.last, kind, rs);
    }
  }

  lemma UnprintedStep(db: Store, e: Event, kind: Kind, rs: seq<Rec>)
    requires Unprinted(db, kind, rs)
    ensures Unprinted(Do(db, e), kind, rs)
  {
    hide Merge, Encode, Differs, IsEmpty, NotPrinted;
    var post := Do(db, e);
    forall i, j | i in post.cis && post.cis[i].kind == kind && 0 <= j < |rs|
      ensures NotPrinted(post.cis[i].row, rs[j].want)
    {
      if i in db.cis { NotPrintedLater(db, e, i, rs[j].want); } else { NotPrintedNew(db, e, i, rs[j].want); }
    }
  }

  lemma NotPrintedLater(db: Store, e: Event, i: nat, want: Row)
    requires i in db.cis && i in Do(db, e).cis && (db.cis[i].kind == Do(db, e).cis[i].kind ==>
              NotPrinted(db.cis[i].row, want))
    ensures Do(db, e).cis[i].kind == db.cis[i].kind
    ensures NotPrinted(Do(db, e).cis[i].row, want)
  {
    hide Merge, Differs, IsEmpty;
  }

  lemma NotPrintedNew(db: Store, e: Event, i: nat, want: Row)
    requires i !in db.cis && i in Do(db, e).cis
    ensures NotPrinted(Do(db, e).cis[i].row, want)
  {
    hide Merge, Differs, IsEmpty;
  }

  lemma UnprintedUpserted(db: Store, kind: Kind, sys: string, r: Rec, rs: seq<Rec>)
    requires Unprinted(db, kind, rs)
    ensures Unprinted(Upserted(db, kind, sys, r), kind, rs)
  {
    hide Unprinted, Settled, Lookup;
    UnprintedStep(db, Create(kind, sys, r), kind, rs);
    var t := Lookup(db, kind, sys, r);
    if t.Some? { UnprintedStep(db, Refresh(kind, sys, r, t.value), kind, rs); }
  }

  /** Records of one uuid that agree have one instance id, so they find the same item. */
  lemma SameItem(ids: IdScheme, db: Store, kind: Kind, sys: string, r: Rec, o: Rec)
    requires Sound(ids, kind, sys, r) && Sound(ids, kind, sys, o) && r.uuid == o.uuid && Agree(r, o)
    ensures r.inst == o.inst && Lookup(db, kind, sys, r) == Lookup(db, kind, sys, o)
  {
    hide First, MiddlewareUuid, CanonOf;
    if r.inst.Some? {
      assert !Differs(r.want[InstanceId], o.want[InstanceId]);
    }
  }

  /** Upserting a record leaves an agreeing record of the same uuid settled. */
  lemma SettledBeside(ids: IdScheme, db: Store, kind: Kind, sys: string, r: Rec, o: Rec)
    requires Sound(ids, kind, sys, r) && Sound(ids, kind, sys, o) && r.uuid == o.uuid && Agree(r, o)
    requires Settled(db, kind, sys, r)
    requires forall i {:trigger db.cis[i]} :: i in db.cis && db.cis[i].kind == kind ==>
              NotPrinted(db.cis[i].row, r.want)
    ensures Settled(Upserted(db, kind, sys, o), kind, sys, r)
  {
    hide Lookup, MiddlewareUuid, CanonOf, Inked, Trimmed, Merge, Changed, Written, NoQuarrel, Prints;
    SameItem(ids, db, kind, sys, r, o);
    if !Settled(db, kind, sys, o) {
      var i := Lookup(db, kind, sys, o).value;
      var post := Rewrite(db, i, o.want);
      RewrittenSettles(ids, db, kind, sys, o, i);
      SameItem(ids, post, kind, sys, r, o);
      RefreshedRow(ids, db, kind, sys, o, i);
      RewriteWrites(db, i, o.want);
      WrittenByAnother(db.cis[i].row, r.want, o.want);
    }
  }

  /** A list whose repetitions agree; what lists the store holds matters only if there are
      repetitions. */
  predicate Harmony(db: Store, kind: Kind, rs: seq<Rec>) {
    Agreeing(rs) && (DistinctUuids(rs) || Unprinted(db, kind, rs))
  }

  lemma PassStep(ids: IdScheme, db: Store, kind: Kind, sys: string, rs: seq<Rec>, i: nat)
    requires SoundAll(ids, kind, sys, rs) && Harmony(db, kind, rs) && i < |rs|
    requires i < |rs| - 1 ==> Settled(db, kind, sys, rs[i])
    ensures Settled(Upserted(db, kind, sys, rs[|rs| - 1]), kind, sys, rs[i])
  {
    hide Sound, Settled, Upserted, NotPrinted;
    var last := rs[|rs| - 1];
    if i == |rs| - 1 { UpsertedSettles(ids, db, kind, sys, last); }
    else if rs[i].uuid != last.uuid { SettledStable(ids, db, kind, sys, rs[i], last); }
    else { SettledBeside(ids, db, kind, sys, rs[i], last); }
  }

  /** After an error-free pass over such a list every record is settled. */
  lemma {:induction false} PassSettles(ids: IdScheme, db: Store, kind: Kind, sys: string, rs: seq<Rec>)
    requires SoundAll(ids, kind, sys, rs) && Harmony(db, kind, rs)
    ensures SettledAll(UpsertedAll(db, kind, sys, rs), kind, sys, rs)
    decreases |rs|
  {
    hide Sound, Settled, Upserted, Harmony;
    if rs != [] {
      var init := rs[..|rs| - 1];
      HarmonyInit(db, kind, rs);
      PassSettles(ids, db, kind, sys, init);
      HarmonyPass(db, kind, sys, init, rs);
      var mid := UpsertedAll(db, kind, sys, init);
      forall i | 0 <= i < |rs| ensures Settled(Upserted(mid, kind, sys, rs[|rs| - 1]), kind, sys, rs[i]) {
        assert i < |init| ==> Settled(mid, kind, sys, init[i]);
        PassStep(ids, mid, kind, sys, rs, i);
      }
    }
  }

  lemma HarmonyInit(db: Store, kind: Kind, rs: seq<Rec>)
    requires Harmony(db, kind, rs) && rs != []
    ensures Harmony(db, kind, rs[..|rs| - 1])
  {
    hide Agree, NotPrinted;
    var init := rs[..|rs| - 1];
    forall i, j | 0 <= i < j < |init| && init[i].uuid == init[j].uuid ensures Agree(init[i], init[j]) {
      assert init[i] == rs[i] && init[j] == rs[j] && Agree(rs[i], rs[j]);
    }
    forall i, j | Unprinted(db, kind, rs) && i in db.cis && db.cis[i].kind == kind && 0 <= j < |init|
      ensures NotPrinted(db.cis[i].row, init[j].want)
    {
      assert init[j] == rs[j];
    }
  }

  lemma {:induction false} HarmonyPass(db: Store, kind: Kind, sys: string, done: seq<Rec>, rs: seq<Rec>)
    requires Harmony(db, kind, rs)
    ensures Harmony(UpsertedAll(db, kind, sys, done), kind, rs)
    decreases |done|
  {
    hide Unprinted, Upserted, Agreeing, DistinctUuids;
    if done != [] {
      HarmonyPass(db, kind, sys, done[..|done| - 1], rs);
      var mid := UpsertedAll(db, kind, sys, done[..|done| - 1]);
      if Unprinted(mid, kind, rs) { UnprintedUpserted(mid, kind, sys, done[|done| - 1], rs); }
    }
  }

  lemma HarmonyRun(db: Store, log: Log, kind: Kind, rs: seq<Rec>)
    requires Harmony(db, kind, rs)
    ensures Harmony(Run(db, log), kind, rs)
  {
    hide Unprinted, Agreeing, DistinctUuids;
    if Unprinted(db, kind, rs) { UnprintedRun(db, log, kind, rs); }
  }

  lemma {:induction false} SettledPassIdle(db: Store, kind: Kind, sys: string, rs: seq<Rec>)
    requires SettledAll(db, kind, sys, rs)
    ensures UpsertedAll(db, kind, sys, rs) == db
    decreases |rs|
  {
    if rs != [] { SettledPassIdle(db, kind, sys, rs[..|rs| - 1]); }
  }

  /** Full-pass idempotence: the second error-free pass over the same list leaves the store alone. */
  lemma PassIdempotent(ids: IdScheme, db: Store, kind: Kind, sys: string, rs: seq<Rec>)
    requires SoundAll(ids, kind, sys, rs) && Harmony(db, kind, rs)
    ensures UpsertedAll(UpsertedAll(db, kind, sys, rs), kind, sys, rs) == UpsertedAll(db, kind, sys, rs)
  {
    PassSettles(ids, db, kind, sys, rs);
    SettledPassIdle(UpsertedAll(db, kind, sys, rs), kind, sys, rs);
  }

  /** In a store without ambiguous items, a settled record's item shows its uuid as it stands. */
  lemma SettledUuid(ids: IdScheme, db: Store, kind: Kind, sys: string, r: Rec)
    requires Sound(ids, kind, sys, r) && Settled(db, kind, sys, r)
    requires kind.MiddleSoftware? ==> AllDerived(ids, db)
    ensures Hit(db.cis[Lookup(db, kind, sys, r).value], ByUuid(kind, sys, r.uuid))
  {
    hide Changed, Merge, MiddlewareUuid, CanonOf, CompareStr;
    var i := Lookup(db, kind, sys, r).value;
    FoundColumns(ids, db, kind, sys, r, i);
    assert kind.MiddleSoftware? ==> Derived(ids, db.cis[i]);
  }

  /** Records of one uuid are settled together only if they agree. */
  lemma SettledTogether(ids: IdScheme, db: Store, kind: Kind, sys: string, r: Rec, o: Rec)
    requires Sound(ids, kind, sys, r) && Sound(ids, kind, sys, o) && r.uuid == o.uuid
    requires Settled(db, kind, sys, r) && Settled(db, kind, sys, o) && (kind.MiddleSoftware? ==> Unique(ids, db))
    ensures Agree(r, o)
  {
    hide Lookup, MiddlewareUuid, CanonOf, Inked, Trimmed, Changed, Merge, NoQuarrel, CompareStr, ScalarRow;
    var i, j := Lookup(db, kind, sys, r).value, Lookup(db, kind, sys, o).value;
    FoundColumns(ids, db, kind, sys, r, i);
    FoundColumns(ids, db, kind, sys, o, j);
    if kind.MiddleSoftware? {
      SettledUuid(ids, db, kind, sys, r);
      SettledUuid(ids, db, kind, sys, o);
      assert i != j ==> !Clash(db.cis[i], db.cis[j]);
    } else {
      LookupByUuid(db, kind, sys, r, o);
    }
    UnchangedForBoth(db.cis[i].row, r.want, o.want);
  }

  lemma LookupByUuid(db: Store, kind: Kind, sys: string, r: Rec, o: Rec)
    requires r.inst.None? && o.inst.None? && r.uuid == o.uuid
    ensures Lookup(db, kind, sys, r) == Lookup(db, kind, sys, o)
  {}

  /** A list with two disagreeing records of one uuid finds something to write in every state, so on
      every pass. */
  lemma DisagreementNeverSettles(ids: IdScheme, db: Store, kind: Kind, sys: string, rs: seq<Rec>)
    requires SoundAll(ids, kind, sys, rs) && !Agreeing(rs) && (kind.MiddleSoftware? ==> Unique(ids, db))
    ensures !SettledAll(db, kind, sys, rs)
  {
    hide Sound, Settled, Agree;
    if SettledAll(db, kind, sys, rs) {
      forall i, j | 0 <= i < j < |rs| && rs[i].uuid == rs[j].uuid ensures Agree(rs[i], rs[j]) {
        SettledTogether(ids, db, kind, sys, rs[i], rs[j]);
      }
    }
  }

  lemma UniqueUpserted(ids: IdScheme, db: Store, kind: Kind, sys: string, r: Rec)
    requires Sound(ids, kind, sys, r) && Unique(ids, db)
    ensures Unique(ids, Upserted(db, kind, sys, r))
  {
    hide Sound, Unique, Merge;
    var t := Lookup(db, kind, sys, r);
    if !Settled(db, kind, sys, r) {
      var e := if t.None? then Create(kind, sys, r) else Refresh(kind, sys, r, t.value);
      assert Legal(ids, db, Start) && Enabled(ids, Run(db, Start), e);
      UniqueRun(ids, db, Then(Start, e));
    }
  }

  lemma {:induction false} UniquePass(ids: IdScheme, db: Store, kind: Kind, sys: string, rs: seq<Rec>)
    requires SoundAll(ids, kind, sys, rs) && Unique(ids, db)
    ensures Unique(ids, UpsertedAll(db, kind, sys, rs))
    decreases |rs|
  {
    hide Sound, Unique, Upserted;
    if rs != [] {
      UniquePass(ids, db, kind, sys, rs[..|rs| - 1]);
      UniqueUpserted(ids, UpsertedAll(db, kind, sys, rs[..|rs| - 1]), kind, sys, rs[|rs| - 1]);
    }
  }

  /** After an error-free pass nothing is left to write exactly if records of one uuid agree. */
  lemma PassSettlesIff(ids: IdScheme, db: Store, kind: Kind, sys: string, rs: seq<Rec>)
    requires SoundAll(ids, kind, sys, rs) && Unprinted(db, kind, rs) && (kind.MiddleSoftware? ==> Unique(ids, db))
    ensures SettledAll(UpsertedAll(db, kind, sys, rs), kind, sys, rs) <==> Agreeing(rs)
  {
    hide Sound, Settled, Unique, Agreeing, Unprinted, Upserted;
    if Agreeing(rs) { PassSettles(ids, db, kind, sys, rs); }
    else {
      if kind.MiddleSoftware? { UniquePass(ids, db, kind, sys, rs); }
      DisagreementNeverSettles(ids, UpsertedAll(db, kind, sys, rs), kind, sys, rs);
    }
  }

  // ---------- what other steps leave settled ----------

  /** Equal up to the column the WAF step owns. */
  predicate Alike(a: Ci, b: Ci) {
    a.kind == b.kind && a.row - {DomainName} == b.row - {DomainName}
  }

  /** The items of one kind are the same in both states, up to the WAF column. */
  predicate AgreeOn(db: Store, post: Store, kind: Kind) {
    && (forall i :: i in db.cis && db.cis[i].kind == kind ==> i in post.cis && Alike(db.cis[i], post.cis[i]))
    && (forall i :: i in post.cis && post.cis[i].kind == kind ==> i in db.cis && Alike(db.cis[i], post.cis[i]))
  }

  lemma AgreeTwice(db: Store, mid: Store, post: Store, kind: Kind)
    requires AgreeOn(db, mid, kind) && AgreeOn(mid, post, kind)
    ensures AgreeOn(db, post, kind)
  {}

  /** The items of one kind are the same in both states. */
  predicate SameOn(db: Store, post: Store, kind: Kind) {
    && (forall i {:trigger db.cis[i]} :: i in db.cis && db.cis[i].kind == kind ==>
         i in post.cis && db.cis[i] == post.cis[i])
    && (forall i {:trigger post.cis[i]} :: i in post.cis && post.cis[i].kind == kind ==>
         i in db.cis && db.cis[i] == post.cis[i])
  }

  lemma OtherKindStep(ids: IdScheme, db: Store, e: Event, other: Kind)
    requires Enabled(ids, db, e) && KindOf(e) != other
    ensures SameOn(db, Do(db, e), other)
  {
    hide Sound, Orphan, Merge, EncodeRow, Encode, Lookup, ScalarRow, CleanList, Get, Written, First, IsEmpty, Trim;
    match e
    case Refresh(kind, sys, r, id) => RefreshedRow(ids, db, kind, sys, r, id);
    case _ =>
  }

  /** Writes to items of one kind leave the items of every other kind alone. */
  lemma {:induction false} OtherKinds(ids: IdScheme, db: Store, log: Log, kind: Kind, other: Kind)
    requires Legal(ids, db, log) && Every(log, OfKind(kind)) && kind != other
    ensures SameOn(db, Run(db, log), other) && AgreeOn(db, Run(db, log), other)
  {
    if log.Then? {
      OtherKinds(ids, db, log.prev, kind, other);
      OtherKindStep(ids, Run(db, log.prev), log.last, other);
    }
  }

  lemma AlikeColumn(a: Ci, b: Ci, k: Field)
    requires Alike(a, b) && k != DomainName
    ensures Get(a.row, k) == Get(b.row, k)
  {
    assert (k in a.row <==> k in a.row - {DomainName}) && (k in b.row <==> k in b.row - {DomainName});
    assert k in a.row ==> (a.row - {DomainName})[k] == a.row[k];
    assert k in b.row ==> (b.row - {DomainName})[k] == b.row[k];
  }

  lemma HitAlike(a: Ci, b: Ci, q: Query)
    requires Alike(a, b) && q.key != On(DomainName, if q.key.On? then q.key.value else "")
    ensures Hit(a, q) == Hit(b, q)
  {
    AlikeColumn(a, b, SystemId);
    if q.key.On? { AlikeColumn(a, b, q.key.field); }
  }

  lemma FirstSame(db: Store, post: Store, q: Query)
    requires SameOn(db, post, q.kind)
    ensures First(post, q) == First(db, q)
    ensures First(db, q).Some? ==>
              First(db, q).value in post.cis && post.cis[First(db, q).value] == db.cis[First(db, q).value]
  {
    match First(db, q)
    case Some(i) => FirstIs(post, q, i);
    case None =>
      forall i | i in post.cis ensures !Hit(post.cis[i], q) {
        assert i in db.cis ==> !Hit(db.cis[i], q);
      }
  }

  lemma FirstAgrees(db: Store, post: Store, q: Query)
    requires AgreeOn(db, post, q.kind) && (q.key.On? ==> q.key.field != DomainName)
    ensures First(post, q) == First(db, q)
  {
    forall i | i in db.cis && i in post.cis && Alike(db.cis[i], post.cis[i])
      ensures Hit(db.cis[i], q) == Hit(post.cis[i], q)
    {
      HitAlike(db.cis[i], post.cis[i], q);
    }
    match First(db, q)
    case Some(i) => FirstIs(post, q, i);
    case None =>
      forall i | i in post.cis ensures !Hit(post.cis[i], q) {
        assert i in db.cis ==> !Hit(db.cis[i], q);
      }
  }

  lemma SettledAgrees(ids: IdScheme, db: Store, post: Store, kind: Kind, sys: string, r: Rec)
    requires Sound(ids, kind, sys, r) && Settled(db, kind, sys, r) && AgreeOn(db, post, kind)
    ensures Settled(post, kind, sys, r)
  {
    if r.inst.Some? { FirstAgrees(db, post, ByInst(kind, sys, r.inst.value)); }
    FirstAgrees(db, post, ByUuid(kind, sys, r.uuid));
    var i := Lookup(db, kind, sys, r).value;
    forall k | k in r.want ensures Get(post.cis[i].row, k) == Get(db.cis[i].row, k) {
      AlikeColumn(db.cis[i], post.cis[i], k);
    }
    forall k | k in r.want ensures !Differs(Get(post.cis[i].row, k), Merge(r.want, post.cis[i].row)[k]) {
      assert !Differs(Get(db.cis[i].row, k), Merge(r.want, db.cis[i].row)[k]);
    }
  }

  /** The item of a settled record stands for the record's resource. */
  lemma SettledStands(ids: IdScheme, db: Store, kind: Kind, sys: string, r: Rec)
    requires Sound(ids, kind, sys, r) && Settled(db, kind, sys, r)
    ensures CloudUuid(ids, Sprint(Get(db.cis[Lookup(db, kind, sys, r).value].row, Uuid))) == Some(r.uuid)
  {
    hide Merge, MiddlewareUuid, ScalarRow;
    CanonRoundTrip(ids, r.uuid);
    var row := db.cis[Lookup(db, kind, sys, r).value].row;
    if Uuid in r.want {
      SettledColumn(db, kind, sys, r, Uuid, r.uuid);
      assert CloudUuid(ids, Sprint(Get(row, Uuid))) == CloudUuid(ids, r.uuid);
    }
  }

  /** The item of a settled record is no orphan of a reconcile that keeps the record's uuid. */
  lemma SettledNotOrphan(ids: IdScheme, db: Store, kind: Kind, sys: string, r: Rec, keep: set<string>,
                         types: seq<string>)
    requires Sound(ids, kind, sys, r) && Settled(db, kind, sys, r) && r.uuid in keep
    ensures !Orphan(ids, db.cis[Lookup(db, kind, sys, r).value].row, keep, types)
  {
    hide CloudUuid, Sound, Settled, Lookup;
    SettledStands(ids, db, kind, sys, r);
  }

  /** Deleting items other than its own leaves a record settled. */
  lemma SettledAfterDeletes(ids: IdScheme, db: Store, kind: Kind, sys: string, r: Rec, gone: set<nat>)
    requires Settled(db, kind, sys, r) && Lookup(db, kind, sys, r).value !in gone
    ensures Settled(db.(cis := db.cis - gone), kind, sys, r)
  {
    var post := db.(cis := db.cis - gone);
    var i := Lookup(db, kind, sys, r).value;
    if r.inst.Some? && First(db, ByInst(kind, sys, r.inst.value)).Some? {
      FirstIs(post, ByInst(kind, sys, r.inst.value), i);
    } else {
      if r.inst.Some? {
        assert First(post, ByInst(kind, sys, r.inst.value)).None?;
      }
      FirstIs(post, ByUuid(kind, sys, r.uuid), i);
    }
  }
}
