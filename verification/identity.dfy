/** Exactly which stores keep unambiguous identities over every run. */
module Identity {
  import opened Text
  import opened Values
  import opened Rows
  import opened Remote
  import opened Ids
  import opened Events
  import opened Safety

  /** Whatever the cloud lists say and whichever calls fail, no two items ever become ambiguous. */
  ghost predicate StaysClear(ids: IdScheme, db: Store) {
    forall log {:trigger Legal(ids, db, log)} :: Legal(ids, db, log) ==> NoClash(Run(db, log))
  }

  /** The only trimmed text that the uuid is derived from. */
  ghost predicate OnlySpelling(ids: IdScheme, inst: string, uuid: string) {
    forall other {:trigger MiddlewareUuid(ids, other)} ::
      Inked(other) && Trimmed(other) && MiddlewareUuid(ids, other) == Some(uuid) ==> other == inst
  }

  /** An item that does not carry its derived uuid is harmless if no other item carries it and no
      other instance id leads to it. */
  ghost predicate Harmless(ids: IdScheme, db: Store, i: nat)
    requires i in db.cis
  {
    var c := db.cis[i];
    !Derived(ids, c) ==>
      var inst := Get(c.row, InstanceId).s;
      var due := MiddlewareUuid(ids, inst).value;
      OnlySpelling(ids, inst, due) && Alone(db, MiddleSoftware, Get(c.row, SystemId).s, due, i)
  }

  ghost predicate AllHarmless(ids: IdScheme, db: Store) {
    forall i {:trigger Harmless(ids, db, i)} :: i in db.cis ==> Harmless(ids, db, i)
  }

  /** A middleware item after a write is what it was or what an upsert made it. */
  lemma MiddlewareStep(ids: IdScheme, db: Store, e: Event, j: nat)
    requires Enabled(ids, db, e) && j in Do(db, e).cis && Do(db, e).cis[j].kind.MiddleSoftware?
    ensures var c := Do(db, e).cis[j];
            || (j in db.cis && c == db.cis[j])
            || (&& (e.Create? || (e.Refresh? && e.id == j)) && e.kind.MiddleSoftware?
                && Get(c.row, SystemId) == Str(e.sys) && Get(c.row, Uuid) == Str(e.rec.uuid) && Derived(ids, c))
  {
    hide Orphan, Lookup, MiddlewareUuid, Inked, Trimmed, Written, Derived;
    match e
    case Create(kind, sys, r) =>
      ScalarRowEncodes(r.add);
      UpsertDerived(ids, kind, sys, r, Ci(kind, r.add));
    case Refresh(kind, sys, r, id) =>
      RefreshedRow(ids, db, kind, sys, r, id);
      RewriteWrites(db, id, r.want);
      UpsertDerived(ids, kind, sys, r, db.cis[id].(row := Written(db.cis[id].row, r.want)));
    case NodeRefresh(_, _, admin, id) => RewriteWrites(db, id, map[AdminName := Str(admin)]);
    case _ =>
  }

  /** Without clash the item with an instance id is the one the lookup finds. */
  lemma FoundByInst(db: Store, sys: string, inst: string, i: nat)
    requires NoClash(db) && i in db.cis && Hit(db.cis[i], ByInst(MiddleSoftware, sys, inst))
    ensures First(db, ByInst(MiddleSoftware, sys, inst)) == Some(i)
  {
    var k := First(db, ByInst(MiddleSoftware, sys, inst)).value;
    if k != i { assert Clash(db.cis[k], db.cis[i]); }
  }

  /** Upserts of other items cannot bring up the uuid due to a harmless one. */
  lemma HarmlessStep(ids: IdScheme, db: Store, e: Event, i: nat)
    requires NoClash(db) && Enabled(ids, db, e) && i in db.cis && i in Do(db, e).cis
    requires Harmless(ids, db, i) && Do(db, e).cis[i] == db.cis[i]
    ensures Harmless(ids, Do(db, e), i)
  {
    hide Clash, Orphan, MiddlewareUuid, Inked, Trimmed, NoClash, Do;
    var c := db.cis[i];
    if !Derived(ids, c) {
      var inst, sys := Get(c.row, InstanceId).s, Get(c.row, SystemId).s;
      var due := MiddlewareUuid(ids, inst).value;
      var q := ByUuid(MiddleSoftware, sys, due);
      FoundByInst(db, sys, inst, i);
      forall j | j in Do(db, e).cis && j != i ensures !Hit(Do(db, e).cis[j], q) {
        if Do(db, e).cis[j].kind.MiddleSoftware? { MiddlewareStep(ids, db, e, j); }
        assert j in db.cis ==> !Hit(db.cis[j], q);
      }
    }
  }

  lemma HarmlessTakesNothing(ids: IdScheme, db: Store, e: Event)
    requires NoClash(db) && AllHarmless(ids, db) && Enabled(ids, db, e)
    ensures !TakesOver(db, e)
  {
    hide Orphan, MiddlewareUuid, Inked, Trimmed, OnlySpelling;
    if e.Refresh? {
      var c := db.cis[e.id];
      assert Harmless(ids, db, e.id);
      if Derived(ids, c) { DerivedAlone(ids, db, e.kind, e.sys, e.rec, e.id); }
      else if Get(c.row, Uuid) == Str(e.rec.uuid) {
        forall j | j in db.cis && j != e.id ensures !Hit(db.cis[j], ByUuid(e.kind, e.sys, e.rec.uuid)) {
          assert !Clash(db.cis[e.id], db.cis[j]);
        }
      }
    }
  }

  lemma ClearHarmlessStep(ids: IdScheme, db: Store, e: Event)
    requires NoClash(db) && AllHarmless(ids, db) && Enabled(ids, db, e)
    ensures NoClash(Do(db, e)) && AllHarmless(ids, Do(db, e))
  {
    hide NoClash, Harmless, Enabled, Do, TakesOver;
    HarmlessTakesNothing(ids, db, e);
    ClearStep(ids, db, e);
    forall i | i in Do(db, e).cis ensures Harmless(ids, Do(db, e), i) {
      HarmlessAfter(ids, db, e, i);
    }
  }

  lemma HarmlessAfter(ids: IdScheme, db: Store, e: Event, i: nat)
    requires NoClash(db) && AllHarmless(ids, db) && Enabled(ids, db, e) && i in Do(db, e).cis
    ensures Harmless(ids, Do(db, e), i)
  {
    hide NoClash, Enabled, Do, OnlySpelling, Alone;
    if Do(db, e).cis[i].kind.MiddleSoftware? { MiddlewareStep(ids, db, e, i); }
    if i in db.cis && Do(db, e).cis[i] == db.cis[i] {
      assert Harmless(ids, db, i);
      HarmlessStep(ids, db, e, i);
    }
  }

  lemma {:induction false} HarmlessRun(ids: IdScheme, db: Store, log: Log)
    requires NoClash(db) && AllHarmless(ids, db) && Legal(ids, db, log)
    ensures NoClash(Run(db, log)) && AllHarmless(ids, Run(db, log))
  {
    hide NoClash, AllHarmless, Enabled, Do;
    if log.Then? {
      HarmlessRun(ids, db, log.prev);
      ClearHarmlessStep(ids, Run(db, log.prev), log.last);
    }
  }

  // ---------- the condition is needed ----------

  /** A record that a cloud list with the given instance id yields. */
  function StrayRec(sys: string, inst: string, u: string): Rec {
    var want: Row := map[NodeName := Str("n"), InstanceId := Str(inst), Uuid := Str(u)];
    Rec(inst, u, Some(inst), "n", want, want[SystemId := Str(sys)])
  }

  lemma StrayRecSound(ids: IdScheme, sys: string, inst: string, u: string)
    requires Inked(inst) && Trimmed(inst) && MiddlewareUuid(ids, inst) == Some(u)
    ensures Sound(ids, MiddleSoftware, sys, StrayRec(sys, inst, u))
  {
    assert !IsSpace("n"[0]);
  }

  /** The cloud lists an item's own instance id. */
  lemma Relisted(ids: IdScheme, db: Store, sys: string, inst: string, u: string, i: nat) returns (e: Event)
    requires NoClash(db) && i in db.cis && Hit(db.cis[i], ByInst(MiddleSoftware, sys, inst))
    requires Inked(inst) && Trimmed(inst) && MiddlewareUuid(ids, inst) == Some(u)
    ensures Enabled(ids, db, e) && (NoClash(Do(db, e)) <==> Alone(db, MiddleSoftware, sys, u, i))
  {
    hide NoClash, Sound, Do, Hit, Alone;
    StrayRecSound(ids, sys, inst, u);
    FoundByInst(db, sys, inst, i);
    e := Refresh(MiddleSoftware, sys, StrayRec(sys, inst, u), i);
    ClearStep(ids, db, e);
  }

  /** The cloud lists another spelling of the uuid due to item i: some other item gets that uuid. */
  lemma Respelled(ids: IdScheme, db: Store, sys: string, other: string, u: string, i: nat) returns (e: Event, j: nat)
    requires i in db.cis && !Hit(db.cis[i], ByInst(MiddleSoftware, sys, other))
    requires !Hit(db.cis[i], ByUuid(MiddleSoftware, sys, u))
    requires Inked(other) && Trimmed(other) && MiddlewareUuid(ids, other) == Some(u)
    ensures Enabled(ids, db, e) && i in Do(db, e).cis && Do(db, e).cis[i] == db.cis[i]
    ensures j != i && j in Do(db, e).cis
    ensures Hit(Do(db, e).cis[j], ByUuid(MiddleSoftware, sys, u))
              && Hit(Do(db, e).cis[j], ByInst(MiddleSoftware, sys, other))
  {
    hide Inked, Trimmed, MiddlewareUuid, Written;
    var r := StrayRec(sys, other, u);
    StrayRecSound(ids, sys, other, u);
    var t := Lookup(db, MiddleSoftware, sys, r);
    if t.Some? {
      j := t.value;
      e := Refresh(MiddleSoftware, sys, r, j);
      RefreshedRow(ids, db, MiddleSoftware, sys, r, j);
      RewriteWrites(db, j, r.want);
    } else {
      j := db.next;
      e := Create(MiddleSoftware, sys, r);
      ScalarRowEncodes(r.add);
    }
  }

  lemma AnotherShows(db: Store, sys: string, u: string, i: nat, j: nat)
    requires j in db.cis && j != i && Hit(db.cis[j], ByUuid(MiddleSoftware, sys, u))
    ensures !Alone(db, MiddleSoftware, sys, u, i)
  {}

  lemma OneMore(ids: IdScheme, db: Store, e: Event)
    requires StaysClear(ids, db) && Enabled(ids, db, e)
    ensures StaysClear(ids, Do(db, e)) && NoClash(Do(db, e))
  {
    hide NoClash, Enabled, Do;
    var first := Then(Start, e);
    assert Run(db, Start) == db && Legal(ids, db, Start);
    assert Legal(ids, db, first) && Run(db, first) == Do(db, e);
    forall log | Legal(ids, Do(db, e), log) ensures NoClash(Run(Do(db, e), log)) {
      RunAppend(ids, db, first, log);
      assert Legal(ids, db, Append(first, log));
    }
  }

  lemma ClearIsHarmless(ids: IdScheme, db: Store, i: nat)
    requires StaysClear(ids, db) && i in db.cis
    ensures Harmless(ids, db, i)
  {
    hide NoClash, Enabled, Do, StaysClear, Alone, Inked, Trimmed, MiddlewareUuid;
    ClearNow(ids, db);
    var c := db.cis[i];
    if !Derived(ids, c) {
      var inst, sys := Get(c.row, InstanceId).s, Get(c.row, SystemId).s;
      var due := MiddlewareUuid(ids, inst).value;
      var again := Relisted(ids, db, sys, inst, due, i);
      OneMore(ids, db, again);
      forall other | Inked(other) && Trimmed(other) && MiddlewareUuid(ids, other) == Some(due) ensures other == inst {
        if other != inst {
          var e, j := Respelled(ids, db, sys, other, due, i);
          AnotherShows(Do(db, e), sys, due, i, j);
          OneMore(ids, db, e);
          var later := Relisted(ids, Do(db, e), sys, inst, due, i);
          OneMore(ids, Do(db, e), later);
        }
      }
    }
  }

  lemma ClearNow(ids: IdScheme, db: Store)
    requires StaysClear(ids, db)
    ensures NoClash(db)
  {
    hide NoClash;
    assert Legal(ids, db, Start) && Run(db, Start) == db;
  }

  /** Identities stay unambiguous over every run exactly if they are unambiguous now and each
      middleware item that lacks its derived uuid is harmless. */
  lemma StaysClearIff(ids: IdScheme, db: Store)
    ensures StaysClear(ids, db) <==> NoClash(db) && AllHarmless(ids, db)
  {
    hide NoClash, Harmless, Legal;
    if StaysClear(ids, db) {
      ClearNow(ids, db);
      forall i | i in db.cis ensures Harmless(ids, db, i) { ClearIsHarmless(ids, db, i); }
    }
    if NoClash(db) && AllHarmless(ids, db) {
      forall log | Legal(ids, db, log) ensures NoClash(Run(db, log)) { HarmlessRun(ids, db, log); }
    }
  }

  /** Every uuid has a spelling besides its canonical one, as upper case and the URN form are in
      RFC 4122. */
  ghost predicate Respellable(ids: IdScheme) {
    forall u {:trigger CanonOf(ids, u)} :: CanonOf(ids, u) ==> !OnlySpelling(ids, u, u)
  }

  /** There the condition reads: no clash now, and every uuid is the derived one. */
  lemma StaysClearIffUnique(ids: IdScheme, db: Store)
    requires Respellable(ids)
    ensures StaysClear(ids, db) <==> Unique(ids, db)
  {
    hide NoClash, Alone, StaysClear;
    StaysClearIff(ids, db);
    forall i | i in db.cis ensures Harmless(ids, db, i) <==> Derived(ids, db.cis[i]) {
      if !Derived(ids, db.cis[i]) {
        var inst := Get(db.cis[i].row, InstanceId).s;
        var due := MiddlewareUuid(ids, inst).value;
        CanonRoundTrip(ids, due);
        assert CanonOf(ids, due) && MiddlewareUuid(ids, due) == Some(due);
      }
    }
  }

  function StrayStore(sys: string, inst: string, other: string, u: string): Store {
    Db(map[0 := Ci(MiddleSoftware, map[SystemId := Str(sys), InstanceId := Str(inst), Uuid := Str(other)]),
           1 := Ci(MiddleSoftware, map[SystemId := Str(sys), Uuid := Str(u)])], 2)
  }

  /** A store of two items that is unambiguous now and does not stay so. */
  lemma StrayClashes(ids: IdScheme, sys: string, inst: string, other: string)
    requires Inked(inst) && Trimmed(inst) && other != MiddlewareUuid(ids, inst).value
    ensures var db := StrayStore(sys, inst, other, MiddlewareUuid(ids, inst).value);
            NoClash(db) && !StaysClear(ids, db)
  {
    hide Inked, Trim, StaysClear, OnlySpelling;
    var u := MiddlewareUuid(ids, inst).value;
    var db := StrayStore(sys, inst, other, u);
    StaysClearIff(ids, db);
    assert Hit(db.cis[1], ByUuid(MiddleSoftware, sys, u));
    assert !Harmless(ids, db, 0);
  }
}
