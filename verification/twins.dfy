/** Exactly which stores never get a second item for one resource. */
module Twins {
  import opened Text
  import opened Values
  import opened Rows
  import opened Remote
  import opened Ids
  import opened Events
  import opened Safety
  import opened Identity

  /** Two items of a system that stand for one resource, however each spells its uuid. */
  predicate Twins(ids: IdScheme, a: Ci, b: Ci) {
    && a.kind == b.kind && SameText(a, b, SystemId)
    && UuidOf(ids, a).Some? && UuidOf(ids, a) == UuidOf(ids, b)
  }

  /** No resource has two items of the kind. */
  ghost predicate Single(ids: IdScheme, db: Store, k: Kind) {
    forall i, j {:trigger Twins(ids, db.cis[i], db.cis[j])} ::
      i in db.cis && j in db.cis && i != j && db.cis[i].kind == k ==> !Twins(ids, db.cis[i], db.cis[j])
  }

  /** Whatever the cloud lists say and whichever calls fail, no resource gets a second item. */
  ghost predicate StaysSingle(ids: IdScheme, db: Store, k: Kind) {
    forall log {:trigger Legal(ids, db, log)} :: Legal(ids, db, log) ==> Single(ids, Run(db, log), k)
  }

  /** A system's item whose uuid parses spells it canonically. */
  predicate Spelled(ids: IdScheme, c: Ci) {
    Get(c.row, SystemId).Str? && UuidOf(ids, c).Some? ==> Get(c.row, Uuid) == Str(UuidOf(ids, c).value)
  }

  predicate AllSpelled(ids: IdScheme, db: Store, k: Kind) {
    forall i {:trigger Spelled(ids, db.cis[i])} :: i in db.cis && db.cis[i].kind == k ==> Spelled(ids, db.cis[i])
  }

  /** What keeps lookups from missing an item of the kind: canonical spellings, and for middleware,
      which is looked up by instance id first, the derived uuids. */
  ghost predicate Fit(ids: IdScheme, db: Store, k: Kind) {
    Single(ids, db, k) && AllSpelled(ids, db, k) && (k.MiddleSoftware? ==> AllDerived(ids, db))
  }

  // ---------- the condition is enough ----------

  /** The same system and uuid text. */
  predicate SameId(a: Ci, b: Ci) {
    a.kind == b.kind && Get(a.row, SystemId) == Get(b.row, SystemId) && Get(a.row, Uuid) == Get(b.row, Uuid)
  }

  predicate Carries(c: Ci, kind: Kind, sys: string, u: string) {
    c.kind == kind && Get(c.row, SystemId) == Str(sys) && Get(c.row, Uuid) == Str(u)
  }

  /** An update of a derived item leaves its uuid as it is. */
  lemma RefreshKeepsId(ids: IdScheme, db: Store, kind: Kind, sys: string, r: Rec, id: nat)
    requires Enabled(ids, db, Refresh(kind, sys, r, id)) && (kind.MiddleSoftware? ==> AllDerived(ids, db))
    ensures id in db.cis && db.cis[id].kind == kind
    ensures var post := Do(db, Refresh(kind, sys, r, id));
            post == db.(cis := db.cis[id := post.cis[id]]) && SameId(db.cis[id], post.cis[id])
  {
    hide Written, MiddlewareUuid, CanonOf, Merge;
    RefreshedRow(ids, db, kind, sys, r, id);
    RewriteWrites(db, id, r.want);
    assert kind.MiddleSoftware? ==> Derived(ids, db.cis[id]);
  }

  /** An item after a write is new, or of an upsert, or carries what it carried. */
  lemma IdStep(ids: IdScheme, db: Store, e: Event, k: Kind, j: nat)
    requires Inventory(k) && Enabled(ids, db, e) && (k.MiddleSoftware? ==> AllDerived(ids, db))
    requires j in Do(db, e).cis && Do(db, e).cis[j].kind == k
    ensures var c := Do(db, e).cis[j];
            || (j in db.cis && SameId(db.cis[j], c))
            || (e.Create? && e.kind == k && j == db.next && Carries(c, k, e.sys, e.rec.uuid))
  {
    hide Orphan, Lookup, MiddlewareUuid, Inked, Trimmed, Derived, CleanList, First, Encode, Merge;
    match e
    case Create(kind, sys, r) => ScalarRowEncodes(r.add);
    case Refresh(kind, sys, r, id) =>
      if kind == k { RefreshKeepsId(ids, db, kind, sys, r, id); }
      else { RefreshedRow(ids, db, kind, sys, r, id); }
    case NodeRefresh(_, _, admin, id) => RewriteWrites(db, id, map[AdminName := Str(admin)]);
    case _ =>
  }

  /** Nothing that is looked up in vain stands for the record's resource. */
  lemma NoneStands(ids: IdScheme, db: Store, kind: Kind, sys: string, r: Rec, i: nat)
    requires AllSpelled(ids, db, kind) && Enabled(ids, db, Create(kind, sys, r))
    requires i in db.cis && db.cis[i].kind == kind && Get(db.cis[i].row, SystemId) == Str(sys)
    ensures UuidOf(ids, db.cis[i]) != Some(r.uuid)
  {
    hide UuidOf, MiddlewareUuid;
    assert Spelled(ids, db.cis[i]) && !Hit(db.cis[i], ByUuid(kind, sys, r.uuid));
  }

  lemma CarriesCanon(ids: IdScheme, c: Ci, kind: Kind, sys: string, u: string)
    requires Carries(c, kind, sys, u) && CanonOf(ids, u)
    ensures UuidOf(ids, c) == Some(u) && Spelled(ids, c)
  {
    CanonRoundTrip(ids, u);
  }

  lemma FitPair(ids: IdScheme, db: Store, e: Event, k: Kind, i: nat, j: nat)
    requires Inventory(k) && Fit(ids, db, k) && Enabled(ids, db, e)
    requires i in Do(db, e).cis && j in Do(db, e).cis && i != j && Do(db, e).cis[i].kind == k
    ensures !Twins(ids, Do(db, e).cis[i], Do(db, e).cis[j])
  {
    hide Do, Sound, Lookup, UuidOf, AllDerived, AllSpelled;
    var a, b := Do(db, e).cis[i], Do(db, e).cis[j];
    IdStep(ids, db, e, k, i);
    if b.kind == k {
      IdStep(ids, db, e, k, j);
      SameUuid(ids, db, i, a);
      SameUuid(ids, db, j, b);
      if i in db.cis && j in db.cis && SameId(db.cis[i], a) && SameId(db.cis[j], b) {
        assert !Twins(ids, db.cis[i], db.cis[j]);
      } else {
        CreatedCanon(ids, db, e);
        if Carries(a, k, e.sys, e.rec.uuid) && e.Create? && i == db.next {
          CarriesCanon(ids, a, k, e.sys, e.rec.uuid);
          if Get(b.row, SystemId) == Str(e.sys) { NoneStands(ids, db, k, e.sys, e.rec, j); }
        } else {
          CarriesCanon(ids, b, k, e.sys, e.rec.uuid);
          if Get(a.row, SystemId) == Str(e.sys) { NoneStands(ids, db, k, e.sys, e.rec, i); }
        }
      }
    }
  }

  lemma SameUuid(ids: IdScheme, db: Store, i: nat, c: Ci)
    ensures i in db.cis && SameId(db.cis[i], c) ==> UuidOf(ids, db.cis[i]) == UuidOf(ids, c)
  {}

  lemma CreatedCanon(ids: IdScheme, db: Store, e: Event)
    requires Enabled(ids, db, e) && e.Create?
    ensures CanonOf(ids, e.rec.uuid)
  {}

  lemma FitStep(ids: IdScheme, db: Store, e: Event, k: Kind)
    requires Inventory(k) && Fit(ids, db, k) && Enabled(ids, db, e)
    ensures Fit(ids, Do(db, e), k)
  {
    hide Do, Enabled, AllDerived, Twins, Spelled;
    var post := Do(db, e);
    forall i, j | i in post.cis && j in post.cis && i != j && post.cis[i].kind == k
      ensures !Twins(ids, post.cis[i], post.cis[j])
    {
      FitPair(ids, db, e, k, i, j);
    }
    forall i | i in post.cis && post.cis[i].kind == k ensures Spelled(ids, post.cis[i]) {
      SpelledStep(ids, db, e, k, i);
    }
    if k.MiddleSoftware? { DerivedStep(ids, db, e); }
  }

  lemma SpelledStep(ids: IdScheme, db: Store, e: Event, k: Kind, i: nat)
    requires Inventory(k) && Fit(ids, db, k) && Enabled(ids, db, e) && i in Do(db, e).cis && Do(db, e).cis[i].kind == k
    ensures Spelled(ids, Do(db, e).cis[i])
  {
    hide Do, Enabled, AllDerived, Single, UuidOf;
    var c := Do(db, e).cis[i];
    IdStep(ids, db, e, k, i);
    if i in db.cis && SameId(db.cis[i], c) {
      assert Spelled(ids, db.cis[i]);
      SameUuid(ids, db, i, c);
    } else {
      CreatedCanon(ids, db, e);
      CarriesCanon(ids, c, k, e.sys, e.rec.uuid);
    }
  }

  lemma {:induction false} FitRun(ids: IdScheme, db: Store, log: Log, k: Kind)
    requires Inventory(k) && Fit(ids, db, k) && Legal(ids, db, log)
    ensures Fit(ids, Run(db, log), k)
  {
    hide Fit, Enabled, Do;
    if log.Then? {
      FitRun(ids, db, log.prev, k);
      FitStep(ids, Run(db, log.prev), log.last, k);
    }
  }

  // ---------- the condition is needed ----------

  lemma SingleNow(ids: IdScheme, db: Store, k: Kind)
    requires StaysSingle(ids, db, k)
    ensures Single(ids, db, k)
  {
    hide Single;
    assert Legal(ids, db, Start) && Run(db, Start) == db;
  }

  lemma SingleNext(ids: IdScheme, db: Store, e: Event, k: Kind)
    requires StaysSingle(ids, db, k) && Enabled(ids, db, e)
    ensures StaysSingle(ids, Do(db, e), k) && Single(ids, Do(db, e), k)
  {
    hide Single, Enabled, Do;
    var first := Then(Start, e);
    assert Run(db, Start) == db && Legal(ids, db, Start);
    assert Legal(ids, db, first) && Run(db, first) == Do(db, e);
    forall log | Legal(ids, Do(db, e), log) ensures Single(ids, Run(Do(db, e), log), k) {
      RunAppend(ids, db, first, log);
      assert Legal(ids, db, Append(first, log));
    }
  }

  /** Two items that carry or spell one canonical uuid. */
  lemma TwoStand(ids: IdScheme, db: Store, k: Kind, sys: string, u: string, i: nat, j: nat)
    requires i in db.cis && j in db.cis && i != j && db.cis[i].kind == k && CanonOf(ids, u)
    requires Get(db.cis[i].row, SystemId) == Str(sys) && UuidOf(ids, db.cis[i]) == Some(u)
    requires Hit(db.cis[j], ByUuid(k, sys, u))
    ensures !Single(ids, db, k)
  {
    hide UuidOf, CanonOf;
    CarriesCanon(ids, db.cis[j], k, sys, u);
    assert Twins(ids, db.cis[i], db.cis[j]);
  }

  /** A record of a resource with no columns of its own. */
  function PlainRec(sys: string, u: string): Rec {
    var want: Row := map[NodeName := Str("n")];
    Rec(u, u, None, "n", want, want[Uuid := Str(u)][SystemId := Str(sys)])
  }

  lemma PlainRecSound(ids: IdScheme, k: Kind, sys: string, u: string)
    requires Inventory(k) && !k.MiddleSoftware? && CanonOf(ids, u)
    ensures Sound(ids, k, sys, PlainRec(sys, u))
  {
    assert !IsSpace("n"[0]);
  }

  /** The cloud lists the resource of an item whose uuid is spelled otherwise: the lookup misses the
      item, and a second one is created, unless there is a second one already. */
  lemma Missed(ids: IdScheme, db: Store, k: Kind, i: nat)
    requires Inventory(k) && !k.MiddleSoftware? && i in db.cis && db.cis[i].kind == k && !Spelled(ids, db.cis[i])
    ensures !StaysSingle(ids, db, k)
  {
    hide UuidOf, Single, StaysSingle, Sound, CanonOf;
    var sys, u := Get(db.cis[i].row, SystemId).s, UuidOf(ids, db.cis[i]).value;
    UuidCanon(ids, db.cis[i]);
    var r := PlainRec(sys, u);
    PlainRecSound(ids, k, sys, u);
    if StaysSingle(ids, db, k) {
      SingleNow(ids, db, k);
      var t := Lookup(db, k, sys, r);
      if t.Some? {
        TwoStand(ids, db, k, sys, u, i, t.value);
      } else {
        var e := Create(k, sys, r);
        SingleNext(ids, db, e, k);
        ScalarRowEncodes(r.add);
        TwoStand(ids, Do(db, e), k, sys, u, i, db.next);
      }
    }
  }

  lemma UuidCanon(ids: IdScheme, c: Ci)
    ensures UuidOf(ids, c).Some? ==> CanonOf(ids, UuidOf(ids, c).value)
  {}

  /** A spelling of the uuid that is not the item's instance id. */
  lemma OtherSpelling(ids: IdScheme, c: Ci, sys: string, u: string) returns (other: string)
    requires Respellable(ids) && CanonOf(ids, u)
    ensures Inked(other) && Trimmed(other) && MiddlewareUuid(ids, other) == Some(u)
    ensures !Hit(c, ByInst(MiddleSoftware, sys, other))
  {
    CanonRoundTrip(ids, u);
    other := u;
    if Hit(c, ByInst(MiddleSoftware, sys, u)) {
      assert !OnlySpelling(ids, u, u);
      other :| Inked(other) && Trimmed(other) && MiddlewareUuid(ids, other) == Some(u) && other != u;
    }
  }

  lemma MissedMiddleware(ids: IdScheme, db: Store, i: nat)
    requires Respellable(ids) && i in db.cis && db.cis[i].kind.MiddleSoftware? && !Spelled(ids, db.cis[i])
    ensures !StaysSingle(ids, db, MiddleSoftware)
  {
    hide UuidOf, Single, StaysSingle, CanonOf, Inked, Trimmed, MiddlewareUuid, Respellable, Enabled, Do;
    var sys, u := Get(db.cis[i].row, SystemId).s, UuidOf(ids, db.cis[i]).value;
    UuidCanon(ids, db.cis[i]);
    if StaysSingle(ids, db, MiddleSoftware) {
      var other := OtherSpelling(ids, db.cis[i], sys, u);
      var e, j := Respelled(ids, db, sys, other, u, i);
      SingleNext(ids, db, e, MiddleSoftware);
      TwoStand(ids, Do(db, e), MiddleSoftware, sys, u, i, j);
    }
  }

  /** The cloud lists the instance id of item i once more: the item that the lookup finds under it
      takes over the derived uuid. */
  lemma TakenOver(ids: IdScheme, db: Store, sys: string, inst: string, u: string, i: nat) returns (e: Event, f: nat)
    requires i in db.cis && Hit(db.cis[i], ByInst(MiddleSoftware, sys, inst))
    requires Inked(inst) && Trimmed(inst) && MiddlewareUuid(ids, inst) == Some(u)
    ensures Enabled(ids, db, e) && f in db.cis && Hit(db.cis[f], ByInst(MiddleSoftware, sys, inst))
    ensures Do(db, e).cis.Keys == db.cis.Keys && Hit(Do(db, e).cis[f], ByUuid(MiddleSoftware, sys, u))
    ensures forall j :: j in db.cis && j != f ==> Do(db, e).cis[j] == db.cis[j]
  {
    hide Inked, Trimmed, MiddlewareUuid, Written;
    var r := StrayRec(sys, inst, u);
    StrayRecSound(ids, sys, inst, u);
    f := First(db, ByInst(MiddleSoftware, sys, inst)).value;
    e := Refresh(MiddleSoftware, sys, r, f);
    RefreshedRow(ids, db, MiddleSoftware, sys, r, f);
    RewriteWrites(db, f, r.want);
  }

  /** An item without its derived uuid is overtaken by another spelling of it and then follows. */
  lemma Overtaken(ids: IdScheme, db: Store, i: nat)
    requires Respellable(ids) && i in db.cis && !Derived(ids, db.cis[i])
    ensures !StaysSingle(ids, db, MiddleSoftware)
  {
    hide UuidOf, Single, StaysSingle, CanonOf, Inked, Trimmed, MiddlewareUuid, Respellable, Enabled, Do;
    var c := db.cis[i];
    var sys, inst := Get(c.row, SystemId).s, Get(c.row, InstanceId).s;
    var u := MiddlewareUuid(ids, inst).value;
    if StaysSingle(ids, db, MiddleSoftware) {
      var other := OtherSpelling(ids, c, sys, u);
      var e, j := Respelled(ids, db, sys, other, u, i);
      var mid := Do(db, e);
      SingleNext(ids, db, e, MiddleSoftware);
      var last, f := TakenOver(ids, mid, sys, inst, u, i);
      SingleNext(ids, mid, last, MiddleSoftware);
      assert f != j;
      CarriesCanon(ids, Do(mid, last).cis[f], MiddleSoftware, sys, u);
      TwoStand(ids, Do(mid, last), MiddleSoftware, sys, u, f, j);
    }
  }

  /** No resource ever gets a second item of a kind exactly if none has two now, every uuid that
      parses is spelled canonically and, for middleware, every findable item carries the uuid derived
      from its instance id. */
  lemma StaysSingleIff(ids: IdScheme, db: Store, k: Kind)
    requires Inventory(k) && (k.MiddleSoftware? ==> Respellable(ids))
    ensures StaysSingle(ids, db, k) <==> Fit(ids, db, k)
  {
    hide Single, Spelled, Derived, Legal, Respellable;
    if Fit(ids, db, k) {
      forall log | Legal(ids, db, log) ensures Single(ids, Run(db, log), k) { FitRun(ids, db, log, k); }
    }
    if StaysSingle(ids, db, k) {
      hide StaysSingle;
      SingleNow(ids, db, k);
      forall i | i in db.cis && db.cis[i].kind == k ensures Spelled(ids, db.cis[i]) {
        if !Spelled(ids, db.cis[i]) {
          if k.MiddleSoftware? { MissedMiddleware(ids, db, i); } else { Missed(ids, db, k, i); }
        }
      }
      forall i | k.MiddleSoftware? && i in db.cis ensures Derived(ids, db.cis[i]) {
        if !Derived(ids, db.cis[i]) { Overtaken(ids, db, i); }
      }
    }
  }

  // ---------- a concrete case ----------

  function OddStore(k: Kind, sys: string, text: string): Store {
    Db(map[0 := Ci(k, map[SystemId := Str(sys), Uuid := Str(text)])], 1)
  }

  /** One item whose uuid is spelled otherwise: the next pass over a list with its resource creates a
      second item, and no reconciliation over that list removes either of them. */
  lemma OddSpellingDoubles(ids: IdScheme, k: Kind, sys: string, text: string, keep: set<string>, types: seq<string>)
    requires Inventory(k) && !k.MiddleSoftware? && CloudUuid(ids, text).Some? && CloudUuid(ids, text) != Some(text)
    requires CloudUuid(ids, text).value in keep
    ensures var u := CloudUuid(ids, text).value;
            var db, e := OddStore(k, sys, text), Create(k, sys, PlainRec(sys, u));
            var post := Do(db, e);
            && Single(ids, db, k) && Enabled(ids, db, e) && !Single(ids, post, k)
            && post.cis.Keys == {0, 1} && forall i :: i in post.cis ==> !Orphan(ids, post.cis[i].row, keep, types)
  {
    hide CloudUuid, Sound, CanonOf, ListTo, FirstTo;
    var u := CloudUuid(ids, text).value;
    var db := OddStore(k, sys, text);
    var r := PlainRec(sys, u);
    PlainRecSound(ids, k, sys, u);
    ScalarRowEncodes(r.add);
    CanonRoundTrip(ids, u);
    var post := Do(db, Create(k, sys, r));
    TwoStand(ids, post, k, sys, u, 0, 1);
  }
}
