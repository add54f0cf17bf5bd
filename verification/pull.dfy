/** Pulling one system into the snapshot cache, and reading a section back. */
module Pulls {
  import opened Text
  import opened Ids
  import opened Records
  import opened Snapshot

  datatype Category = Ecs | Rds | Dcs | Dms | Cce | EipTable | ElbTable

  /** A listed resource; its payload is absent when it cannot be marshalled. */
  datatype Item = Item(id: string, payload: Option<string>)

  datatype Listing = Failed | Listed(items: seq<Option<Item>>)

  /** The snapshot key: middleware is keyed as in the CMDB, everything else by `ResourceKeyECS`. */
  function KeyOf(ids: IdScheme, c: Category, id: string): string {
    match c
    case Rds => MiddlewareKey(ids, id)
    case Dcs => MiddlewareKey(ids, id)
    case Dms => MiddlewareKey(ids, id)
    case _ => EipKey(ids, id)
  }

  function MiddlewareKey(ids: IdScheme, id: string): string {
    if MiddlewareUuid(ids, id).Some? then MiddlewareUuid(ids, id).value else ""
  }

  /** Snapshot keys are the uuids that the CMDB passes write and keep.  What is no uuid is keyed by its
      text, cut at 128 characters, unless it is middleware. */
  lemma KeyIsCmdbUuid(ids: IdScheme, c: Category, id: string)
    ensures CloudUuid(ids, id).Some? ==> KeyOf(ids, c, id) == CloudUuid(ids, id).value
    ensures !c.Rds? && !c.Dcs? && !c.Dms? && CloudUuid(ids, id).None? ==>
              KeyOf(ids, c, id) <= Trim(id) && |KeyOf(ids, c, id)| == if |Trim(id)| > 128 then 128 else |Trim(id)|
    ensures c.Rds? || c.Dcs? || c.Dms? ==>
              (if Inked(id) then MiddlewareUuid(ids, id) == Some(KeyOf(ids, c, id)) else KeyOf(ids, c, id) == "")
  {}

  /** The rows a listing is turned into; nil, keyless and unmarshallable entries are left out. */
  function RowsOf(ids: IdScheme, c: Category, items: seq<Option<Item>>): seq<Row>
    decreases |items|
  {
    if items == [] then []
    else
      var rows, last := RowsOf(ids, c, items[..|items| - 1]), items[|items| - 1];
      if last.Some? && KeyOf(ids, c, last.value.id) != "" && last.value.payload.Some?
      then rows + [Row(KeyOf(ids, c, last.value.id), last.value.payload.value)]
      else rows
  }

  /** The listing has a resource with this key and payload. */
  ghost predicate Lists(ids: IdScheme, c: Category, items: seq<Option<Item>>, key: string, payload: string) {
    key != "" && exists it :: Some(it) in items && KeyOf(ids, c, it.id) == key && it.payload == Some(payload)
  }

  lemma {:induction false} RowsAre(ids: IdScheme, c: Category, items: seq<Option<Item>>, r: Row)
    ensures r in RowsOf(ids, c, items) <==> Lists(ids, c, items, r.key, r.payload)
    decreases |items|
  {
    hide KeyOf;
    if items != [] {
      var init, last := items[..|items| - 1], items[|items| - 1];
      assert items == init + [last];
      RowsAre(ids, c, init, r);
    }
  }

  /** The loop that makes rows of a listing: exactly its keyed resources with a payload. */
  method BuildRows(ids: IdScheme, c: Category, items: seq<Option<Item>>) returns (rows: seq<Row>)
    ensures forall r {:trigger r in rows} :: r in rows <==> Lists(ids, c, items, r.key, r.payload)
    ensures rows == RowsOf(ids, c, items)
  {
    rows := [];
    for i := 0 to |items|
      invariant rows == RowsOf(ids, c, items[..i])
    {
      assert items[..i + 1][..i] == items[..i];
      if items[i].None? { continue; }
      var key := KeyOf(ids, c, items[i].value.id);
      if key == "" || items[i].value.payload.None? { continue; }
      rows := rows + [Row(key, items[i].value.payload.value)];
    }
    assert items[..|items|] == items;
    forall r ensures r in rows <==> Lists(ids, c, items, r.key, r.payload) { RowsAre(ids, c, items, r); }
  }

  function TableName(c: Category): string {
    match c
    case Ecs => "cloud_snap_ecs"
    case Rds => "cloud_snap_rds"
    case Dcs => "cloud_snap_dcs"
    case Dms => "cloud_snap_dms_kafka"
    case Cce => "cloud_snap_cce"
    case EipTable => "cloud_snap_eip"
    case ElbTable => "cloud_snap_elb"
  }

  function ScopeOf(c: Category, sys: string): Scope { Scope(TableName(c), sys, "") }

  const ORDER: seq<Category> := [Ecs, Rds, Dcs, Dms, Cce, EipTable, ElbTable]

  /** The rows that a category may be replaced by. */
  function NewRows(ids: IdScheme, c: Category, l: Listing): seq<Row> {
    if l.Failed? then [] else RowsOf(ids, c, l.items)
  }

  /** After a pull a section is what it was or what was listed, the latter only when there is
      something listed. */
  predicate KeptOrRefreshed(a: Tables, b: Tables, s: Scope, list: seq<Row>) {
    Section(b, s) == Section(a, s) || (list != [] && DistinctKeys(list) && Section(b, s) == MapOf(list))
  }

  predicate Refreshed(b: Tables, s: Scope, list: seq<Row>) {
    list != [] ==> DistinctKeys(list) && Section(b, s) == MapOf(list)
  }

  /** The section holds exactly the keyed resources that were listed with a payload. */
  ghost predicate Mirrors(section: map<string, string>, ids: IdScheme, c: Category, items: seq<Option<Item>>) {
    forall key, payload {:trigger Lists(ids, c, items, key, payload)} ::
      key in section && section[key] == payload <==> Lists(ids, c, items, key, payload)
  }

  /** No listed resource has both a key and a payload. */
  ghost predicate Lacks(ids: IdScheme, c: Category, l: Listing) {
    l.Failed? || forall key, payload :: !Lists(ids, c, l.items, key, payload)
  }

  lemma NothingNew(ids: IdScheme, c: Category, l: Listing)
    ensures NewRows(ids, c, l) == [] <==> Lacks(ids, c, l)
  {
    hide Lists, RowsOf;
    if l.Listed? {
      forall r: Row ensures r in RowsOf(ids, c, l.items) <==> Lists(ids, c, l.items, r.key, r.payload) {
        RowsAre(ids, c, l.items, r);
      }
      NonEmptyHas(RowsOf(ids, c, l.items));
      forall key, payload | Lists(ids, c, l.items, key, payload)
        ensures Row(key, payload) in RowsOf(ids, c, l.items)
      {}
    }
  }

  lemma Mirrored(b: Tables, s: Scope, ids: IdScheme, c: Category, items: seq<Option<Item>>)
    requires RowsOf(ids, c, items) != [] && Refreshed(b, s, RowsOf(ids, c, items))
    ensures Mirrors(Section(b, s), ids, c, items)
  {
    hide Section, MapOf, Lists;
    var rows, m := RowsOf(ids, c, items), Section(b, s);
    MapOfList(rows);
    forall key, payload ensures key in m && m[key] == payload <==> Lists(ids, c, items, key, payload) {
      RowsAre(ids, c, items, Row(key, payload));
      if key in m {
        var r :| r in rows && r.key == key;
        assert m[key] == r.payload;
      }
    }
  }

  /** What a pull means for one table. */
  ghost predicate Pulled(ids: IdScheme, a: Tables, b: Tables, sys: string, c: Category, l: Listing, ok: bool) {
    var was, now := Section(a, ScopeOf(c, sys)), Section(b, ScopeOf(c, sys));
    && (Lacks(ids, c, l) ==> now == was)
    && (!Lacks(ids, c, l) ==> now == was || Mirrors(now, ids, c, l.items))
    && (!Lacks(ids, c, l) && ok ==> Mirrors(now, ids, c, l.items))
  }

  /** The categories in the first n places of the order are pulled, nothing else has changed. */
  ghost predicate PulledUpTo(ids: IdScheme, a: Tables, b: Tables, sys: string, pulls: Category -> Listing, n: nat,
                             ok: bool)
    requires n <= |ORDER|
  {
    && (forall i {:trigger ORDER[i]} :: 0 <= i < n ==>
         KeptOrRefreshed(a, b, ScopeOf(ORDER[i], sys), NewRows(ids, ORDER[i], pulls(ORDER[i]))))
    && (forall i {:trigger ORDER[i]} :: 0 <= i < n && ok ==>
         Refreshed(b, ScopeOf(ORDER[i], sys), NewRows(ids, ORDER[i], pulls(ORDER[i]))))
    && (forall s {:trigger Section(b, s)} :: (forall i :: 0 <= i < n ==> s != ScopeOf(ORDER[i], sys)) ==>
         Section(b, s) == Section(a, s))
  }

  lemma Ordered(c: Category) returns (i: nat)
    ensures i < |ORDER| && ORDER[i] == c
  {
    i := match c
         case Ecs => 0
         case Rds => 1
         case Dcs => 2
         case Dms => 3
         case Cce => 4
         case EipTable => 5
         case ElbTable => 6;
  }

  lemma OnePulled(ids: IdScheme, a: Tables, b: Tables, sys: string, c: Category, l: Listing, ok: bool)
    requires KeptOrRefreshed(a, b, ScopeOf(c, sys), NewRows(ids, c, l))
    requires ok ==> Refreshed(b, ScopeOf(c, sys), NewRows(ids, c, l))
    ensures Pulled(ids, a, b, sys, c, l, ok)
  {
    hide Section, RowsOf, MapOf, DistinctKeys, Mirrors, Lacks, ScopeOf;
    NothingNew(ids, c, l);
    var list, s := NewRows(ids, c, l), ScopeOf(c, sys);
    if list != [] && Refreshed(b, s, list) { Mirrored(b, s, ids, c, l.items); }
  }

  lemma AllPulled(ids: IdScheme, a: Tables, b: Tables, sys: string, pulls: Category -> Listing, ok: bool)
    requires PulledUpTo(ids, a, b, sys, pulls, |ORDER|, ok)
    ensures forall c :: Pulled(ids, a, b, sys, c, pulls(c), ok)
    ensures forall s {:trigger Section(b, s)} :: (forall c :: s != ScopeOf(c, sys)) ==> Section(b, s) == Section(a, s)
  {
    hide Section, NewRows, ScopeOf, KeptOrRefreshed, Refreshed, Pulled;
    forall c ensures Pulled(ids, a, b, sys, c, pulls(c), ok) {
      var i := Ordered(c);
      assert KeptOrRefreshed(a, b, ScopeOf(ORDER[i], sys), NewRows(ids, ORDER[i], pulls(ORDER[i])));
      OnePulled(ids, a, b, sys, c, pulls(c), ok);
    }
    forall s | forall c :: s != ScopeOf(c, sys) ensures Section(b, s) == Section(a, s) {
      assert forall i :: 0 <= i < |ORDER| ==> s != ScopeOf(ORDER[i], sys);
    }
  }

  lemma OrderDistinct(i: nat, j: nat, sys: string)
    requires i < j < |ORDER|
    ensures ScopeOf(ORDER[i], sys) != ScopeOf(ORDER[j], sys)
  {
    var names := seq(|ORDER|, k requires 0 <= k < |ORDER| => TableName(ORDER[k]));
    assert names == ["cloud_snap_ecs", "cloud_snap_rds", "cloud_snap_dcs", "cloud_snap_dms_kafka", "cloud_snap_cce",
                     "cloud_snap_eip", "cloud_snap_elb"];
    assert names[i][11..] != names[j][11..];
  }

  /** One category: a failed listing or an empty result changes nothing. */
  method PullCategory(db: Database, ids: IdScheme, sys: string, c: Category, l: Listing, ghost run: Run)
    returns (ok: bool, ghost next: Run)
    requires Valid(run) && run.rows == db.rows
    modifies db
    ensures Valid(next) && next.rows == db.rows
              && (next == run || (next.Next? && next.prev == run && next.s == ScopeOf(c, sys)))
    ensures KeptOrRefreshed(old(db.rows), db.rows, ScopeOf(c, sys), NewRows(ids, c, l))
    ensures ok ==> Refreshed(db.rows, ScopeOf(c, sys), NewRows(ids, c, l))
    ensures db.Healthy() && DistinctKeys(NewRows(ids, c, l)) ==> ok
    ensures forall s {:trigger Section(db.rows, s)} :: s != ScopeOf(c, sys) ==>
              Section(db.rows, s) == Section(old(db.rows), s)
  {
    if l.Failed? { return true, run; }
    var rows := BuildRows(ids, c, l.items);
    ghost var before := db.rows;
    ghost var committed;
    ok, committed := db.Replace(ScopeOf(c, sys), rows);
    next := Next(run, ScopeOf(c, sys), rows, committed, db.rows);
    forall s ensures committed ==>
      Section(db.rows, s) == if s == ScopeOf(c, sys) then MapOf(rows) else Section(before, s) {
      ReplacedSections(before, ScopeOf(c, sys), rows, s);
    }
  }

  /** `PullOneSystem` over its resource tables: the first replacement that fails ends the pull. */
  method PullOneSystem(db: Database, ids: IdScheme, sys: string, pulls: Category -> Listing, ghost run: Run)
    returns (ok: bool, ghost next: Run)
    requires Valid(run) && run.rows == db.rows
    modifies db
    ensures Valid(next) && next.rows == db.rows && Origin(next) == Origin(run)
    ensures forall c :: Pulled(ids, old(db.rows), db.rows, sys, c, pulls(c), ok)
    ensures forall s {:trigger Section(db.rows, s)} :: (forall c :: s != ScopeOf(c, sys)) ==>
              Section(db.rows, s) == Section(old(db.rows), s)
    ensures db.Healthy() && (forall c :: DistinctKeys(NewRows(ids, c, pulls(c)))) ==> ok
  {
    hide Section, Lacks, Mirrors, NewRows;
    next, ok := run, true;
    ghost var before := db.rows;
    for n := 0 to |ORDER|
      invariant Valid(next) && next.rows == db.rows && Origin(next) == Origin(run)
      invariant PulledUpTo(ids, before, db.rows, sys, pulls, n, true)
    {
      ghost var mid := db.rows;
      ok, next := PullCategory(db, ids, sys, ORDER[n], pulls(ORDER[n]), next);
      PulledOne(ids, before, mid, db.rows, sys, pulls, n, ok);
      if !ok {
        PulledRest(ids, before, db.rows, sys, pulls, n + 1);
        AllPulled(ids, before, db.rows, sys, pulls, false);
        return false, next;
      }
    }
    AllPulled(ids, before, db.rows, sys, pulls, true);
  }

  lemma KeptStays(a: Tables, mid: Tables, b: Tables, s: Scope, list: seq<Row>)
    ensures KeptOrRefreshed(a, mid, s, list) && Section(b, s) == Section(mid, s) ==> KeptOrRefreshed(a, b, s, list)
    ensures Section(mid, s) == Section(a, s) && KeptOrRefreshed(mid, b, s, list) ==> KeptOrRefreshed(a, b, s, list)
    ensures Refreshed(mid, s, list) && Section(b, s) == Section(mid, s) ==> Refreshed(b, s, list)
  {
    hide Section, DistinctKeys, MapOf;
  }

  lemma PulledOne(ids: IdScheme, a: Tables, mid: Tables, b: Tables, sys: string, pulls: Category -> Listing, n: nat,
                  ok: bool)
    requires n < |ORDER| && PulledUpTo(ids, a, mid, sys, pulls, n, true)
    requires KeptOrRefreshed(mid, b, ScopeOf(ORDER[n], sys), NewRows(ids, ORDER[n], pulls(ORDER[n])))
    requires ok ==> Refreshed(b, ScopeOf(ORDER[n], sys), NewRows(ids, ORDER[n], pulls(ORDER[n])))
    requires forall s {:trigger Section(b, s)} :: s != ScopeOf(ORDER[n], sys) ==> Section(b, s) == Section(mid, s)
    ensures PulledUpTo(ids, a, b, sys, pulls, n + 1, ok)
  {
    hide Section, NewRows, ScopeOf, KeptOrRefreshed, Refreshed;
    forall i | 0 <= i < n ensures ScopeOf(ORDER[i], sys) != ScopeOf(ORDER[n], sys) { OrderDistinct(i, n, sys); }
    forall i | 0 <= i < n + 1
      ensures KeptOrRefreshed(a, b, ScopeOf(ORDER[i], sys), NewRows(ids, ORDER[i], pulls(ORDER[i])))
      ensures ok ==> Refreshed(b, ScopeOf(ORDER[i], sys), NewRows(ids, ORDER[i], pulls(ORDER[i])))
    {
      KeptStays(a, mid, b, ScopeOf(ORDER[i], sys), NewRows(ids, ORDER[i], pulls(ORDER[i])));
    }
    forall s | forall i :: 0 <= i < n + 1 ==> s != ScopeOf(ORDER[i], sys) ensures Section(b, s) == Section(a, s) {
      assert s != ScopeOf(ORDER[n], sys);
    }
  }

  lemma PulledRest(ids: IdScheme, a: Tables, b: Tables, sys: string, pulls: Category -> Listing, n: nat)
    requires n <= |ORDER| && PulledUpTo(ids, a, b, sys, pulls, n, false)
    ensures PulledUpTo(ids, a, b, sys, pulls, |ORDER|, false)
  {
    hide Section, NewRows, ScopeOf, DistinctKeys, MapOf;
    forall i, j | 0 <= i < n <= j < |ORDER| ensures ScopeOf(ORDER[i], sys) != ScopeOf(ORDER[j], sys) {
      OrderDistinct(i, j, sys);
    }
    forall j | n <= j < |ORDER| ensures Section(b, ScopeOf(ORDER[j], sys)) == Section(a, ScopeOf(ORDER[j], sys)) {
      assert forall i :: 0 <= i < n ==> ScopeOf(ORDER[j], sys) != ScopeOf(ORDER[i], sys);
    }
    forall s | forall i :: 0 <= i < |ORDER| ==> s != ScopeOf(ORDER[i], sys) ensures Section(b, s) == Section(a, s) {
      assert forall i :: 0 <= i < n ==> s != ScopeOf(ORDER[i], sys);
    }
  }
}
