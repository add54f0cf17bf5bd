/** Keeping the domain CIs of a node in step with the WAF bindings. */
module Domains {
  import opened Text
  import opened Values
  import opened Rows
  import opened Remote
  import opened Ids
  import opened Events
  import opened Safety
  import opened Upsert
  import opened Stats
  import opened Passes
  import opened Codec
  import opened Sweep

  function NodeDomains(sys: string, node: string): Query { ByNode(Domain, sys, node) }

  /** The text a domain item is known by; a missing text reads as Go's printed nil. */
  function TextOf(ci: Ci): string { Trim(Sprint(Get(ci.row, DomainText))) }

  /** The items that carry a given text under a node. */
  function Holders(db: Store, q: Query, text: string): set<nat> {
    set i | i in db.cis && Hit(db.cis[i], q) && TextOf(db.cis[i]) == text
  }

  /** The map that listing builds: the last item listed with a text wins. */
  function Texts(items: seq<Item>): map<string, nat>
    decreases |items|
  {
    if items == [] then map[]
    else
      var rest, last := Texts(items[..|items| - 1]), items[|items| - 1];
      if TextOf(last.ci) == "" then rest else rest[TextOf(last.ci) := last.id]
  }

  lemma NoTexts()
    ensures Texts([]) == map[]
  {}

  lemma TextsSnoc(items: seq<Item>, last: Item)
    ensures Texts(items + [last]) ==
            if TextOf(last.ci) == "" then Texts(items) else Texts(items)[TextOf(last.ci) := last.id]
  {
    assert (items + [last])[..|items|] == items;
  }

  /** The last item that carries a text. */
  function LastId(items: seq<Item>, text: string): Option<nat>
    decreases |items|
  {
    if items == [] then None
    else if TextOf(items[|items| - 1].ci) == text then Some(items[|items| - 1].id)
    else LastId(items[..|items| - 1], text)
  }

  lemma {:induction false} TextsLast(items: seq<Item>, text: string)
    ensures text in Texts(items) <==> text != "" && LastId(items, text).Some?
    ensures text in Texts(items) ==> Texts(items)[text] == LastId(items, text).value
    decreases |items|
  {
    if items != [] { TextsLast(items[..|items| - 1], text); }
  }

  lemma {:induction false} LastHolder(db: Store, s: seq<nat>, text: string)
    requires Ascending(s) && forall i :: i in s ==> i in db.cis
    ensures var m := LastId(Items(db, s), text);
            && (m.None? ==> forall i :: i in s ==> TextOf(db.cis[i]) != text)
            && (m.Some? ==> m.value in s && TextOf(db.cis[m.value]) == text
                            && forall i :: i in s && TextOf(db.cis[i]) == text ==> i <= m.value)
    decreases |s|
  {
    hide TextOf;
    if s != [] {
      var init, id := s[..|s| - 1], s[|s| - 1];
      assert s == init + [id];
      assert Items(db, s)[..|init|] == Items(db, init);
      LastHolder(db, init, text);
      forall i | i in init ensures i < id {
        var k :| 0 <= k < |init| && init[k] == i;
        assert s[k] < s[|s| - 1];
      }
    }
  }

  /** The listing maps exactly the non-blank texts in use, each to the highest of its holders. */
  lemma ListedTexts(db: Store, q: Query, text: string)
    ensures text in Texts(Listed(db, q)) <==> text != "" && Holders(db, q, text) != {}
    ensures text in Texts(Listed(db, q)) ==>
              var m := Texts(Listed(db, q))[text];
              m in Holders(db, q, text) && forall i :: i in Holders(db, q, text) ==> i <= m
  {
    var s := Listing(db, q);
    TextsLast(Listed(db, q), text);
    LastHolder(db, s, text);
    assert forall i :: i in Holders(db, q, text) <==> i in s && TextOf(db.cis[i]) == text;
  }

  /** One page of the listing loop. */
  method ReadTexts(out: map<string, nat>, ghost before: seq<Item>, page: seq<Item>) returns (m: map<string, nat>)
    requires out == Texts(before)
    ensures m == Texts(before + page)
  {
    hide Texts, TextOf;
    m := out;
    assert before + page[..0] == before;
    assert page[..|page|] == page;
    for k := 0 to |page|
      invariant m == Texts(before + page[..k])
    {
      assert before + page[..k + 1] == (before + page[..k]) + [page[k]];
      TextsSnoc(before + page[..k], page[k]);
      var text := TextOf(page[k].ci);
      if text != "" { m := m[text := page[k].id]; }
    }
  }

  function Listed(db: Store, q: Query): seq<Item> {
    Items(db, Listing(db, q))
  }

  /** The items of the first pages of a listing. */
  function ReadSoFar(db: Store, q: Query, n: nat): seq<Item> {
    var all := Listed(db, q);
    if n <= |all| then all[..n] else all
  }

  lemma NextPage(db: Store, q: Query, size: PageSize, page: nat)
    requires page >= 1
    ensures var items := Items(db, PageOf(Listing(db, q), size, page));
            && (items == [] ==> ReadSoFar(db, q, Offset(size, page)) == Listed(db, q))
            && (items != [] ==> Offset(size, page) < |Listing(db, q)|)
            && ReadSoFar(db, q, Offset(size, page + 1)) == ReadSoFar(db, q, Offset(size, page)) + items
  {}

  /** `listCMDBDomainTextsForNode`: pages are read until one is empty. */
  method ListDomains(s: Syncer, sys: string, node: string) returns (r: Result<map<string, nat>>)
    modifies s.client`calls
    ensures r.Ok? ==> r.value == Texts(Listed(s.client.store, NodeDomains(sys, node)))
    ensures s.client.Healthy() ==> r.Ok?
  {
    hide Texts, Hit, ListTo, TextOf, PageOf;
    var q := NodeDomains(sys, node);
    var out: map<string, nat> := map[];
    NoTexts();
    var page := 1;
    ghost var db, size := s.client.store, s.client.pageSize;
    while true
      invariant page >= 1 && s.client.store == db
      invariant out == Texts(ReadSoFar(db, q, Offset(size, page)))
      decreases |Listing(db, q)| - Offset(size, page)
    {
      var res := s.client.GetCi(q, page);
      NextPage(db, q, size, page);
      if res.Err? { return Err; }
      if res.value == [] { break; }
      out := ReadTexts(out, ReadSoFar(db, q, Offset(size, page)), res.value);
      page := page + 1;
    }
    r := Ok(out);
  }

  /** The wanted texts that have no item, in order. */
  function Missing(existing: map<string, nat>, want: seq<string>): (adds: seq<string>)
    decreases |want|
  {
    if want == [] then []
    else
      var adds := Missing(existing, want[..|want| - 1]);
      if want[|want| - 1] in existing then adds else adds + [want[|want| - 1]]
  }

  lemma {:induction false} MissingMembers(existing: map<string, nat>, want: seq<string>)
    requires NoDup(want)
    ensures forall d {:trigger d in Missing(existing, want)} ::
              d in Missing(existing, want) <==> d in want && d !in existing
    ensures NoDup(Missing(existing, want))
    decreases |want|
  {
    if want != [] {
      var init, last := want[..|want| - 1], want[|want| - 1];
      assert want == init + [last];
      MissingMembers(existing, init);
      assert last !in init;
      var r := Missing(existing, init);
      assert last !in r;
    }
  }

  /** Additions keep the wanted order: more wanted texts only add to the list. */
  lemma {:induction false} MissingGrows(existing: map<string, nat>, want: seq<string>, more: seq<string>)
    ensures Missing(existing, want) <= Missing(existing, want + more)
    decreases |more|
  {
    if more == [] {
      assert want + more == want;
    } else {
      MissingGrows(existing, want, more[..|more| - 1]);
      assert (want + more)[..|want + more| - 1] == want + more[..|more| - 1];
    }
  }

  /** `domainSyncPlan`: additions in order, deletions in whatever order the map is walked. */
  method Plan(existing: map<string, nat>, domains: seq<string>) returns (toAdd: seq<string>, toDelete: seq<string>)
    ensures toAdd == Missing(existing, CleanList(domains))
    ensures NoDup(toDelete) && forall d :: d in toDelete <==> d in existing && d !in CleanList(domains)
  {
    var want := DomainNames(domains);
    var wantSet: set<string> := {};
    toAdd, toDelete := [], [];
    for i := 0 to |want|
      invariant forall d :: d in wantSet <==> d in want[..i]
      invariant toAdd == Missing(existing, want[..i])
    {
      assert want[..i + 1] == want[..i] + [want[i]];
      assert want[..i + 1][..i] == want[..i];
      wantSet := wantSet + {want[i]};
      if want[i] !in existing { toAdd := toAdd + [want[i]]; }
    }
    assert want[..|want|] == want;
    toDelete := Unwanted(existing.Keys, wantSet);
  }

  method Unwanted(texts: set<string>, wanted: set<string>) returns (out: seq<string>)
    ensures NoDup(out) && forall d :: d in out <==> d in texts && d !in wanted
  {
    out := [];
    var keys := texts;
    while keys != {}
      invariant keys <= texts && NoDup(out)
      invariant forall d :: d in out <==> d in texts && d !in keys && d !in wanted
    {
      var text :| text in keys;
      if text !in wanted { out := out + [text]; }
      keys := keys - {text};
    }
  }
}
