/** What one error-free run does to the domain items of a node, and where repeated runs lead. */
module DomainTheory {
  import opened Text
  import opened Remote
  import opened Events
  import opened Passes
  import opened Codec
  import opened Domains
  import opened DomainSync

  /** What a run does to the items that carry one text. */
  ghost predicate TextSynced(db: Store, post: Store, q: Query, want: seq<string>, text: string) {
    var before, after := Holders(db, q, text), Holders(post, q, text);
    if text in want then
      (before != {} ==> after == before) && (before == {} ==> |after| == 1)
    else
      after <= before && |after| == if before == {} then 0 else |before| - 1
  }

  /** An item that stays keeps all its columns; one that goes was the node's and carried an unwanted
      text, so blank ones stay. */
  ghost predicate Stays(db: Store, post: Store, q: Query, want: seq<string>, i: nat)
    requires i in db.cis
  {
    if i in post.cis then post.cis[i] == db.cis[i]
    else Hit(db.cis[i], q) && TextOf(db.cis[i]) != "" && TextOf(db.cis[i]) !in want
  }

  /** A new item is the node's and carries a wanted text that had none. */
  ghost predicate Comes(db: Store, post: Store, q: Query, want: seq<string>, i: nat)
    requires i in post.cis
  {
    i in db.cis || (Hit(post.cis[i], q) && TextOf(post.cis[i]) in want && Holders(db, q, TextOf(post.cis[i])) == {})
  }

  /** Wanted texts have items, every unwanted text lost one, and nothing else happened. */
  ghost predicate Synced(db: Store, post: Store, q: Query, want: seq<string>) {
    && (forall text {:trigger TextSynced(db, post, q, want, text)} :: text != "" ==>
         TextSynced(db, post, q, want, text))
    && (forall i {:trigger db.cis[i]} :: i in db.cis ==> Stays(db, post, q, want, i))
    && (forall i {:trigger post.cis[i]} :: i in post.cis ==> Comes(db, post, q, want, i))
  }

  lemma {:induction false} TargetsAre(existing: map<string, nat>, texts: seq<string>, n: nat)
    requires n <= |texts|
    ensures forall d :: d in texts[..n] && d in existing ==> existing[d] in Targets(existing, texts, n)
  {
    if n > 0 {
      TargetsAre(existing, texts, n - 1);
      assert texts[..n] == texts[..n - 1] + [texts[n - 1]];
    }
  }

  /** The plan's deletions are held by the listing's map. */
  lemma {:induction false} PlanHeld(db: Store, q: Query, texts: seq<string>, n: nat)
    requires n <= |texts| && NoDup(texts) && forall d :: d in texts ==> d in Texts(Listed(db, q))
    ensures Held(db, q, Texts(Listed(db, q)), texts, n)
  {
    if n > 0 {
      PlanHeld(db, q, texts, n - 1);
      assert texts[n - 1] in texts;
      ListedTexts(db, q, texts[n - 1]);
    }
  }

  lemma GainedItem(db: Store, mid: Store, q: Query, adds: seq<string>, i: nat)
    requires Gained(db, mid, q, adds, |adds|) && i in mid.cis && i !in db.cis
    ensures 0 <= i - db.next < |adds| && Hit(mid.cis[i], q) && TextOf(mid.cis[i]) == adds[i - db.next]
  {
    assert Shows(mid, q, db.next + (i - db.next), adds[i - db.next]);
  }

  lemma GainedOld(db: Store, mid: Store, q: Query, adds: seq<string>, text: string)
    requires Gained(db, mid, q, adds, |adds|)
    ensures Holders(db, q, text) <= Holders(mid, q, text)
    ensures forall i :: i in Holders(mid, q, text) && i in db.cis ==> i in Holders(db, q, text)
  {}

  /** A text that was not added has the holders it had. */
  lemma GainedOthers(db: Store, mid: Store, q: Query, adds: seq<string>, text: string)
    requires Gained(db, mid, q, adds, |adds|) && text !in adds
    ensures Holders(mid, q, text) == Holders(db, q, text)
  {
    GainedOld(db, mid, q, adds, text);
    forall i | i in Holders(mid, q, text) ensures i in db.cis {
      if i !in db.cis { GainedItem(db, mid, q, adds, i); }
    }
  }

  /** A text that was added has one holder more. */
  lemma GainedOne(db: Store, mid: Store, q: Query, adds: seq<string>, k: nat)
    requires Gained(db, mid, q, adds, |adds|) && NoDup(adds) && k < |adds|
    ensures Holders(mid, q, adds[k]) == Holders(db, q, adds[k]) + {db.next + k}
  {
    GainedOld(db, mid, q, adds, adds[k]);
    assert Shows(mid, q, db.next + k, adds[k]);
    forall i | i in Holders(mid, q, adds[k]) && i !in db.cis ensures i == db.next + k {
      GainedItem(db, mid, q, adds, i);
    }
  }

  lemma CutHolders(db: Store, q: Query, gone: set<nat>, text: string)
    ensures Holders(Cut(db, gone), q, text) == Holders(db, q, text) - gone
  {}

  /** The hypotheses of a run: additions and deletions follow the plan. */
  ghost predicate Planned(db: Store, mid: Store, q: Query, want: seq<string>, adds: seq<string>, drops: seq<string>) {
    && CleanList(want) == want && adds == Missing(Texts(Listed(db, q)), want)
    && NoDup(drops) && (forall d :: d in drops <==> d in Texts(Listed(db, q)) && d !in want)
    && Gained(db, mid, q, adds, |adds|)
  }

  function Outcome(db: Store, mid: Store, q: Query, drops: seq<string>): Store {
    Cut(mid, Targets(Texts(Listed(db, q)), drops, |drops|))
  }

  /** Deleted items carried unwanted texts. */
  lemma DroppedTexts(db: Store, mid: Store, q: Query, want: seq<string>, adds: seq<string>, drops: seq<string>, i: nat)
    requires Planned(db, mid, q, want, adds, drops) && i in Targets(Texts(Listed(db, q)), drops, |drops|)
    ensures i in db.cis && Hit(db.cis[i], q) && TextOf(db.cis[i]) in drops
    ensures TextOf(db.cis[i]) in Texts(Listed(db, q)) && i == Texts(Listed(db, q))[TextOf(db.cis[i])]
    ensures i in mid.cis && mid.cis[i] == db.cis[i]
  {
    var existing := Texts(Listed(db, q));
    PlanHeld(db, q, drops, |drops|);
    TargetsShow(db, q, existing, drops, |drops|);
    TargetHit(db, q, existing, drops, |drops|, i);
    assert drops[..|drops|] == drops;
    OneTarget(db, q, drops, |drops|, i, TextOf(db.cis[i]));
  }

  lemma WantedText(db: Store, mid: Store, q: Query, want: seq<string>, adds: seq<string>, drops: seq<string>,
                   text: string)
    requires Planned(db, mid, q, want, adds, drops) && text != "" && text in want
    ensures TextSynced(db, Outcome(db, mid, q, drops), q, want, text)
  {
    hide Texts, Listed, TextOf, Hit, Targets, Gained, CleanList, Missing, Trimmed;
    var gone := Targets(Texts(Listed(db, q)), drops, |drops|);
    CleanMembers(want);
    MissingMembers(Texts(Listed(db, q)), want);
    ListedTexts(db, q, text);
    CutHolders(mid, q, gone, text);
    forall i | i in gone ensures i !in Holders(mid, q, text) { DroppedTexts(db, mid, q, want, adds, drops, i); }
    assert Holders(Outcome(db, mid, q, drops), q, text) == Holders(mid, q, text);
    if text in adds {
      var k :| 0 <= k < |adds| && adds[k] == text;
      GainedOne(db, mid, q, adds, k);
      assert Holders(mid, q, text) == {db.next + k};
    } else {
      GainedOthers(db, mid, q, adds, text);
    }
  }

  lemma UnwantedText(db: Store, mid: Store, q: Query, want: seq<string>, adds: seq<string>, drops: seq<string>,
                     text: string)
    requires Planned(db, mid, q, want, adds, drops) && text != "" && text !in want
    ensures TextSynced(db, Outcome(db, mid, q, drops), q, want, text)
  {
    var existing := Texts(Listed(db, q));
    var gone := Targets(existing, drops, |drops|);
    CleanMembers(want);
    MissingMembers(existing, want);
    ListedTexts(db, q, text);
    CutHolders(mid, q, gone, text);
    GainedOthers(db, mid, q, adds, text);
    TargetsAre(existing, drops, |drops|);
    assert drops[..|drops|] == drops;
    if text in existing {
      assert existing[text] in gone;
      forall i | i in gone && i in Holders(db, q, text) ensures i == existing[text] {
        DroppedTexts(db, mid, q, want, adds, drops, i);
      }
      assert Holders(db, q, text) - gone == Holders(db, q, text) - {existing[text]};
    }
  }

  /** A text has only one target. */
  lemma {:induction false} OneTarget(db: Store, q: Query, texts: seq<string>, n: nat, i: nat, text: string)
    requires n <= |texts| && Held(db, q, Texts(Listed(db, q)), texts, n)
    requires i in Targets(Texts(Listed(db, q)), texts, n) && i in db.cis && TextOf(db.cis[i]) == text
    ensures text in Texts(Listed(db, q)) && i == Texts(Listed(db, q))[text]
  {
    var existing := Texts(Listed(db, q));
    if i in Targets(existing, texts, n - 1) { OneTarget(db, q, texts, n - 1, i, text); }
  }

  /** An error-free run brings every text of the node, and nothing else, to where it should be. */
  lemma RunSyncs(db: Store, mid: Store, q: Query, want: seq<string>, adds: seq<string>, drops: seq<string>)
    requires Planned(db, mid, q, want, adds, drops)
    ensures Synced(db, Outcome(db, mid, q, drops), q, want)
  {
    var post := Outcome(db, mid, q, drops);
    forall text | text != "" ensures TextSynced(db, post, q, want, text) {
      if text in want { WantedText(db, mid, q, want, adds, drops, text); }
      else { UnwantedText(db, mid, q, want, adds, drops, text); }
    }
    hide Texts, Listed, TextOf, Hit, Targets, CleanList, Missing, TextSynced, Holders;
    forall i | i in db.cis ensures Stays(db, post, q, want, i) {
      if i in Targets(Texts(Listed(db, q)), drops, |drops|) {
        DroppedTexts(db, mid, q, want, adds, drops, i);
        ListedTexts(db, q, TextOf(db.cis[i]));
      }
    }
    forall i | i in post.cis ensures Comes(db, post, q, want, i) {
      if i !in db.cis {
        GainedItem(db, mid, q, adds, i);
        CleanMembers(want);
        MissingMembers(Texts(Listed(db, q)), want);
        ListedTexts(db, q, TextOf(post.cis[i]));
        assert TextOf(post.cis[i]) in adds;
      }
    }
  }

  lemma {:induction false} TargetHit(db: Store, q: Query, existing: map<string, nat>, texts: seq<string>, n: nat,
                                     i: nat)
    requires n <= |texts| && Held(db, q, existing, texts, n) && i in Targets(existing, texts, n)
    ensures i in db.cis && Hit(db.cis[i], q)
  {
    if i in Targets(existing, texts, n - 1) { TargetHit(db, q, existing, texts, n - 1, i); }
  }
}
