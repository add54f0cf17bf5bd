/** Deleting while paging, as arithmetic on lists: each page is read from the live list, so every
    deletion shifts unread entries onto pages already read. */
module Sweep {
  import opened Text
  import opened Remote

  function PageEnd(s: seq<nat>, size: PageSize, lo: nat): (hi: nat)
    requires lo <= |s|
    ensures lo <= hi <= |s| && hi <= lo + size
  {
    if lo + size <= |s| then lo + size else |s|
  }

  function PageBad(s: seq<nat>, size: PageSize, lo: nat, bad: set<nat>): set<nat>
    requires lo < |s|
  {
    set i | i in s[lo..PageEnd(s, size, lo)] && i in bad
  }

  /** The list after the bad entries of the page at lo are deleted. */
  function Turn(s: seq<nat>, size: PageSize, lo: nat, bad: set<nat>): (t: seq<nat>)
    requires lo < |s|
    ensures |t| <= |s|
  {
    WithoutShorter(s, PageBad(s, size, lo, bad));
    Without(s, PageBad(s, size, lo, bad))
  }

  /** One run from offset lo: turn the page at lo, then go on one page later in the list that is
      left. */
  function Swept(s: seq<nat>, size: PageSize, lo: nat, bad: set<nat>): seq<nat>
    decreases |s| - lo
  {
    if lo >= |s| then s else Swept(Turn(s, size, lo, bad), size, lo + size, bad)
  }

  lemma {:induction false} WithoutShorter(s: seq<nat>, bad: set<nat>)
    ensures |Without(s, bad)| <= |s|
  {
    if s != [] { WithoutShorter(s[..|s| - 1], bad); }
  }

  lemma {:induction false} WithoutAppend(a: seq<nat>, b: seq<nat>, bad: set<nat>)
    ensures Without(a + b, bad) == Without(a, bad) + Without(b, bad)
  {
    if b == [] {
      assert a + b == a;
    } else {
      var init, x := b[..|b| - 1], b[|b| - 1];
      WithoutAppend(a, init, bad);
      assert a + b == (a + init) + [x];
    }
  }

  lemma {:induction false} WithoutMembers(s: seq<nat>, bad: set<nat>)
    ensures forall i {:trigger i in Without(s, bad)} :: i in Without(s, bad) <==> i in s && i !in bad
  {
    if s != [] {
      WithoutMembers(s[..|s| - 1], bad);
      assert s == s[..|s| - 1] + [s[|s| - 1]];
    }
  }

  lemma {:induction false} WithoutNone(s: seq<nat>, bad: set<nat>)
    requires forall i :: i in s ==> i !in bad
    ensures Without(s, bad) == s
  {
    if s != [] {
      assert s == s[..|s| - 1] + [s[|s| - 1]];
      assert s[|s| - 1] in s;
      WithoutNone(s[..|s| - 1], bad);
    }
  }

  lemma {:induction false} WithoutSame(s: seq<nat>, a: set<nat>, b: set<nat>)
    requires forall i :: i in s ==> (i in a <==> i in b)
    ensures Without(s, a) == Without(s, b)
  {
    if s != [] {
      assert s == s[..|s| - 1] + [s[|s| - 1]];
      assert s[|s| - 1] in s;
      WithoutSame(s[..|s| - 1], a, b);
    }
  }

  /** Filtering twice is filtering once. */
  lemma {:induction false} WithoutTwice(s: seq<nat>, a: set<nat>, b: set<nat>)
    ensures Without(Without(s, a), b) == Without(s, a + b)
  {
    if s != [] {
      var init, x := s[..|s| - 1], s[|s| - 1];
      WithoutTwice(init, a, b);
    }
  }

  /** The number of bad entries of a list. */
  function Bad(s: seq<nat>, bad: set<nat>): (n: nat)
    ensures n <= |s|
  {
    WithoutShorter(s, bad);
    |s| - |Without(s, bad)|
  }

  lemma BadAppend(a: seq<nat>, b: seq<nat>, bad: set<nat>)
    ensures Bad(a + b, bad) == Bad(a, bad) + Bad(b, bad)
  {
    WithoutAppend(a, b, bad);
  }

  lemma {:induction false} WithoutAscending(s: seq<nat>, gone: set<nat>)
    requires Ascending(s)
    ensures Ascending(Without(s, gone))
  {
    if s != [] {
      var init, x := s[..|s| - 1], s[|s| - 1];
      WithoutAscending(init, gone);
      WithoutMembers(init, gone);
      var r := Without(init, gone);
      forall a | 0 <= a < |r| ensures r[a] < x {
        assert r[a] in r && r[a] in init;
      }
    }
  }

  /** A page turn keeps what is before and after the page and filters the page. */
  lemma TurnShape(s: seq<nat>, size: PageSize, lo: nat, bad: set<nat>)
    requires lo < |s| && Ascending(s)
    ensures var hi := PageEnd(s, size, lo);
            Turn(s, size, lo, bad) == s[..lo] + Without(s[lo..hi], bad) + s[hi..]
  {
    var hi, gone := PageEnd(s, size, lo), PageBad(s, size, lo, bad);
    assert s == s[..lo] + s[lo..hi] + s[hi..];
    WithoutAppend(s[..lo], s[lo..hi], gone);
    WithoutAppend(s[..lo] + s[lo..hi], s[hi..], gone);
    forall i | i in s[..lo] ensures i !in gone {}
    forall i | i in s[hi..] ensures i !in gone {}
    WithoutNone(s[..lo], gone);
    WithoutNone(s[hi..], gone);
    WithoutSame(s[lo..hi], gone, bad);
  }

  function Upto(s: seq<nat>, n: nat): seq<nat> {
    if n <= |s| then s[..n] else s
  }

  /** What filtering the middle of a list does to the number of bad entries. */
  lemma MiddleFiltered(pre: seq<nat>, page: seq<nat>, rest: seq<nat>, bad: set<nat>)
    ensures var clean := Without(page, bad);
            && |clean| <= |page| && Bad(clean, bad) == 0
            && Bad(pre + page + rest, bad) == Bad(pre + clean + rest, bad) + (|page| - |clean|)
            && Without(pre + clean + rest, bad) == Without(pre + page + rest, bad)
  {
    var clean := Without(page, bad);
    WithoutShorter(page, bad);
    WithoutTwice(page, bad, bad);
    assert bad + bad == bad;
    WithoutAppend(pre, page, bad);
    WithoutAppend(pre + page, rest, bad);
    WithoutAppend(pre, clean, bad);
    WithoutAppend(pre + clean, rest, bad);
  }

  /** The entries that slip onto pages already read are at most the entries deleted. */
  lemma WindowBound(pre: seq<nat>, clean: seq<nat>, rest: seq<nat>, n: nat, bad: set<nat>)
    requires Bad(clean, bad) == 0 && n >= |pre| + |clean|
    ensures Bad(Upto(pre + clean + rest, n), bad) <= Bad(pre, bad) + (n - |pre| - |clean|)
  {
    var slipped := Upto(rest, n - |pre| - |clean|);
    assert Upto(pre + clean + rest, n) == (pre + clean) + slipped;
    BadAppend(pre + clean, slipped, bad);
    BadAppend(pre, clean, bad);
  }

  lemma TurnCounts(pre: seq<nat>, page: seq<nat>, rest: seq<nat>, n: nat, bad: set<nat>)
    requires n == |pre| + |page| || (rest == [] && n >= |pre| + |page|)
    ensures var s, t := pre + page + rest, pre + Without(page, bad) + rest;
            && |t| <= |s| && Without(t, bad) == Without(s, bad)
            && Bad(s, bad) == Bad(t, bad) + (|s| - |t|)
            && Bad(Upto(t, n), bad) <= Bad(pre, bad) + (|s| - |t|)
  {
    var clean := Without(page, bad);
    MiddleFiltered(pre, page, rest, bad);
    WindowBound(pre, clean, rest, |pre| + |page|, bad);
    if rest == [] {
      assert Upto(pre + clean + rest, n) == Upto(pre + clean + rest, |pre| + |page|);
    }
  }

  /** A page turn and what is left to do, with the turned list kept abstract. */
  lemma OneTurn(s: seq<nat>, size: PageSize, lo: nat, bad: set<nat>) returns (t: seq<nat>)
    requires lo < |s| && Ascending(s)
    ensures |t| <= |s| && Ascending(t) && Swept(s, size, lo, bad) == Swept(t, size, lo + size, bad)
    ensures Without(t, bad) == Without(s, bad)
    ensures Bad(s, bad) == Bad(t, bad) + (|s| - |t|)
    ensures Bad(Upto(t, lo + size), bad) <= Bad(Upto(s, lo), bad) + (|s| - |t|)
  {
    hide Without, Bad, Ascending, Upto, Turn;
    t := TurnSplit(s, size, lo, bad);
    assert Swept(s, size, lo, bad) == Swept(Turn(s, size, lo, bad), size, lo + size, bad);
  }

  lemma TurnSplit(s: seq<nat>, size: PageSize, lo: nat, bad: set<nat>) returns (t: seq<nat>)
    requires lo < |s| && Ascending(s)
    ensures t == Turn(s, size, lo, bad) && |t| <= |s| && Ascending(t)
    ensures Without(t, bad) == Without(s, bad)
    ensures Bad(s, bad) == Bad(t, bad) + (|s| - |t|)
    ensures Bad(Upto(t, lo + size), bad) <= Bad(Upto(s, lo), bad) + (|s| - |t|)
  {
    hide Without, Bad, Ascending;
    t := Turn(s, size, lo, bad);
    TurnShape(s, size, lo, bad);
    WithoutAscending(s, PageBad(s, size, lo, bad));
    var hi := PageEnd(s, size, lo);
    assert s == s[..lo] + s[lo..hi] + s[hi..];
    TurnCounts(s[..lo], s[lo..hi], s[hi..], lo + size, bad);
  }

  /** A run keeps the good entries and their order. */
  lemma {:induction false} SweptKeeps(s: seq<nat>, size: PageSize, lo: nat, bad: set<nat>, r: seq<nat>)
    requires Ascending(s) && r == Swept(s, size, lo, bad)
    ensures Without(r, bad) == Without(s, bad) && Ascending(r)
    decreases |s| - lo
  {
    if lo < |s| {
      var t := OneTurn(s, size, lo, bad);
      SweptKeeps(t, size, lo + size, bad, r);
    }
  }

  /** The entries a run misses are entries that slipped onto pages already read, and each of them
      slipped because one bad entry was deleted. */
  lemma {:induction false} MissedBound(s: seq<nat>, size: PageSize, lo: nat, bad: set<nat>, r: seq<nat>)
    requires Ascending(s) && r == Swept(s, size, lo, bad)
    ensures Bad(r, bad) <= Bad(Upto(s, lo), bad) + (|s| - |r|)
    ensures Bad(s, bad) == Bad(r, bad) + (|s| - |r|)
    decreases |s| - lo
  {
    if lo < |s| {
      var t := OneTurn(s, size, lo, bad);
      MissedBound(t, size, lo + size, bad, r);
    } else {
      assert Upto(s, lo) == s;
    }
  }

  /** A run at least halves the bad entries, deletes nothing else, and keeps the order of the rest. */
  lemma RunHalves(s: seq<nat>, size: PageSize, bad: set<nat>)
    requires Ascending(s)
    ensures var r := Swept(s, size, 0, bad);
            && 2 * Bad(r, bad) <= Bad(s, bad)
            && |s| - |r| == Bad(s, bad) - Bad(r, bad)
            && Without(r, bad) == Without(s, bad) && Ascending(r)
  {
    MissedBound(s, size, 0, bad, Swept(s, size, 0, bad));
    SweptKeeps(s, size, 0, bad, Swept(s, size, 0, bad));
    assert Upto(s, 0) == [];
  }

  function Power2(n: nat): nat { if n == 0 then 1 else 2 * Power2(n - 1) }

  /** n runs, one after the other. */
  function Runs(s: seq<nat>, size: PageSize, bad: set<nat>, n: nat): seq<nat> {
    if n == 0 then s else Swept(Runs(s, size, bad, n - 1), size, 0, bad)
  }

  lemma {:induction false} RunsHalve(s: seq<nat>, size: PageSize, bad: set<nat>, n: nat)
    requires Ascending(s)
    ensures Ascending(Runs(s, size, bad, n))
    ensures Power2(n) * Bad(Runs(s, size, bad, n), bad) <= Bad(s, bad)
    ensures Without(Runs(s, size, bad, n), bad) == Without(s, bad)
  {
    if n > 0 {
      RunsHalve(s, size, bad, n - 1);
      var t := Runs(s, size, bad, n - 1);
      RunHalves(t, size, bad);
      Halve(Power2(n - 1), Bad(Runs(s, size, bad, n), bad), Bad(t, bad), Bad(s, bad));
    }
  }

  lemma Halve(p: nat, b: nat, t: nat, m: nat)
    requires 2 * b <= t && p * t <= m
    ensures (2 * p) * b <= m
  {
    Scale(p, 2 * b, t);
    assert (2 * p) * b == p * (2 * b);
  }

  lemma Scale(p: nat, a: nat, b: nat)
    requires a <= b
    ensures p * a <= p * b
  {}

  /** Repeated runs clear the list: as many as there are binary digits in the number of bad entries
      are enough, and what is left are exactly the good entries in their order. */
  lemma RunsConverge(s: seq<nat>, size: PageSize, bad: set<nat>, n: nat)
    requires Ascending(s) && Bad(s, bad) < Power2(n)
    ensures Runs(s, size, bad, n) == Without(s, bad)
  {
    RunsHalve(s, size, bad, n);
    var r := Runs(s, size, bad, n);
    if Bad(r, bad) > 0 { Scale(Power2(n), 1, Bad(r, bad)); }
    BadZero(r, bad);
  }

  lemma {:induction false} BadZero(s: seq<nat>, bad: set<nat>)
    requires Bad(s, bad) == 0
    ensures Without(s, bad) == s
  {
    if s != [] {
      WithoutShorter(s[..|s| - 1], bad);
      BadZero(s[..|s| - 1], bad);
    }
  }

  /** One run is enough when the listing fits one page. */
  lemma OnePageClears(s: seq<nat>, size: PageSize, bad: set<nat>)
    requires Ascending(s) && |s| <= size
    ensures Swept(s, size, 0, bad) == Without(s, bad)
  {
    if s != [] {
      assert s[0..|s|] == s;
      WithoutShorter(s, bad);
      TurnShape(s, size, 0, bad);
      assert Turn(s, size, 0, bad) == Without(s, bad);
    }
  }

  lemma {:induction false} AllGone(s: seq<nat>, bad: set<nat>)
    requires forall i :: i in s ==> i in bad
    ensures Without(s, bad) == []
  {
    if s != [] {
      assert s[|s| - 1] in s;
      AllGone(s[..|s| - 1], bad);
    }
  }

  /** A run leaves alone what comes before its offset. */
  lemma {:induction false} SweptPrefix(s: seq<nat>, size: PageSize, lo: nat, bad: set<nat>, n: nat)
    requires Ascending(s) && n <= lo && n <= |s|
    ensures n <= |Swept(s, size, lo, bad)| && Swept(s, size, lo, bad)[..n] == s[..n]
    decreases |s| - lo
  {
    hide Without, Ascending, Turn, PageBad;
    if lo < |s| {
      var t := TurnSplit(s, size, lo, bad);
      TurnShape(s, size, lo, bad);
      assert t[..n] == s[..n];
      SweptPrefix(t, size, lo + size, bad, n);
    }
  }

  /** When the first page loses its first entry, the first entry of the second page slips. */
  lemma FirstSlips(s: seq<nat>, size: PageSize)
    requires Ascending(s) && |s| > size
    ensures s[size] in Swept(s, size, 0, {s[0], s[size]})
  {
    hide Without, Ascending, Swept;
    var bad := {s[0], s[size]};
    var t := FirstTurn(s, size);
    SweptPrefix(t, size, size, bad, size);
    assert t[..size][size - 1] == s[size];
    assert s[size] in Swept(t, size, size, bad)[..size];
  }

  lemma FirstTurn(s: seq<nat>, size: PageSize) returns (t: seq<nat>)
    requires Ascending(s) && |s| > size
    ensures t == s[1..] && Ascending(t)
    ensures Swept(s, size, 0, {s[0], s[size]}) == Swept(t, size, size, {s[0], s[size]})
  {
    hide Without, Ascending;
    var bad := {s[0], s[size]};
    t := TurnSplit(s, size, 0, bad);
    TurnShape(s, size, 0, bad);
    FirstGoes(s, size, bad);
    assert PageEnd(s, size, 0) == size && s[..0] == [];
    assert t == s[1..size] + s[size..];
  }

  lemma FirstGoes(s: seq<nat>, size: PageSize, bad: set<nat>)
    requires Ascending(s) && |s| > size && bad == {s[0], s[size]}
    ensures Without(s[0..size], bad) == s[1..size]
  {
    hide Ascending;
    assert s[0..size] == [s[0]] + s[1..size];
    WithoutAppend([s[0]], s[1..size], bad);
    forall i | i in s[1..size] ensures i !in bad { Between(s, size, i); }
    WithoutNone(s[1..size], bad);
    assert [s[0]][..0] == [];
  }

  lemma Between(s: seq<nat>, size: PageSize, i: nat)
    requires Ascending(s) && |s| > size && i in s[1..size]
    ensures i != s[0] && i != s[size]
  {
    var k :| 0 <= k < |s[1..size]| && s[1..size][k] == i;
    assert s[0] < s[k + 1] < s[size];
  }

  /** One run clears a listing whatever is bad in it exactly if the listing fits a page. */
  lemma OneRunIff(s: seq<nat>, size: PageSize)
    requires Ascending(s)
    ensures (forall bad {:trigger Swept(s, size, 0, bad)} :: Swept(s, size, 0, bad) == Without(s, bad)) <==> |s| <= size
  {
    hide Swept, Ascending;
    if |s| <= size {
      forall bad ensures Swept(s, size, 0, bad) == Without(s, bad) { OnePageClears(s, size, bad); }
    } else {
      var bad := {s[0], s[size]};
      FirstSlips(s, size);
      WithoutMembers(s, bad);
      assert Swept(s, size, 0, bad) != Without(s, bad);
    }
  }

  /** A list that is bad throughout is cleared exactly if it fits a page. */
  lemma AllBadIff(s: seq<nat>, size: PageSize, bad: set<nat>)
    requires Ascending(s) && forall i :: i in s ==> i in bad
    ensures Swept(s, size, 0, bad) == [] <==> |s| <= size
  {
    if |s| <= size {
      AllGone(s, bad);
      OnePageClears(s, size, bad);
    } else {
      var t := SecondPage(s, size, bad);
      var n := if |t| < size then |t| else size;
      SweptPrefix(t, size, size, bad, n);
    }
  }

  lemma SecondPage(s: seq<nat>, size: PageSize, bad: set<nat>) returns (t: seq<nat>)
    requires Ascending(s) && |s| > size && forall i :: i in s ==> i in bad
    ensures t == s[size..] && Ascending(t) && Swept(s, size, 0, bad) == Swept(t, size, size, bad)
  {
    t := s[size..];
    AllGone(s[0..size], bad);
    TurnShape(s, size, 0, bad);
    assert Turn(s, size, 0, bad) == t;
  }

  /** Half is all that can be promised: two pages of bad entries lose one page. */
  lemma HalfRemains(s: seq<nat>, size: PageSize, bad: set<nat>)
    requires Ascending(s) && |s| == 2 * size && forall i :: i in s ==> i in bad
    ensures Swept(s, size, 0, bad) == s[size..]
  {
    var t := SecondPage(s, size, bad);
  }

  /** What a run leaves is the list without some of its bad entries. */
  lemma {:induction false} SweptGone(s: seq<nat>, size: PageSize, lo: nat, bad: set<nat>) returns (gone: set<nat>)
    ensures gone <= bad && Swept(s, size, lo, bad) == Without(s, gone)
    decreases |s| - lo
  {
    gone := {};
    if lo < |s| {
      gone := SweptGone(Turn(s, size, lo, bad), size, lo + size, bad);
      WithoutTwice(s, PageBad(s, size, lo, bad), gone);
      gone := PageBad(s, size, lo, bad) + gone;
    } else {
      WithoutNone(s, {});
    }
  }

  /** The pages of a list that does not change, read one after the other. */
  function ReadAll(s: seq<nat>, size: PageSize, lo: nat): seq<nat>
    decreases |s| - lo
  {
    if lo >= |s| then []
    else if lo + size >= |s| then s[lo..]
    else s[lo..lo + size] + ReadAll(s, size, lo + size)
  }

  /** Without shifting, paging sees every entry once, in order. */
  lemma {:induction false} ReadAllIsAll(s: seq<nat>, size: PageSize, lo: nat)
    requires lo <= |s|
    ensures ReadAll(s, size, lo) == s[lo..]
    decreases |s| - lo
  {
    if lo + size < |s| {
      ReadAllIsAll(s, size, lo + size);
      assert s[lo..] == s[lo..lo + size] + s[lo + size..];
    }
  }

  /** A run over frozen pages therefore clears the list at once. */
  lemma FrozenPagesClear(s: seq<nat>, size: PageSize, bad: set<nat>)
    ensures Without(ReadAll(s, size, 0), bad) == Without(s, bad)
  {
    ReadAllIsAll(s, size, 0);
    assert s[0..] == s;
  }
}
