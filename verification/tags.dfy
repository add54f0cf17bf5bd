/** Merging resource tags from two sources, and looking a tag up. */
module Tags {
  import opened Text

  datatype Pair = Pair(key: string, value: string)

  /** The form under which keys are compared: case and outer white space do not matter. */
  function Fold(k: string): string { Trim(Lower(k)) }

  predicate HasKey(pairs: seq<Pair>, k: string) {
    exists i :: 0 <= i < |pairs| && Fold(pairs[i].key) == k
  }

  function Clean(p: Pair): Pair { Pair(Trim(p.key), Trim(p.value)) }

  /** The inner `add` of the merge: pairs with a new non-blank key are appended, trimmed. */
  function AddAll(out: seq<Pair>, pairs: seq<Pair>): seq<Pair>
    decreases |pairs|
  {
    if pairs == [] then out
    else
      var so, p := AddAll(out, pairs[..|pairs| - 1]), pairs[|pairs| - 1];
      if Fold(p.key) == "" || HasKey(so, Fold(p.key)) then so else so + [Clean(p)]
  }

  function Merge(primary: seq<Pair>, secondary: seq<Pair>): seq<Pair> {
    AddAll(AddAll([], primary), secondary)
  }

  // ---------- folding ----------

  lemma {:induction false} LowerTrimLeft(s: string)
    ensures TrimLeft(Lower(s)) == Lower(TrimLeft(s))
  {
    if s != "" {
      if IsSpace(s[0]) {
        LowerTrimLeft(s[1..]);
        assert Lower(s)[1..] == Lower(s[1..]);
      }
    }
  }

  lemma {:induction false} LowerTrimRight(s: string)
    ensures TrimRight(Lower(s)) == Lower(TrimRight(s))
  {
    if s != "" {
      if IsSpace(s[|s| - 1]) {
        LowerTrimRight(s[..|s| - 1]);
        assert Lower(s)[..|s| - 1] == Lower(s[..|s| - 1]);
      }
    }
  }

  /** Lowering and trimming commute, so both spellings of the key in the code agree. */
  lemma LowerTrim(s: string)
    ensures Trim(Lower(s)) == Lower(Trim(s))
  {
    LowerTrimLeft(s);
    LowerTrimRight(TrimLeft(s));
  }

  lemma FoldClean(p: Pair)
    ensures Fold(Clean(p).key) == Fold(p.key) && Clean(Clean(p)) == Clean(p)
  {
    LowerTrim(p.key);
    LowerTrim(Trim(p.key));
  }

  // ---------- the loops ----------

  method Add(out: seq<Pair>, seen: set<string>, pairs: seq<Pair>) returns (out': seq<Pair>, seen': set<string>)
    requires forall k :: k in seen <==> HasKey(out, k)
    ensures out' == AddAll(out, pairs)
    ensures forall k :: k in seen' <==> HasKey(out', k)
  {
    out', seen' := out, seen;
    for i := 0 to |pairs|
      invariant out' == AddAll(out, pairs[..i])
      invariant forall k :: k in seen' <==> HasKey(out', k)
    {
      assert pairs[..i + 1][..i] == pairs[..i];
      var k := Trim(Lower(pairs[i].key));
      if k == "" || k in seen' { continue; }
      HasKeySnoc(out', pairs[i]);
      seen' := seen' + {k};
      out' := out' + [Clean(pairs[i])];
    }
    assert pairs[..|pairs|] == pairs;
  }

  lemma HasKeySnoc(out: seq<Pair>, p: Pair)
    ensures forall k {:trigger HasKey(out + [Clean(p)], k)} :: HasKey(out + [Clean(p)], k) <==>
              HasKey(out, k) || Fold(p.key) == k
  {
    FoldClean(p);
    var more := out + [Clean(p)];
    forall k ensures HasKey(more, k) <==> HasKey(out, k) || Fold(p.key) == k {
      if HasKey(out, k) {
        var i :| 0 <= i < |out| && Fold(out[i].key) == k;
        assert more[i] == out[i];
      }
      assert Fold(more[|out|].key) == Fold(p.key);
    }
  }

  /** `MergePairsPreferPrimary`. */
  method MergePreferPrimary(primary: seq<Pair>, secondary: seq<Pair>) returns (out: seq<Pair>)
    ensures out == Merge(primary, secondary)
  {
    var seen: set<string> := {};
    out := [];
    out, seen := Add(out, seen, primary);
    out, seen := Add(out, seen, secondary);
  }

  // ---------- the laws ----------

  lemma {:induction false} AddAllKeys(out: seq<Pair>, pairs: seq<Pair>, k: string)
    requires k != ""
    ensures HasKey(AddAll(out, pairs), k) <==> HasKey(out, k) || HasKey(pairs, k)
    decreases |pairs|
  {
    hide Fold, HasKey, Clean;
    if pairs == [] {
      NoKeys(k);
    } else {
      var init, p := pairs[..|pairs| - 1], pairs[|pairs| - 1];
      AddAllKeys(out, init, k);
      HasKeySnoc(AddAll(out, init), p);
      HasKeyLast(init, p, k);
      assert pairs == init + [p];
    }
  }

  lemma NoKeys(k: string)
    ensures !HasKey([], k)
  {}

  lemma HasKeyLast(init: seq<Pair>, p: Pair, k: string)
    ensures HasKey(init + [p], k) <==> HasKey(init, k) || Fold(p.key) == k
  {
    var more := init + [p];
    if HasKey(init, k) {
      var i :| 0 <= i < |init| && Fold(init[i].key) == k;
      assert more[i] == init[i];
    }
    assert more[|init|] == p;
  }

  predicate DistinctKeys(pairs: seq<Pair>) {
    forall i, j :: 0 <= i < j < |pairs| ==> Fold(pairs[i].key) != Fold(pairs[j].key)
  }

  lemma DistinctSnoc(out: seq<Pair>, p: Pair)
    requires DistinctKeys(out) && !HasKey(out, Fold(p.key))
    ensures DistinctKeys(out + [Clean(p)])
  {
    FoldClean(p);
    hide Fold, Clean;
    var more := out + [Clean(p)];
    assert forall i :: 0 <= i < |out| ==> more[i] == out[i];
    assert more[|out|] == Clean(p);
  }

  lemma {:induction false} AddAllDistinct(out: seq<Pair>, pairs: seq<Pair>)
    requires DistinctKeys(out)
    ensures DistinctKeys(AddAll(out, pairs))
    decreases |pairs|
  {
    hide DistinctKeys, Fold, HasKey;
    if pairs != [] {
      var so, p := AddAll(out, pairs[..|pairs| - 1]), pairs[|pairs| - 1];
      AddAllDistinct(out, pairs[..|pairs| - 1]);
      if !HasKey(so, Fold(p.key)) { DistinctSnoc(so, p); }
    }
  }

  /** Keys of a merge are pairwise different, ignoring case. */
  lemma MergeDistinct(a: seq<Pair>, b: seq<Pair>)
    ensures DistinctKeys(Merge(a, b))
  {
    AddAllDistinct([], a);
    hide DistinctKeys;
    AddAllDistinct(AddAll([], a), b);
  }

  lemma {:induction false} AddAllAppend(out: seq<Pair>, a: seq<Pair>, b: seq<Pair>)
    ensures AddAll(out, a + b) == AddAll(AddAll(out, a), b)
    decreases |b|
  {
    if b == [] {
      assert a + b == a;
    } else {
      assert (a + b)[..|a + b| - 1] == a + b[..|b| - 1];
      AddAllAppend(out, a, b[..|b| - 1]);
    }
  }

  /** Adding a merged list is adding the list it was merged from. */
  lemma {:induction false} AddMerged(out: seq<Pair>, x: seq<Pair>)
    ensures AddAll(out, AddAll([], x)) == AddAll(out, x)
    decreases |x|
  {
    if x != [] {
      var init, p := x[..|x| - 1], x[|x| - 1];
      AddMerged(out, init);
      var norm := AddAll([], init);
      FoldClean(p);
      if Fold(p.key) != "" {
        AddAllKeys([], init, Fold(p.key));
        AddAllKeys(out, init, Fold(p.key));
        assert (norm + [Clean(p)])[..|norm|] == norm;
      }
    }
  }

  /** Merging is associative. */
  lemma MergeAssociative(a: seq<Pair>, b: seq<Pair>, c: seq<Pair>)
    ensures Merge(Merge(a, b), c) == Merge(a, Merge(b, c))
  {
    AddAllAppend([], a, b);
    assert Merge(a, b) == AddAll([], a + b);
    AddAllAppend([], b, c);
    assert Merge(b, c) == AddAll([], b + c);
    AddMerged([], a + b);
    AddMerged(AddAll([], a), b + c);
    AddAllAppend(AddAll([], a), b, c);
  }

  /** A merged list merged with itself, or with nothing on either side, is unchanged. */
  lemma MergeIdempotent(a: seq<Pair>, b: seq<Pair>)
    ensures var m := Merge(a, b); Merge(m, []) == m && Merge([], m) == m && Merge(m, m) == m
  {
    var m := Merge(a, b);
    AddAllAppend([], a, b);
    AddMerged([], a + b);
    AddNothingNew(m, m);
  }

  lemma {:induction false} AddNothingNew(out: seq<Pair>, x: seq<Pair>)
    requires forall i :: 0 <= i < |x| ==> HasKey(out, Fold(x[i].key))
    ensures AddAll(out, x) == out
    decreases |x|
  {
    if x != [] { AddNothingNew(out, x[..|x| - 1]); }
  }

  // ---------- lookup ----------

  /** The first value under a key. */
  function Find(k: string, pairs: seq<Pair>): Option<string> {
    if pairs == [] then None
    else if Fold(pairs[0].key) == k then Some(Trim(pairs[0].value))
    else Find(k, pairs[1..])
  }

  /** `FromPairs`. */
  function FromPairs(tagKey: string, pairs: seq<Pair>): string {
    if tagKey == "" then ""
    else
      var f := Find(Fold(tagKey), pairs);
      if f.Some? then f.value else ""
  }

  lemma HasKeyFirst(pairs: seq<Pair>, k: string)
    requires pairs != []
    ensures HasKey(pairs, k) <==> Fold(pairs[0].key) == k || HasKey(pairs[1..], k)
  {
    hide Fold;
    var rest := pairs[1..];
    assert forall i :: 0 <= i < |rest| ==> rest[i] == pairs[i + 1];
    if HasKey(pairs, k) && Fold(pairs[0].key) != k {
      var i :| 0 <= i < |pairs| && Fold(pairs[i].key) == k;
      assert rest[i - 1] == pairs[i];
    }
  }

  lemma {:induction false} FindSnoc(k: string, pairs: seq<Pair>, p: Pair)
    ensures Find(k, pairs + [p]) ==
            if Find(k, pairs).Some? then Find(k, pairs) else if Fold(p.key) == k then Some(Trim(p.value)) else None
    ensures Find(k, pairs).Some? <==> HasKey(pairs, k)
  {
    hide Fold, HasKey;
    if pairs == [] {
      NoKeys(k);
    } else {
      assert (pairs + [p])[1..] == pairs[1..] + [p];
      FindSnoc(k, pairs[1..], p);
      HasKeyFirst(pairs, k);
    }
  }

  lemma {:induction false} FindAdded(k: string, out: seq<Pair>, pairs: seq<Pair>)
    requires k != ""
    ensures Find(k, AddAll(out, pairs)) == if Find(k, out).Some? then Find(k, out) else Find(k, pairs)
    decreases |pairs|
  {
    if pairs != [] {
      var init, p := pairs[..|pairs| - 1], pairs[|pairs| - 1];
      var so := AddAll(out, init);
      assert pairs == init + [p];
      FindAdded(k, out, init);
      FindSnoc(k, so, Clean(p));
      FindSnoc(k, init, p);
      FindSnoc(k, out, p);
      FoldClean(p);
    }
  }

  /** Looking a non-blank key up in a merge is looking it up in the first list that has it. */
  lemma LookupOfMerge(tagKey: string, primary: seq<Pair>, secondary: seq<Pair>)
    requires Fold(tagKey) != ""
    ensures FromPairs(tagKey, Merge(primary, secondary)) ==
            if HasKey(primary, Fold(tagKey)) then FromPairs(tagKey, primary) else FromPairs(tagKey, secondary)
  {
    var k := Fold(tagKey);
    FindAdded(k, [], primary);
    FindAdded(k, AddAll([], primary), secondary);
    FindSnoc(k, primary, Pair("", ""));
  }

  // ---------- the form for databases ----------

  function Outside(list: seq<Pair>, sysKeys: set<string>): seq<Pair>
    decreases |list|
  {
    if list == [] then []
    else
      var rest, p := Outside(list[..|list| - 1], sysKeys), list[|list| - 1];
      if Lower(Trim(p.key)) in sysKeys then rest else rest + [p]
  }

  /** `MergeRDSUserDisplayPairs`. */
  method MergeRds(sys: seq<Pair>, usr: seq<Pair>, list: seq<Pair>) returns (out: seq<Pair>)
    ensures out == Merge(usr, Outside(list, SystemKeys(sys)))
  {
    var sysKeys: set<string> := {};
    for i := 0 to |sys|
      invariant sysKeys == SystemKeys(sys[..i])
    {
      assert sys[..i + 1] == sys[..i] + [sys[i]];
      sysKeys := sysKeys + {Lower(Trim(sys[i].key))};
    }
    assert sys[..|sys|] == sys;
    var kept: seq<Pair> := [];
    for i := 0 to |list|
      invariant kept == Outside(list[..i], sysKeys)
    {
      assert list[..i + 1][..i] == list[..i];
      if Lower(Trim(list[i].key)) in sysKeys { continue; }
      kept := kept + [list[i]];
    }
    assert list[..|list|] == list;
    out := MergePreferPrimary(usr, kept);
  }

  function SystemKeys(sys: seq<Pair>): set<string> {
    set p | p in sys :: Lower(Trim(p.key))
  }

  lemma {:induction false} OutsideKeys(list: seq<Pair>, sysKeys: set<string>, k: string)
    ensures HasKey(Outside(list, sysKeys), k) <==> k !in sysKeys && HasKey(list, k)
    decreases |list|
  {
    if list != [] {
      var init, p := list[..|list| - 1], list[|list| - 1];
      assert list == init + [p];
      OutsideKeys(init, sysKeys, k);
      HasKeyLast(init, p, k);
      HasKeyLast(Outside(init, sysKeys), p, k);
      LowerTrim(p.key);
    }
  }

  /** A tag is shown exactly when a user tag has its key, or a listed tag has it and no system tag
      does. */
  lemma NoSystemTags(sys: seq<Pair>, usr: seq<Pair>, list: seq<Pair>, k: string)
    requires k != ""
    ensures HasKey(Merge(usr, Outside(list, SystemKeys(sys))), k) <==>
            HasKey(usr, k) || (HasKey(list, k) && k !in SystemKeys(sys))
  {
    AddAllKeys([], usr, k);
    AddAllKeys(AddAll([], usr), Outside(list, SystemKeys(sys)), k);
    OutsideKeys(list, SystemKeys(sys), k);
  }
}
