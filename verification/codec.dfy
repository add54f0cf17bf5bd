/** The domain-list codec: lists are written as one comma-separated string and parsed back from
    whatever the CMDB returns. */
module Codec {
  import opened Text
  import opened Values
  import opened Rows

  const ENUM := '、'

  /** The loop of `domainNamesForCMDB`. */
  method DomainNames(domains: seq<string>) returns (out: seq<string>)
    ensures out == CleanList(domains)
  {
    var seen: set<string> := {};
    out := [];
    for i := 0 to |domains|
      invariant out == CleanList(domains[..i])
      invariant forall d :: d in seen <==> d in out
    {
      assert domains[..i + 1][..i] == domains[..i];
      var s := Trim(domains[i]);
      if s == "" || s in seen { continue; }
      seen := seen + {s};
      out := out + [s];
    }
    assert domains[..|domains|] == domains;
  }

  /** `splitDomainNameString`: the enumeration comma wins over the ASCII comma. */
  function SplitDomains(text: string): seq<string> {
    var s := Trim(text);
    if s == "" then []
    else if ENUM in s then CleanList(NonBlank(Split(s, ENUM)))
    else if ',' in s then CleanList(NonBlank(Split(s, ',')))
    else CleanList([s])
  }

  function CompareAll(vs: seq<Value>): (ss: seq<string>)
    ensures |ss| == |vs| && forall i :: 0 <= i < |vs| ==> ss[i] == CompareStr(vs[i])
  {
    if vs == [] then [] else [CompareStr(vs[0])] + CompareAll(vs[1..])
  }

  /** `parseCMDBDomainNames` on a present row. */
  function ParseDomains(v: Value): seq<string> {
    match v
    case Nil => []
    case Strs(ss) => CleanList(ss)
    case Anys(vs) => CleanList(NonBlank(CompareAll(vs)))
    case Str(s) => SplitDomains(s)
    case _ => SplitDomains(CompareStr(v))
  }

  predicate SeparatorFree(ds: seq<string>) {
    forall d :: d in ds ==> ',' !in d && ENUM !in d
  }

  lemma TrimSubset(s: string, c: char)
    requires c in Trim(s)
    ensures c in s
  {
    TrimLeftFacts(s);
    TrimRightFacts(TrimLeft(s));
  }

  lemma {:induction false} NonBlankClean(ds: seq<string>)
    requires forall d :: d in ds ==> d != "" && Trimmed(d)
    ensures NonBlank(ds) == ds
    decreases |ds|
  {
    if ds != [] {
      var init := ds[..|ds| - 1];
      assert ds == init + [ds[|ds| - 1]];
      assert forall d :: d in init ==> d in ds;
      NonBlankClean(init);
    }
  }

  lemma CleanMembers(ds: seq<string>)
    requires CleanList(ds) == ds
    ensures NoDup(ds) && forall d :: d in ds ==> d != "" && Trimmed(d)
  {
    assert forall d :: d in CleanList(ds) ==> d != "" && exists x :: x in ds && Trim(x) == d;
  }

  lemma {:induction false} JoinEnds(ds: seq<string>, c: char)
    requires ds != [] && forall d :: d in ds ==> d != "" && Trimmed(d)
    ensures var j := Join(ds, c); j != "" && Trimmed(j)
  {
    assert ds[0] in ds;
    if |ds| > 1 {
      var rest := ds[1..];
      assert forall d :: d in rest ==> d in ds;
      JoinEnds(rest, c);
      var j, r := Join(ds, c), Join(rest, c);
      assert j == ds[0] + [c] + r;
      assert j[0] == ds[0][0] && j[|j| - 1] == r[|r| - 1];
    }
  }

  /** The elements recovered from a split never contain the separator. */
  lemma SplitLosesSeparator(s: string, c: char, d: string)
    requires d in CleanList(NonBlank(Split(s, c)))
    ensures c !in d
  {
    var x :| x in NonBlank(Split(s, c)) && Trim(x) == d;
    var y :| y in Split(s, c) && Trim(y) == x;
    if c in d {
      TrimSubset(x, c);
      TrimSubset(y, c);
      assert false;
    }
  }

  lemma CleanRoundTrip(ds: seq<string>)
    requires CleanList(ds) == ds && SeparatorFree(ds)
    ensures SplitDomains(Join(ds, ',')) == ds
  {
    CleanMembers(ds);
    if ds != [] {
      JoinEnds(ds, ',');
      var j := Join(ds, ',');
      assert Trim(j) == j;
      JoinKeeps(ds, ',', ENUM);
      JoinKeeps(ds, ',', ',');
      assert ENUM !in j;
      SplitOfJoin(ds, ',');
      NonBlankClean(ds);
      assert |ds| == 1 ==> [j] == ds;
    }
  }

  lemma DirtyRoundTrip(ds: seq<string>)
    requires CleanList(ds) == ds && !SeparatorFree(ds)
    ensures SplitDomains(Join(ds, ',')) != ds
  {
    CleanMembers(ds);
    var d :| d in ds && (',' in d || ENUM in d);
    JoinEnds(ds, ',');
    var j := Join(ds, ',');
    assert Trim(j) == j;
    JoinKeeps(ds, ',', ENUM);
    JoinKeeps(ds, ',', ',');
    var c := if ENUM in j then ENUM else ',';
    var e :| e in ds && c in e;
    if SplitDomains(j) == ds {
      SplitLosesSeparator(j, c, e);
      assert false;
    }
  }

  /** A list separated by enumeration commas is read back too, ASCII commas inside it included. */
  lemma EnumRoundTrip(ds: seq<string>)
    requires CleanList(ds) == ds && |ds| > 1 && forall d :: d in ds ==> '、' !in d
    ensures ParseDomains(Str(Join(ds, '、'))) == ds
  {
    CleanMembers(ds);
    JoinEnds(ds, ENUM);
    var j := Join(ds, ENUM);
    assert Trim(j) == j;
    JoinKeeps(ds, ENUM, ENUM);
    SplitOfJoin(ds, ENUM);
    NonBlankClean(ds);
  }

  /** A clean list survives the write and the read back, in order, exactly when no domain contains
      either separator. */
  lemma RoundTripIff(ds: seq<string>)
    requires CleanList(ds) == ds
    ensures ParseDomains(Encode(Strs(ds))) == ds <==> SeparatorFree(ds)
  {
    CleanMembers(ds);
    NonBlankClean(ds);
    if SeparatorFree(ds) { CleanRoundTrip(ds); } else { DirtyRoundTrip(ds); }
  }

  /** A domain list parsed from any stored value is clean. */
  lemma ParsedIsClean(v: Value)
    ensures CleanList(ParseDomains(v)) == ParseDomains(v)
  {
    match v
    case Strs(ss) => CleanListIdempotent(ss);
    case Anys(vs) => CleanListIdempotent(NonBlank(CompareAll(vs)));
    case Nil =>
    case Str(s) => SplitIsClean(s);
    case _ => SplitIsClean(CompareStr(v));
  }

  lemma SplitIsClean(text: string)
    ensures CleanList(SplitDomains(text)) == SplitDomains(text)
  {
    var s := Trim(text);
    CleanListIdempotent(NonBlank(Split(s, ENUM)));
    CleanListIdempotent(NonBlank(Split(s, ',')));
    CleanListIdempotent([s]);
  }
}
