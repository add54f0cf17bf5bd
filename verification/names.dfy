/** System node names: "cloud-region" or "cloud-region-meaning", and their parsing. */
module Names {
  import opened Text

  datatype Provider = Ali | Tencent | Huawei | Aws | Other

  /** `cloudTypeLabel`. */
  function Label(p: Provider): string {
    match p
    case Ali => "阿里云"
    case Tencent => "腾讯云"
    case Huawei => "华为云"
    case Aws => "AWS"
    case Other => "云"
  }

  function Base(p: Provider, region: string): string {
    var r := Trim(region);
    if r != "" then Label(p) + "-" + r else Label(p)
  }

  /** `effectiveSysNodeName`, and the identical `SysNodeKey` of the snapshot and WAF packages. */
  function Effective(p: Provider, region: string, tag: string): string {
    var base := Base(p, region);
    var s := Trim(tag);
    if s != "" && HasPrefix(s, base) then s
    else if s != "" then base + "-" + s
    else base
  }

  /** `envtags.FormatNodeTagDisplay`. */
  function Format(cloud: string, region: string, meaning: string): string {
    var c, r, m := Trim(cloud), Trim(region), Trim(meaning);
    var base := if c != "" && r != "" then c + "-" + r else if r != "" then r else c;
    if m == "" then base else if base == "" then m else base + "-" + m
  }

  /** Index of the first '-', or the length. */
  function Dash(s: string): (i: nat)
    ensures i <= |s| && '-' !in s[..i] && (i < |s| ==> s[i] == '-')
  {
    if s == "" || s[0] == '-' then 0
    else
      var i := Dash(s[1..]);
      assert s[..i + 1] == [s[0]] + s[1..][..i];
      i + 1
  }

  predicate KnownLabel(s: string) {
    s == "华为云" || s == "阿里云" || s == "腾讯云" || s == "AWS" || s == "云"
  }

  /** `splitSysNodeNameForCMDB`: cloud and location of a node name. */
  function SplitNode(node: string, hint: string): (string, string) {
    var n := Trim(node);
    var d := Dash(n);
    if n == "" then ("", "")
    else if d == |n| then (n, "")
    else if KnownLabel(n[..d]) then
      var rem := Trim(n[d + 1..]);
      var h := Trim(hint);
      if h != "" && (rem == h || HasPrefix(rem, h + "-")) then (n[..d], h) else (n[..d], rem)
    else (n, "")
  }

  /** `cmdbCloudLocationFromSysNodeName`. */
  function CloudLocation(node: string, cloud: string, region: string): (string, string) {
    var (ct, loc) := SplitNode(node, Trim(region));
    if loc != "" then (ct, loc) else if ct != "" then (ct, "") else (cloud, region)
  }

  lemma LabelFacts(p: Provider)
    ensures KnownLabel(Label(p)) && Trimmed(Label(p)) && Label(p) != "" && '-' !in Label(p)
  {}

  /** Gluing trimmed non-empty pieces around a dash gives a trimmed string. */
  lemma GlueTrimmed(a: string, b: string)
    requires a != "" && b != "" && Trimmed(a) && Trimmed(b)
    ensures Trimmed(a + "-" + b) && a + "-" + b != ""
  {
    var s := a + "-" + b;
    assert s[0] == a[0] && s[|s| - 1] == b[|b| - 1];
  }

  lemma BaseFacts(p: Provider, region: string)
    ensures Base(p, region) != "" && Trimmed(Base(p, region)) && Inked(Base(p, region))
  {
    LabelFacts(p);
    if Trim(region) != "" { GlueTrimmed(Label(p), Trim(region)); }
    assert !IsSpace(Base(p, region)[0]);
  }

  /** A node name is trimmed, never blank, and starts with its cloud and region. */
  lemma EffectiveFacts(p: Provider, region: string, tag: string)
    ensures var e := Effective(p, region, tag); Trimmed(e) && Inked(e) && HasPrefix(e, Base(p, region))
  {
    BaseFacts(p, region);
    var e := Effective(p, region, tag);
    if Trim(tag) != "" { GlueTrimmed(Base(p, region), Trim(tag)); }
    assert !IsSpace(e[0]);
  }

  /** Whatever the tag adds, the name ends in it. */
  lemma TagKept(p: Provider, region: string, tag: string)
    ensures var e, s := Effective(p, region, tag), Trim(tag); |s| <= |e| && e[|e| - |s|..] == s
  {}

  /** Nodes of one place are told apart by their tags, unless a tag already names the place. */
  lemma TagsTold(p: Provider, region: string, tag: string, other: string)
    requires !HasPrefix(Trim(tag), Base(p, region)) && !HasPrefix(Trim(other), Base(p, region))
    ensures Effective(p, region, tag) == Effective(p, region, other) <==> Trim(tag) == Trim(other)
  {
    BaseFacts(p, region);
    TagKept(p, region, tag);
    TagKept(p, region, other);
    assert Trim(tag) != "" ==> |Effective(p, region, tag)| == |Base(p, region)| + 1 + |Trim(tag)|;
    assert Trim(other) != "" ==> |Effective(p, region, other)| == |Base(p, region)| + 1 + |Trim(other)|;
  }

  /** Naming is idempotent: a finished node name used as tag is kept. */
  lemma EffectiveIdempotent(p: Provider, region: string, tag: string)
    ensures Effective(p, region, Effective(p, region, tag)) == Effective(p, region, tag)
  {
    EffectiveFacts(p, region, tag);
  }

  /** The list view's display string is already the node name. */
  lemma FormatIsEffective(p: Provider, region: string, meaning: string)
    ensures Effective(p, region, Format(Label(p), region, meaning)) == Format(Label(p), region, meaning)
  {
    LabelFacts(p);
    BaseFacts(p, region);
    var f := Format(Label(p), region, meaning);
    if Trim(meaning) != "" { GlueTrimmed(Base(p, region), Trim(meaning)); }
    assert HasPrefix(f, Base(p, region));
  }

  lemma DashOfGlue(a: string, b: string)
    requires '-' !in a
    ensures Dash(a + "-" + b) == |a|
  {
    var s := a + "-" + b;
    assert s[..|a|] == a && s[|a|] == '-';
    NotBefore(s, '-', |a|);
    NotBefore(s, '-', Dash(s));
  }

  /** What follows a dash is trimmed when the whole is, up to leading white space. */
  lemma SplitOfGlue(p: Provider, rem: string, hint: string)
    requires rem != "" && Trimmed(rem)
    ensures SplitNode(Label(p) + "-" + rem, hint) ==
            (var h := Trim(hint);
             if h != "" && (rem == h || HasPrefix(rem, h + "-")) then (Label(p), h) else (Label(p), rem))
  {
    LabelFacts(p);
    GlueTrimmed(Label(p), rem);
    DashOfGlue(Label(p), rem);
    var n := Label(p) + "-" + rem;
    assert n[..|Label(p)|] == Label(p) && n[|Label(p)| + 1..] == rem;
  }

  /** The tag goes on from cloud and region with something other than a dash. */
  predicate RunsOn(p: Provider, region: string, tag: string) {
    var s, base := Trim(tag), Base(p, region);
    HasPrefix(s, base) && |s| > |base| && s[|base|] != '-'
  }

  lemma GoesOnWithDash(r: string, tail: string)
    ensures HasPrefix(r + tail, r + "-") <==> tail != "" && tail[0] == '-'
    ensures r + tail == r <==> tail == ""
  {
    var rem, stop := r + tail, r + "-";
    assert stop[|r|] == '-';
    if tail != "" {
      assert rem[|r|] == tail[0] && rem[..|r| + 1] == r + [tail[0]];
      assert rem[..|r| + 1][|r|] == tail[0];
    } else {
      assert rem == r;
    }
  }

  /** A remainder that starts with the hinted region yields the region exactly when it ends there
      or goes on with a dash. */
  lemma SplitOfRegion(p: Provider, r: string, tail: string)
    requires r != "" && Trimmed(r) && Trimmed(r + tail)
    ensures SplitNode(Label(p) + "-" + (r + tail), r) == (Label(p), r) <==> tail == "" || tail[0] == '-'
  {
    SplitOfGlue(p, r + tail, r);
    GoesOnWithDash(r, tail);
  }

  lemma SplitNamesCloud(node: string, hint: string)
    requires Inked(node)
    ensures SplitNode(node, hint).0 != ""
  {}

  lemma SameHint(node: string, hint: string)
    ensures SplitNode(node, hint) == SplitNode(node, Trim(hint))
  {}

  lemma EffectiveTail(p: Provider, region: string, tag: string) returns (tail: string)
    ensures Effective(p, region, tag) == Base(p, region) + tail
    ensures RunsOn(p, region, tag) <==> tail != "" && tail[0] != '-'
  {
    EffectiveFacts(p, region, tag);
    var e, base := Effective(p, region, tag), Base(p, region);
    tail := e[|base|..];
    assert e == base + tail;
    if Trim(tag) != "" && !HasPrefix(Trim(tag), base) {
      assert tail == "-" + Trim(tag);
    } else {
      assert tail != "" ==> e[|base|] == tail[0];
    }
  }

  /** Parsing a node name with its region as hint returns the cloud label and the region, exactly
      unless the tag runs on from them. */
  lemma SplitOfEffective(p: Provider, region: string, tag: string)
    requires Trim(region) != ""
    ensures SplitNode(Effective(p, region, tag), region) == (Label(p), Trim(region)) <==> !RunsOn(p, region, tag)
  {
    var r := Trim(region);
    var tail := EffectiveTail(p, region, tag);
    EffectiveFacts(p, region, tag);
    var e := Effective(p, region, tag);
    assert e == Label(p) + "-" + (r + tail);
    assert (r + tail)[0] == r[0] && (r + tail)[|r + tail| - 1] == e[|e| - 1];
    SplitOfRegion(p, r, tail);
    SameHint(e, region);
  }

  /** Without a region the tag is shown in its place. */
  lemma SplitWithoutRegion(p: Provider, region: string, tag: string)
    requires Trim(region) == "" && !HasPrefix(Trim(tag), Label(p))
    ensures SplitNode(Effective(p, region, tag), region) == (Label(p), Trim(tag))
  {
    LabelFacts(p);
    if Trim(tag) == "" {
      NotBefore(Label(p), '-', |Label(p)|);
    } else {
      SplitOfGlue(p, Trim(tag), region);
    }
  }

  /** What stands before the first dash of a node name is its cloud, exactly unless the region is
      blank and the tag runs on from the cloud. */
  lemma CloudLeads(p: Provider, region: string, tag: string)
    ensures var e := Effective(p, region, tag);
            e[..Dash(e)] == Label(p) <==> Trim(region) != "" || !RunsOn(p, region, tag)
  {
    hide Effective, RunsOn, Trim, HasPrefix;
    LabelFacts(p);
    var e, r := Effective(p, region, tag), Trim(region);
    var tail := EffectiveTail(p, region, tag);
    if r != "" {
      assert e == Label(p) + "-" + (r + tail);
      DashOfGlue(Label(p), r + tail);
    } else if tail == "" {
      NotBefore(e, '-', |e|);
    } else if tail[0] == '-' {
      assert e == Label(p) + "-" + tail[1..];
      DashOfGlue(Label(p), tail[1..]);
    } else {
      assert e[|Label(p)|] != '-';
    }
  }

  /** So nodes of different named clouds have different names. */
  lemma CloudsTold(p: Provider, region: string, tag: string, q: Provider, area: string, mark: string)
    requires Trim(region) != "" || !RunsOn(p, region, tag)
    requires Trim(area) != "" || !RunsOn(q, area, mark)
    ensures Effective(p, region, tag) == Effective(q, area, mark) ==> p == q
  {
    CloudLeads(p, region, tag);
    CloudLeads(q, area, mark);
    LabelsTold(p, q);
  }

  lemma LabelsTold(p: Provider, q: Provider)
    ensures Label(p) == Label(q) <==> p == q
  {
    assert |Label(Ali)| == |Label(Tencent)| == |Label(Huawei)| == |Label(Aws)| == 3 && |Label(Other)| == 1;
    assert Label(Ali)[0] == '阿' && Label(Tencent)[0] == '腾' && Label(Huawei)[0] == '华' && Label(Aws)[0] == 'A';
  }
}
