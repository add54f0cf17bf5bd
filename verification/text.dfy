/** The string helpers of Go's `strings` package that the synchroniser leans on,
    with the laws the other modules use.  Characters are code points. */
module Text {

  datatype Option<+T> = None | Some(value: T)

  /** White space as `strings.TrimSpace` sees it. */
  predicate IsSpace(c: char) {
    || c == ' ' || '\t' <= c <= '\r' || c == '\U{0085}' || c == '\U{00A0}' || c == '\U{1680}'
    || '\U{2000}' <= c <= '\U{200A}' || c == '\U{2028}' || c == '\U{2029}' || c == '\U{202F}'
    || c == '\U{205F}' || c == '\U{3000}'
  }

  predicate Trimmed(s: string) {
    s != "" ==> !IsSpace(s[0]) && !IsSpace(s[|s| - 1])
  }

  /** Some character of s is not white space. */
  predicate Inked(s: string) {
    exists i :: 0 <= i < |s| && !IsSpace(s[i])
  }

  function TrimLeft(s: string): string {
    if s != "" && IsSpace(s[0]) then TrimLeft(s[1..]) else s
  }

  function TrimRight(s: string): string {
    if s != "" && IsSpace(s[|s| - 1]) then TrimRight(s[..|s| - 1]) else s
  }

  lemma {:induction false} TrimLeftFacts(s: string)
    ensures var t := TrimLeft(s);
            && |t| <= |s| && t == s[|s| - |t|..] && (t != "" ==> !IsSpace(t[0]))
            && forall i :: 0 <= i < |s| - |t| ==> IsSpace(s[i])
  {
    if s != "" && IsSpace(s[0]) {
      var rest := s[1..];
      TrimLeftFacts(rest);
      var k := |s| - |TrimLeft(s)|;
      assert rest[k - 1..] == s[k..];
      assert forall i :: 0 < i < k ==> s[i] == rest[i - 1];
    }
  }

  lemma {:induction false} TrimRightFacts(s: string)
    ensures var t := TrimRight(s);
            && |t| <= |s| && t == s[..|t|] && (t != "" ==> !IsSpace(t[|t| - 1]))
            && forall i :: |t| <= i < |s| ==> IsSpace(s[i])
  {
    if s != "" && IsSpace(s[|s| - 1]) { TrimRightFacts(s[..|s| - 1]); }
  }

  lemma TrimFacts(s: string)
    ensures var t := TrimRight(TrimLeft(s));
            Trimmed(t) && (Trimmed(s) ==> t == s) && (t != "" <==> Inked(s)) && |t| <= |s|
  {
    TrimLeftFacts(s);
    var l := TrimLeft(s);
    TrimRightFacts(l);
    var t := TrimRight(l);
    assert t != "" ==> t[0] == l[0] && s[|s| - |l|] == l[0];
    assert l != "" ==> t != "";
  }

  /** `strings.TrimSpace`: the result has no outer white space, is the argument when there was
      none to remove, and is empty exactly on blank strings. */
  function Trim(s: string): (t: string)
    ensures Trimmed(t)
    ensures Trimmed(s) ==> t == s
    ensures t != "" <==> Inked(s)
    ensures |t| <= |s|
  {
    TrimFacts(s);
    TrimRight(TrimLeft(s))
  }

  /** Trimming cuts off white space at both ends, and nothing else. */
  lemma TrimCuts(s: string) returns (i: nat, j: nat)
    ensures i <= j <= |s| && Trim(s) == s[i..j]
    ensures forall k :: 0 <= k < i || j <= k < |s| ==> IsSpace(s[k])
  {
    var l := TrimLeft(s);
    TrimLeftFacts(s);
    TrimRightFacts(l);
    i := |s| - |l|;
    j := i + |TrimRight(l)|;
    assert forall k :: j <= k < |s| ==> s[k] == l[k - i];
  }

  /** `strings.ToLower` on ASCII letters; other characters are left alone. */
  function LowerChar(c: char): char {
    if 'A' <= c <= 'Z' then c + 32 as char else c
  }

  function Lower(s: string): (t: string)
    ensures |t| == |s| && forall i :: 0 <= i < |s| ==> t[i] == LowerChar(s[i])
  {
    seq(|s|, i requires 0 <= i < |s| => LowerChar(s[i]))
  }

  predicate HasPrefix(s: string, p: string) {
    |p| <= |s| && s[..|p|] == p
  }

  lemma NotBefore(s: string, c: char, i: nat)
    requires i <= |s| && c !in s[..i]
    ensures forall k :: 0 <= k < i ==> s[k] != c
  {
    forall k | 0 <= k < i ensures s[k] != c { assert s[..i][k] == s[k]; }
  }

  lemma NotAfter(s: string, c: char, i: nat)
    requires i <= |s| && c !in s[i..]
    ensures forall k :: i <= k < |s| ==> s[k] != c
  {
    forall k | i <= k < |s| ensures s[k] != c { assert s[i..][k - i] == s[k]; }
  }

  /** `strings.Split` on a one-character separator; never empty. */
  function Split(s: string, c: char): (parts: seq<string>)
    ensures |parts| >= 1
    ensures forall p :: p in parts ==> c !in p
    ensures |parts| == 1 <==> c !in s
  {
    if s == "" then [""]
    else
      var rest := Split(s[1..], c);
      if s[0] == c then [""] + rest else [[s[0]] + rest[0]] + rest[1..]
  }

  /** `strings.Join` with a one-character separator. */
  function Join(parts: seq<string>, c: char): string {
    if parts == [] then ""
    else if |parts| == 1 then parts[0]
    else parts[0] + [c] + Join(parts[1..], c)
  }

  lemma {:induction false} SplitPrefix(p: string, rest: string, c: char)
    requires c !in p
    ensures Split(p + [c] + rest, c) == [p] + Split(rest, c)
  {
    var s := p + [c] + rest;
    if p == "" {
      assert s[1..] == rest;
    } else {
      assert s[1..] == p[1..] + [c] + rest;
      SplitPrefix(p[1..], rest, c);
      assert [p[0]] + p[1..] == p;
    }
  }

  lemma {:induction false} SplitWhole(p: string, c: char)
    requires c !in p
    ensures Split(p, c) == [p]
  {
    if p != "" {
      SplitWhole(p[1..], c);
      assert [p[0]] + p[1..] == p;
    }
  }

  /** Splitting undoes joining when no part holds the separator. */
  lemma {:induction false} SplitOfJoin(parts: seq<string>, c: char)
    requires parts != [] && forall p :: p in parts ==> c !in p
    ensures Split(Join(parts, c), c) == parts
  {
    if |parts| == 1 {
      SplitWhole(parts[0], c);
    } else {
      SplitPrefix(parts[0], Join(parts[1..], c), c);
      SplitOfJoin(parts[1..], c);
    }
  }

  lemma JoinCons(p: string, rest: seq<string>, c: char)
    requires rest != []
    ensures Join([p] + rest, c) == p + [c] + Join(rest, c)
  {
    assert ([p] + rest)[1..] == rest;
  }

  lemma JoinGrows(x: char, parts: seq<string>, c: char)
    requires parts != []
    ensures Join([[x] + parts[0]] + parts[1..], c) == [x] + Join(parts, c)
  {
    if |parts| > 1 {
      JoinCons([x] + parts[0], parts[1..], c);
      JoinCons(parts[0], parts[1..], c);
      assert [parts[0]] + parts[1..] == parts;
    }
  }

  lemma SplitStep(s: string, c: char)
    ensures s == "" ==> Join(Split(s, c), c) == s
    ensures s != "" ==>
              var rest := Split(s[1..], c);
              Split(s, c) == if s[0] == c then [""] + rest else [[s[0]] + rest[0]] + rest[1..]
  {}

  /** Joining undoes splitting, always. */
  lemma {:induction false} JoinOfSplit(s: string, c: char)
    ensures Join(Split(s, c), c) == s
  {
    SplitStep(s, c);
    hide Split, Join;
    if s != "" {
      var rest := Split(s[1..], c);
      JoinOfSplit(s[1..], c);
      if s[0] == c {
        JoinCons("", rest, c);
        assert s == [c] + s[1..];
      } else {
        JoinGrows(s[0], rest, c);
        assert s == [s[0]] + s[1..];
      }
    }
  }

  lemma {:induction false} JoinKeeps(parts: seq<string>, c: char, x: char)
    ensures x in Join(parts, c) <==> (x == c && |parts| > 1) || exists p :: p in parts && x in p
  {
    if |parts| > 1 {
      JoinKeeps(parts[1..], c, x);
      assert parts == [parts[0]] + parts[1..];
    }
  }

  /** The trimmed, non-blank strings of xs, each once, in order of first appearance. */
  function CleanList(xs: seq<string>): (out: seq<string>)
    ensures forall d :: d in out <==> d != "" && exists x :: x in xs && Trim(x) == d
    ensures NoDup(out)
    decreases |xs|
  {
    if xs == [] then []
    else
      var out := CleanList(xs[..|xs| - 1]);
      var t := Trim(xs[|xs| - 1]);
      assert xs == xs[..|xs| - 1] + [xs[|xs| - 1]];
      if t == "" || t in out then out else out + [t]
  }

  predicate NoDup<T(==)>(s: seq<T>) {
    forall i, j :: 0 <= i < j < |s| ==> s[i] != s[j]
  }

  lemma NonEmptyHas<T>(s: seq<T>)
    ensures s != [] ==> exists x :: x in s
  {
    if s != [] { assert s[0] in s; }
  }

  /** A list that is already clean is left alone, order included. */
  lemma {:induction false} CleanListFixed(xs: seq<string>)
    requires NoDup(xs) && forall x :: x in xs ==> x != "" && Trimmed(x)
    ensures CleanList(xs) == xs
  {
    hide Trim, Trimmed, Inked;
    if xs != [] {
      var init := xs[..|xs| - 1];
      assert xs == init + [xs[|xs| - 1]];
      assert forall x :: x in init ==> x in xs;
      CleanListFixed(init);
    }
  }

  /** Each string stands where it first appears: what follows in a list only adds to its clean form. */
  lemma {:induction false} CleanListGrows(xs: seq<string>, more: seq<string>)
    ensures CleanList(xs) <= CleanList(xs + more)
    decreases |more|
  {
    if more == [] {
      assert xs + more == xs;
    } else {
      CleanListGrows(xs, more[..|more| - 1]);
      assert (xs + more)[..|xs + more| - 1] == xs + more[..|more| - 1];
    }
  }

  lemma CleanListIdempotent(xs: seq<string>)
    ensures CleanList(CleanList(xs)) == CleanList(xs)
  {
    CleanListFixed(CleanList(xs));
  }
}
