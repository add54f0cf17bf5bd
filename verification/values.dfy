/** The dynamically typed field values of a CMDB item: how they print, when they count as empty,
    and how they are encoded on the wire. */
module Values {
  import opened Text
  import opened Decimal

  /** A JSON-like value.  A floating point metric is carried as a number of hundredths. */
  datatype Value =
    | Nil
    | Str(s: string)
    | Int(n: int)
    | Dec(hundredths: int)
    | Strs(ss: seq<string>)
    | Anys(vs: seq<Value>)

  /** The values the cloud side writes outside multi-valued fields. */
  predicate Scalar(v: Value) {
    v.Str? || v.Int? || v.Dec?
  }

  /** Two decimals at most, without trailing zeros. */
  function Fraction(cents: nat): (s: string)
    requires cents < 100
    ensures s != "" ==> s[0] == '.' && !IsSpace(s[|s| - 1])
  {
    if cents == 0 then ""
    else if cents % 10 == 0 then ['.', Digit(cents / 10)]
    else ['.', Digit(cents / 10), Digit(cents % 10)]
  }

  function DecText(h: int): (s: string)
    ensures s != "" && !IsSpace(s[0])
  {
    var a := if h < 0 then -h else h;
    (if h < 0 then "-" else "") + Digits(a / 100) + Fraction(a % 100)
  }

  /** `fmt.Sprint`. */
  function Sprint(v: Value): string
    decreases v, 1
  {
    match v
    case Nil => "<nil>"
    case Str(s) => s
    case Int(n) => Itoa(n)
    case Dec(h) => DecText(h)
    case Strs(ss) => "[" + Join(ss, ' ') + "]"
    case Anys(vs) => "[" + Join(SprintAll(vs), ' ') + "]"
  }

  function SprintAll(vs: seq<Value>): (ss: seq<string>)
    ensures |ss| == |vs| && forall i :: 0 <= i < |vs| ==> ss[i] == Sprint(vs[i])
    decreases vs, 0
  {
    if vs == [] then [] else [Sprint(vs[0])] + SprintAll(vs[1..])
  }

  /** `anyToCompareStr`: the text under which two values are compared for change. */
  function CompareStr(v: Value): (s: string)
    ensures Trimmed(s)
  {
    if v.Nil? then "" else Trim(Sprint(v))
  }

  /** `isEmptyCloudSyncValue`. */
  predicate IsEmpty(v: Value)
    decreases v
  {
    match v
    case Nil => true
    case Str(s) => Trim(s) == ""
    case Strs(ss) => forall i :: 0 <= i < |ss| ==> Trim(ss[i]) == ""
    case Anys(vs) => forall i :: 0 <= i < |vs| ==> IsEmpty(vs[i])
    case _ => CompareStr(v) == ""
  }

  /** The trimmed non-blank strings, repetitions kept. */
  function NonBlank(ss: seq<string>): (out: seq<string>)
    ensures forall d :: d in out <==> d != "" && exists x :: x in ss && Trim(x) == d
    decreases |ss|
  {
    if ss == [] then []
    else
      var out := NonBlank(ss[..|ss| - 1]);
      var t := Trim(ss[|ss| - 1]);
      assert ss == ss[..|ss| - 1] + [ss[|ss| - 1]];
      if t == "" then out else out + [t]
  }

  /** `encodeCIFieldValue`: multi-valued fields travel as one comma-separated string. */
  function Encode(v: Value): (e: Value)
    ensures !e.Strs? && !e.Anys?
  {
    match v
    case Strs(ss) => Str(Join(NonBlank(ss), ','))
    case Anys(vs) => Str(Join(NonBlank(SprintAll(vs)), ','))
    case _ => v
  }

  /** The encoding loop, over the printed elements of either kind of list. */
  method EncodeList(texts: seq<string>) returns (e: Value)
    ensures e == Str(Join(NonBlank(texts), ','))
  {
    var parts: seq<string> := [];
    for i := 0 to |texts|
      invariant parts == NonBlank(texts[..i])
    {
      assert texts[..i + 1][..i] == texts[..i];
      var t := Trim(texts[i]);
      if t != "" {
        parts := parts + [t];
      }
    }
    assert texts[..|texts|] == texts;
    e := Str(Join(parts, ','));
  }

  lemma SprintInked(v: Value)
    requires !IsEmpty(v)
    ensures Inked(Sprint(v))
  {
    var s := Sprint(v);
    if !v.Str? {
      assert !IsSpace(s[0]);
    }
  }

  lemma JoinInked(texts: seq<string>, i: nat)
    requires i < |texts| && Inked(texts[i])
    ensures Inked(Join(NonBlank(texts), ','))
  {
    var d := Trim(texts[i]);
    assert texts[i] in texts;
    assert d in NonBlank(texts);
    JoinKeeps(NonBlank(texts), ',', d[0]);
    var j := Join(NonBlank(texts), ',');
    assert d[0] in j;
    var k :| 0 <= k < |j| && j[k] == d[0];
  }

  /** Encoding never blanks a value that held something. */
  lemma EncodeKeepsContent(v: Value)
    requires !IsEmpty(v)
    ensures !IsEmpty(Encode(v))
  {
    match v
    case Strs(ss) =>
      var i :| 0 <= i < |ss| && Trim(ss[i]) != "";
      JoinInked(ss, i);
    case Anys(vs) =>
      var i :| 0 <= i < |vs| && !IsEmpty(vs[i]);
      SprintInked(vs[i]);
      JoinInked(SprintAll(vs), i);
    case _ =>
  }

  /** Change detection does not see outer white space, and takes a missing column for a blank one. */
  lemma TextsTold(a: string, b: string)
    ensures CompareStr(Str(a)) == CompareStr(Str(b)) <==> Trim(a) == Trim(b)
    ensures CompareStr(Nil) == CompareStr(Str(a)) <==> !Inked(a)
  {}

  // ---------- numbers ----------

  /** Digits end where a fraction starts. */
  lemma DigitsThenFraction(x: string, y: string, u: string, v: string)
    requires AllDigits(x) && AllDigits(y) && (u != "" ==> u[0] == '.') && (v != "" ==> v[0] == '.')
    requires x + u == y + v
    ensures x == y && u == v
  {
    var s := x + u;
    assert forall i :: 0 <= i < |x| ==> s[i] == x[i];
    assert forall i :: 0 <= i < |y| ==> s[i] == y[i];
    assert |x| < |s| ==> s[|x|] == u[0];
    assert |y| < |s| ==> s[|y|] == v[0];
    assert x == s[..|x|] && u == s[|x|..];
  }

  lemma FractionTold(a: nat, b: nat)
    requires a < 100 && b < 100
    ensures Fraction(a) == Fraction(b) <==> a == b
  {}

  lemma DecTold(h: int, g: int)
    ensures DecText(h) == DecText(g) <==> h == g
  {
    hide Fraction, Digits, IsSpace;
    var a, b := if h < 0 then -h else h, if g < 0 then -g else g;
    if DecText(h) == DecText(g) {
      assert (h < 0 <==> DecText(h)[0] == '-') && (g < 0 <==> DecText(g)[0] == '-');
      var s, t := Digits(a / 100) + Fraction(a % 100), Digits(b / 100) + Fraction(b % 100);
      assert s == t by {
        if h < 0 {
          assert DecText(h)[1..] == s && DecText(g)[1..] == t;
        } else {
          assert DecText(h) == s && DecText(g) == t;
        }
      }
      DigitsThenFraction(Digits(a / 100), Digits(b / 100), Fraction(a % 100), Fraction(b % 100));
      FractionTold(a % 100, b % 100);
      NumberOfDigits(a / 100);
      NumberOfDigits(b / 100);
    }
  }

  lemma NumbersTrimmed(n: int)
    ensures Trimmed(Itoa(n)) && Trimmed(DecText(n))
  {
    var a := if n < 0 then -n else n;
    DigitsEndInDigit(a);
    DigitsEndInDigit(a / 100);
    var f, d := Fraction(a % 100), Digits(a / 100);
    var s := DecText(n);
    assert s[|s| - 1] == if f == "" then d[|d| - 1] else f[|f| - 1];
  }

  /** Change detection tells different numbers apart, of whole units or of hundredths, and no
      others. */
  lemma NumbersTold(m: int, n: int)
    ensures CompareStr(Int(m)) == CompareStr(Int(n)) <==> m == n
    ensures CompareStr(Dec(m)) == CompareStr(Dec(n)) <==> m == n
    ensures CompareStr(Dec(m)) == CompareStr(Int(n)) <==> m == 100 * n
    ensures CompareStr(Int(m)) != "" && CompareStr(Dec(m)) != ""
  {
    hide Itoa, DecText;
    NumbersTrimmed(m);
    NumbersTrimmed(n);
    ItoaTold(m, n);
    DecTold(m, n);
    DecTold(m, 100 * n);
    WholeText(n);
  }

  lemma WholeText(n: int)
    ensures DecText(100 * n) == Itoa(n)
  {
    hide Digits, Digit, IsSpace;
    var a := if n < 0 then -n else n;
    assert 100 * a / 100 == a && 100 * a % 100 == 0;
  }
}
