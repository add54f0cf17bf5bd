/** Aggregation of bill lines by category, and rounding to cents.  Money is exact. */
module Billing {
  import opened Text

  // ---------- rounding ----------

  /** Go's conversion to an integer drops the fraction. */
  function Trunc(y: real): int {
    if y >= 0.0 then y.Floor else -((-y).Floor)
  }

  function Cents(x: real): int { Trunc(x * 100.0 + 0.5) }

  /** `RoundMoney2`. */
  function Round2(x: real): real { Cents(x) as real / 100.0 }

  /** Amounts that are not negative are rounded to the nearest cent, others are raised by less than
      one and a half cents. */
  lemma RoundBound(x: real)
    ensures x >= 0.0 ==> -0.005 <= x - Round2(x) <= 0.005 && Round2(x) >= 0.0
    ensures x < 0.0 ==> 0.0 < Round2(x) - x < 0.015
  {
    var y := x * 100.0 + 0.5;
    var c := Cents(x);
    assert y >= 0.0 ==> c as real <= y < c as real + 1.0;
    assert y < 0.0 ==> c as real - 1.0 < y <= c as real;
    assert Round2(x) * 100.0 == c as real;
  }

  /** Rounding an amount twice is rounding it once, except for those below minus one and a half
      cents, which each rounding raises by another cent. */
  lemma RoundTwice(x: real)
    ensures Round2(Round2(x)) == Round2(x) <==> x > -0.015
    ensures x <= -0.015 ==> Round2(Round2(x)) == Round2(x) + 0.01
  {
    var c := Cents(x);
    assert Round2(x) * 100.0 + 0.5 == c as real + 0.5;
    if c >= 0 {
      assert (c as real + 0.5).Floor == c;
    } else {
      assert (-(c as real + 0.5)).Floor == -c - 1;
    }
    var y := x * 100.0 + 0.5;
    assert y < 0.0 ==> c as real - 1.0 < y <= c as real;
    assert c >= 0 <==> y > -1.0;
  }

  // ---------- aggregation ----------

  datatype Line = Line(code: string, kind: string, fee: real)

  datatype CatRow = CatRow(category: string, amount: real, count: nat)

  type Category = Line -> string

  function Total(lines: seq<Option<Line>>): real
    decreases |lines|
  {
    if lines == [] then 0.0 else Total(lines[..|lines| - 1]) + FeeOf(lines[|lines| - 1])
  }

  function FeeOf(l: Option<Line>): real { if l.Some? then l.value.fee else 0.0 }

  function Present(lines: seq<Option<Line>>): nat
    decreases |lines|
  {
    if lines == [] then 0 else Present(lines[..|lines| - 1]) + if lines[|lines| - 1].Some? then 1 else 0
  }

  predicate In(cat: Category, c: string, l: Option<Line>) { l.Some? && cat(l.value) == c }

  function Sum(cat: Category, lines: seq<Option<Line>>, c: string): real
    decreases |lines|
  {
    if lines == [] then 0.0
    else
      var last := lines[|lines| - 1];
      Sum(cat, lines[..|lines| - 1], c) + if In(cat, c, last) then last.value.fee else 0.0
  }

  function Count(cat: Category, lines: seq<Option<Line>>, c: string): nat
    decreases |lines|
  {
    if lines == [] then 0
    else Count(cat, lines[..|lines| - 1], c) + if In(cat, c, lines[|lines| - 1]) then 1 else 0
  }

  const ORDER := [
    "ECS", "RDS", "DCS", "DMS", "CCE", "MongoDB", "EIP/网络", "负载均衡", "对象存储", "VPC",
    "云硬盘", "云防火墙", "主机安全", "NAT网关", "日志服务", "云监控", "云商店", "其他"]

  /** The categories of a display order that have a line, in that order. */
  function Displayed(cat: Category, lines: seq<Option<Line>>, order: seq<string>): seq<string>
    decreases |order|
  {
    if order == [] then []
    else
      var shown, last := Displayed(cat, lines, order[..|order| - 1]), order[|order| - 1];
      if Count(cat, lines, last) > 0 then shown + [last] else shown
  }

  function Categories(rows: seq<CatRow>): (cs: seq<string>)
    ensures |cs| == |rows| && forall i :: 0 <= i < |rows| ==> cs[i] == rows[i].category
  {
    seq(|rows|, i requires 0 <= i < |rows| => rows[i].category)
  }

  predicate RowFor(cat: Category, lines: seq<Option<Line>>, r: CatRow) {
    r.count == Count(cat, lines, r.category) && r.count > 0 && r.amount == Round2(Sum(cat, lines, r.category))
  }

  /** The running sums of the first loop. */
  ghost predicate Tallied(cat: Category, lines: seq<Option<Line>>, m: map<string, (real, nat)>) {
    forall c ::
      && (c in m <==> Count(cat, lines, c) > 0)
      && (c in m ==> m[c] == (Sum(cat, lines, c), Count(cat, lines, c)))
  }

  method Tally(cat: Category, lines: seq<Option<Line>>) returns (m: map<string, (real, nat)>, grand: real)
    ensures Tallied(cat, lines, m) && grand == Total(lines)
  {
    m, grand := map[], 0.0;
    for i := 0 to |lines|
      invariant Tallied(cat, lines[..i], m) && grand == Total(lines[..i])
    {
      TallyStep(cat, lines, i, m);
      assert lines[..i + 1][..i] == lines[..i];
      if lines[i].None? { continue; }
      var c := cat(lines[i].value);
      var a := if c in m then m[c] else (0.0, 0);
      m := m[c := (a.0 + lines[i].value.fee, a.1 + 1)];
      grand := grand + lines[i].value.fee;
    }
    assert lines[..|lines|] == lines;
  }

  lemma {:induction false} NoneCounted(cat: Category, lines: seq<Option<Line>>, c: string)
    ensures Count(cat, lines, c) == 0 ==> Sum(cat, lines, c) == 0.0
    decreases |lines|
  {
    if lines != [] { NoneCounted(cat, lines[..|lines| - 1], c); }
  }

  lemma TallyStep(cat: Category, lines: seq<Option<Line>>, i: nat, m: map<string, (real, nat)>)
    requires i < |lines| && Tallied(cat, lines[..i], m)
    ensures lines[i].None? ==> Tallied(cat, lines[..i + 1], m)
    ensures lines[i].Some? ==>
              var c := cat(lines[i].value); var a := if c in m then m[c] else (0.0, 0);
              Tallied(cat, lines[..i + 1], m[c := (a.0 + lines[i].value.fee, a.1 + 1)])
  {
    assert lines[..i + 1][..i] == lines[..i];
    if lines[i].Some? { NoneCounted(cat, lines[..i], cat(lines[i].value)); }
  }

  /** The loop over the display order. */
  method DisplayRows(cat: Category, lines: seq<Option<Line>>, m: map<string, (real, nat)>, order: seq<string>)
    returns (rows: seq<CatRow>)
    requires Tallied(cat, lines, m)
    ensures forall r :: r in rows ==> RowFor(cat, lines, r)
    ensures Categories(rows) == Displayed(cat, lines, order)
  {
    rows := [];
    for i := 0 to |order|
      invariant forall r :: r in rows ==> RowFor(cat, lines, r)
      invariant Categories(rows) == Displayed(cat, lines, order[..i])
    {
      assert order[..i + 1][..i] == order[..i];
      if order[i] in m {
        ghost var before := rows;
        rows := rows + [CatRow(order[i], Round2(m[order[i]].0), m[order[i]].1)];
        assert Categories(rows) == Categories(before) + [order[i]];
      }
    }
    assert order[..|order|] == order;
  }

  /** `AggregateBillInstances`: the display order first, other categories after it in any order. */
  method Aggregate(cat: Category, lines: seq<Option<Line>>) returns (rows: seq<CatRow>, grand: real)
    ensures grand == Round2(Total(lines))
    ensures forall r :: r in rows ==> RowFor(cat, lines, r)
    ensures NoDup(Categories(rows)) && Displayed(cat, lines, ORDER) <= Categories(rows)
    ensures forall c :: c in Categories(rows) <==> Count(cat, lines, c) > 0
    ensures SumOver(cat, lines, Categories(rows)) == Total(lines)
    ensures CountOver(cat, lines, Categories(rows)) == Present(lines)
  {
    hide Count, Sum, Total, Present, SumOver, CountOver, Displayed;
    var m, raw := Tally(cat, lines);
    grand := Round2(raw);
    rows := DisplayRows(cat, lines, m, ORDER);
    ghost var shown := rows;
    OrderDistinct();
    DisplayedMembers(cat, lines, ORDER);
    var rest := set c | c in m && c !in ORDER;
    while rest != {}
      invariant forall c :: c in rest ==> c in m && c !in ORDER
      invariant forall r :: r in rows ==> RowFor(cat, lines, r)
      invariant NoDup(Categories(rows)) && Categories(shown) <= Categories(rows)
      invariant forall c :: c in Categories(rows) <==> c in m && c !in rest
    {
      var c :| c in rest;
      ghost var before := Categories(rows);
      rows := rows + [CatRow(c, Round2(m[c].0), m[c].1)];
      assert Categories(rows) == before + [c];
      rest := rest - {c};
    }
    Conservation(cat, lines, Categories(rows));
  }

  lemma OrderDistinct()
    ensures NoDup(ORDER)
  {
    var shape := (c: string) => (|c|, if c == "" then ' ' else c[0], if c == "" then ' ' else c[|c| - 1]);
    forall i, j | 0 <= i < j < |ORDER| ensures ORDER[i] != ORDER[j] {
      assert shape(ORDER[i]) != shape(ORDER[j]) || ORDER[i][1] != ORDER[j][1];
    }
  }

  lemma {:induction false} DisplayedMembers(cat: Category, lines: seq<Option<Line>>, order: seq<string>)
    requires NoDup(order)
    ensures NoDup(Displayed(cat, lines, order))
    ensures forall c :: c in Displayed(cat, lines, order) <==> c in order && Count(cat, lines, c) > 0
    decreases |order|
  {
    if order != [] {
      var init, last := order[..|order| - 1], order[|order| - 1];
      assert order == init + [last];
      DisplayedMembers(cat, lines, init);
    }
  }

  /** The categories shown first keep the display order. */
  lemma {:induction false} DisplayedInOrder(cat: Category, lines: seq<Option<Line>>, order: seq<string>, a: nat, b: nat)
    returns (p: nat, q: nat)
    requires a < b < |order| && Count(cat, lines, order[a]) > 0 && Count(cat, lines, order[b]) > 0
    ensures var shown := Displayed(cat, lines, order);
            p < q < |shown| && shown[p] == order[a] && shown[q] == order[b]
    decreases |order|
  {
    var init := order[..|order| - 1];
    if b < |init| {
      p, q := DisplayedInOrder(cat, lines, init, a, b);
    } else {
      p := DisplayedAt(cat, lines, init, a);
      q := |Displayed(cat, lines, init)|;
    }
  }

  lemma {:induction false} DisplayedAt(cat: Category, lines: seq<Option<Line>>, order: seq<string>, a: nat)
    returns (p: nat)
    requires a < |order| && Count(cat, lines, order[a]) > 0
    ensures p < |Displayed(cat, lines, order)| && Displayed(cat, lines, order)[p] == order[a]
    decreases |order|
  {
    var init := order[..|order| - 1];
    if a < |init| { p := DisplayedAt(cat, lines, init, a); } else { p := |Displayed(cat, lines, init)|; }
  }

  // ---------- conservation ----------

  /** Sums and counts add up over parts of the bill; a line counts once, with its fee, in its own
      category, and a nil line not at all. */
  lemma {:induction false} PartsAddUp(cat: Category, a: seq<Option<Line>>, b: seq<Option<Line>>, c: string)
    ensures Sum(cat, a + b, c) == Sum(cat, a, c) + Sum(cat, b, c)
    ensures Count(cat, a + b, c) == Count(cat, a, c) + Count(cat, b, c)
    ensures forall l: Line :: Sum(cat, [Some(l)], c) == (if cat(l) == c then l.fee else 0.0)
    ensures forall l: Line :: Count(cat, [Some(l)], c) == (if cat(l) == c then 1 else 0)
    ensures Sum(cat, [None], c) == 0.0 && Count(cat, [None], c) == 0
    decreases |b|
  {
    if b == [] {
      assert a + b == a;
    } else {
      PartsAddUp(cat, a, b[..|b| - 1], c);
      assert (a + b)[..|a + b| - 1] == a + b[..|b| - 1];
    }
    forall l: Option<Line>
      ensures Sum(cat, [l], c) == (if In(cat, c, l) then l.value.fee else 0.0)
      ensures Count(cat, [l], c) == (if In(cat, c, l) then 1 else 0)
    {
      assert [l][..0] == [];
    }
  }

  function SumOver(cat: Category, lines: seq<Option<Line>>, cs: seq<string>): real {
    if cs == [] then 0.0 else Sum(cat, lines, cs[0]) + SumOver(cat, lines, cs[1..])
  }

  function CountOver(cat: Category, lines: seq<Option<Line>>, cs: seq<string>): nat {
    if cs == [] then 0 else Count(cat, lines, cs[0]) + CountOver(cat, lines, cs[1..])
  }

  lemma {:induction false} OverSnoc(cat: Category, lines: seq<Option<Line>>, l: Option<Line>, cs: seq<string>)
    requires NoDup(cs)
    ensures var hit := l.Some? && cat(l.value) in cs;
            && SumOver(cat, lines + [l], cs) == SumOver(cat, lines, cs) + (if hit then l.value.fee else 0.0)
            && CountOver(cat, lines + [l], cs) == CountOver(cat, lines, cs) + (if hit then 1 else 0)
  {
    if cs != [] {
      assert (lines + [l])[..|lines|] == lines;
      var rest := cs[1..];
      assert cs == [cs[0]] + rest;
      OverSnoc(cat, lines, l, rest);
    }
  }

  lemma {:induction false} OverNothing(cat: Category, cs: seq<string>)
    ensures SumOver(cat, [], cs) == 0.0 && CountOver(cat, [], cs) == 0
  {
    if cs != [] { OverNothing(cat, cs[1..]); }
  }

  /** Nothing is lost or counted twice: over distinct categories that cover the lines, the sums add
      up to the raw total and the counts to the number of lines present. */
  lemma {:induction false} Conservation(cat: Category, lines: seq<Option<Line>>, cs: seq<string>)
    requires NoDup(cs) && forall c :: Count(cat, lines, c) > 0 ==> c in cs
    ensures SumOver(cat, lines, cs) == Total(lines) && CountOver(cat, lines, cs) == Present(lines)
    decreases |lines|
  {
    if lines == [] {
      OverNothing(cat, cs);
    } else {
      var init, l := lines[..|lines| - 1], lines[|lines| - 1];
      assert lines == init + [l];
      assert forall c :: Count(cat, init, c) > 0 ==> Count(cat, lines, c) > 0;
      Conservation(cat, init, cs);
      OverSnoc(cat, init, l, cs);
      if l.Some? { assert Count(cat, lines, cat(l.value)) > 0; }
    }
  }

  function RoundedOver(cat: Category, lines: seq<Option<Line>>, cs: seq<string>): real {
    if cs == [] then 0.0 else Round2(Sum(cat, lines, cs[0])) + RoundedOver(cat, lines, cs[1..])
  }

  lemma {:induction false} RoundedOverBound(cat: Category, lines: seq<Option<Line>>, cs: seq<string>)
    requires forall c :: c in cs ==> Sum(cat, lines, c) >= 0.0
    ensures var d := RoundedOver(cat, lines, cs) - SumOver(cat, lines, cs); var k := |cs| as real * 0.005;
            -k <= d <= k && SumOver(cat, lines, cs) >= 0.0
  {
    if cs != [] {
      assert cs[0] in cs;
      RoundBound(Sum(cat, lines, cs[0]));
      RoundedOverBound(cat, lines, cs[1..]);
    }
  }

  /** With k categories of non-negative sums the rounded grand total is within (k + 1) / 2 cents of
      the sum of the rounded rows. */
  lemma RoundingDrift(cat: Category, lines: seq<Option<Line>>, cs: seq<string>)
    requires NoDup(cs) && (forall c :: Count(cat, lines, c) > 0 ==> c in cs)
    requires forall c :: c in cs ==> Sum(cat, lines, c) >= 0.0
    ensures var d := Round2(Total(lines)) - RoundedOver(cat, lines, cs); var k := (|cs| + 1) as real * 0.005;
            -k <= d <= k
  {
    Conservation(cat, lines, cs);
    RoundedOverBound(cat, lines, cs);
    RoundBound(Total(lines));
  }
}
