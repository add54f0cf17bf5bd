/** Reading a section back in key order. */
module Load {
  import opened Common
  import opened Text
  import opened Snapshot

  /** The order of keys, character by character. */
  predicate Le(a: string, b: string) {
    a == "" || (b != "" && (a[0] < b[0] || (a[0] == b[0] && Le(a[1..], b[1..]))))
  }

  lemma {:induction false} LeTotal(a: string, b: string)
    ensures Le(a, b) || Le(b, a)
    ensures Le(a, b) && Le(b, a) ==> a == b
  {
    if a != "" && b != "" {
      LeTotal(a[1..], b[1..]);
      assert a == [a[0]] + a[1..] && b == [b[0]] + b[1..];
    }
  }

  lemma {:induction false} LeTransitive(a: string, b: string, c: string)
    requires Le(a, b) && Le(b, c)
    ensures Le(a, c)
  {
    if a != "" && a[0] == b[0] && b[0] == c[0] { LeTransitive(a[1..], b[1..], c[1..]); }
  }

  /** The first character that differs decides, and a text comes before what continues it. */
  lemma {:induction false} LeDecides(p: string, a: string, b: string)
    ensures Le(p, p + a)
    ensures a != "" && b != "" && a[0] != b[0] ==> (Le(p + a, p + b) <==> a[0] < b[0])
  {
    if p == "" {
      assert p + a == a && p + b == b;
    } else {
      LeDecides(p[1..], a, b);
      assert (p + a)[1..] == p[1..] + a && (p + b)[1..] == p[1..] + b;
    }
  }

  predicate Ordered(list: seq<Row>) {
    forall i, j :: 0 <= i < j < |list| ==> Le(list[i].key, list[j].key) && list[i].key != list[j].key
  }

  /** The least key of a set. */
  method Least(keys: set<string>) returns (k: string)
    requires keys != {}
    ensures k in keys && forall o :: o in keys ==> Le(k, o)
  {
    k :| k in keys;
    LeTotal(k, k);
    var rest := keys - {k};
    while rest != {}
      invariant rest <= keys && k in keys
      invariant forall o :: o in keys && o !in rest ==> Le(k, o)
    {
      var o :| o in rest;
      LeTotal(k, o);
      if !Le(k, o) {
        forall p | p in keys && p !in rest ensures Le(o, p) { LeTransitive(o, k, p); }
        LeTotal(o, o);
        k := o;
      }
      rest := rest - {o};
    }
  }

  /** The rows read so far come before the keys that are left. */
  predicate Before(out: seq<Row>, keys: set<string>) {
    Ordered(out) && forall i, k :: 0 <= i < |out| && k in keys ==> Le(out[i].key, k) && out[i].key != k
  }

  /** The `Load` functions: the rows of a section, by ascending key. */
  method LoadSection(db: Database, s: Scope) returns (r: Option<seq<Row>>)
    modifies db`calls
    ensures r.Some? ==> Ordered(r.value) && MapOf(r.value) == Section(db.rows, s)
    ensures db.Healthy() ==> r.Some?
  {
    var f := db.Call();
    if !f.Works? { return None; }
    var m := Section(db.rows, s);
    var keys, out := m.Keys, [];
    while keys != {}
      invariant keys <= m.Keys && MapOf(out) == Except(m, keys)
      invariant Before(out, keys)
    {
      var k := Least(keys);
      ExceptStep(m, keys, k);
      out := out + [Row(k, m[k])];
      keys := keys - {k};
    }
    r := Some(out);
  }

  /** What is read back is what was committed, in key order: the same rows, each once. */
  lemma LoadsBack(run: Run, s: Scope, out: seq<Row>)
    requires Valid(run) && LastCommitted(run, s).Some?
    requires Ordered(out) && MapOf(out) == Section(run.rows, s)
    ensures forall r :: r in out <==> r in LastCommitted(run, s).value
    ensures DistinctKeys(out)
  {
    LastGood(run, s);
    var list := LastCommitted(run, s).value;
    MapOfList(out);
    MapOfList(list);
    forall r | r in out ensures r in list {
      var o :| o in list && o.key == r.key;
      assert o == r;
    }
    forall r | r in list ensures r in out {
      var o :| o in out && o.key == r.key;
      assert o == r;
    }
  }

  /** The order makes what is read unique. */
  lemma {:induction false} OrderedUnique(a: seq<Row>, b: seq<Row>)
    requires Ordered(a) && Ordered(b) && (forall r :: r in a <==> r in b)
    ensures a == b
    decreases |a|
  {
    if a == [] {
      NonEmptyHas(b);
    } else {
      NonEmptyHas(a);
      assert a[0] in b && b[0] in a;
      var i :| 0 <= i < |b| && b[i] == a[0];
      var j :| 0 <= j < |a| && a[j] == b[0];
      LeTotal(a[0].key, b[0].key);
      assert a[0].key == b[0].key;
      assert a[0] == b[0];
      var x, y := a[1..], b[1..];
      assert a == [a[0]] + x && b == [b[0]] + y;
      forall r ensures r in x <==> r in y {
        TailMember(a, r);
        TailMember(b, r);
      }
      OrderedUnique(x, y);
    }
  }

  lemma TailMember(list: seq<Row>, r: Row)
    requires Ordered(list) && list != []
    ensures r in list[1..] <==> r in list && r != list[0]
  {
    assert list == [list[0]] + list[1..];
  }
}
