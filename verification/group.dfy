/** Maps from keys to duplicate-free lists, filled one entry at a time. */
module Group {
  import opened Common
  import opened Text

  datatype Entry = Entry(key: string, text: string)

  /** `appendUnique`: the trimmed non-blank strings of `add` that are not in `base` yet, appended. */
  function Appended(base: seq<string>, add: seq<string>): seq<string>
    decreases |add|
  {
    if add == [] then base
    else
      var out := Appended(base, add[..|add| - 1]);
      var t := Trim(add[|add| - 1]);
      if t == "" || t in out then out else out + [t]
  }

  predicate Clean(list: seq<string>) {
    NoDup(list) && forall d :: d in list ==> d != "" && Trimmed(d)
  }

  method AppendUnique(base: seq<string>, add: seq<string>) returns (out: seq<string>)
    requires Clean(base)
    ensures out == Appended(base, add)
  {
    var seen: set<string> := {};
    for i := 0 to |base|
      invariant forall d :: d in seen <==> d in base[..i]
    {
      assert base[..i + 1] == base[..i] + [base[i]];
      var s := Trim(base[i]);
      assert base[i] in base;
      if s != "" { seen := seen + {s}; }
    }
    assert base[..|base|] == base;
    out := base;
    for i := 0 to |add|
      invariant out == Appended(base, add[..i])
      invariant forall d :: d in seen <==> d in out
    {
      assert add[..i + 1][..i] == add[..i];
      var s := Trim(add[i]);
      if s == "" || s in seen { continue; }
      seen := seen + {s};
      out := out + [s];
    }
    assert add[..|add|] == add;
  }

  lemma AppendedOne(base: seq<string>, d: string)
    requires d != "" && Trimmed(d)
    ensures Appended(base, [d]) == if d in base then base else base + [d]
  {
    assert [d][..0] == [];
    assert Appended(base, []) == base;
  }

  /** Appending goes on with the clean list where the base ends. */
  lemma {:induction false} AppendedIsClean(base: seq<string>, add: seq<string>)
    requires Clean(base)
    ensures Appended(base, add) == CleanList(base + add)
    decreases |add|
  {
    hide Trim, Trimmed;
    if add == [] {
      assert base + add == base;
      CleanListFixed(base);
    } else {
      AppendedIsClean(base, add[..|add| - 1]);
      assert (base + add)[..|base + add| - 1] == base + add[..|add| - 1];
    }
  }

  /** The map that the entries fill, in order. */
  function Filled(es: seq<Entry>): map<string, seq<string>>
    decreases |es|
  {
    if es == [] then map[]
    else Put(Filled(es[..|es| - 1]), es[|es| - 1])
  }

  function ListAt(m: map<string, seq<string>>, key: string): seq<string> {
    if key in m then m[key] else []
  }

  function Put(m: map<string, seq<string>>, e: Entry): map<string, seq<string>> {
    var list := ListAt(m, e.key);
    m[e.key := if e.text in list then list else list + [e.text]]
  }

  lemma FilledSnoc(es: seq<Entry>, e: Entry)
    ensures Filled(es + [e]) == Put(Filled(es), e)
  {
    assert (es + [e])[..|es|] == es;
  }

  /** The map holds exactly the entries: a key is there iff it has an entry, its list holds exactly
      the texts entered under it, each once. */
  lemma {:induction false} FilledHolds(es: seq<Entry>, key: string)
    ensures key in Filled(es) <==> exists e :: e in es && e.key == key
    ensures forall d {:trigger d in ListAt(Filled(es), key)} :: d in ListAt(Filled(es), key) <==> Entry(key, d) in es
    ensures NoDup(ListAt(Filled(es), key))
    decreases |es|
  {
    if es != [] {
      var init, last := es[..|es| - 1], es[|es| - 1];
      assert es == init + [last];
      FilledHolds(init, key);
      forall d ensures d in ListAt(Filled(es), key) <==> Entry(key, d) in es {
        assert Entry(key, d) in es <==> Entry(key, d) in init || Entry(key, d) == last;
        assert d in ListAt(Filled(init), key) <==> Entry(key, d) in init;
      }
    }
  }

  /** Texts stand in the order in which they were entered: more entries only add to a list. */
  lemma {:induction false} FilledGrows(es: seq<Entry>, more: seq<Entry>, key: string)
    ensures ListAt(Filled(es), key) <= ListAt(Filled(es + more), key)
    decreases |more|
  {
    if more == [] {
      assert es + more == es;
    } else {
      FilledGrows(es, more[..|more| - 1], key);
      assert es + more == (es + more[..|more| - 1]) + [more[|more| - 1]];
      FilledSnoc(es + more[..|more| - 1], more[|more| - 1]);
    }
  }

  // ---------- the tables as lists of rows, and back ----------

  /** The map that rows are gathered into. */
  function Gathered(rows: seq<(string, seq<string>)>): map<string, seq<string>>
    decreases |rows|
  {
    if rows == [] then map[]
    else
      var last := rows[|rows| - 1];
      Gathered(rows[..|rows| - 1])[last.0 := CleanList(last.1)]
  }

  method MapOf(rows: seq<(string, seq<string>)>) returns (m: map<string, seq<string>>)
    ensures m == Gathered(rows)
  {
    m := map[];
    for i := 0 to |rows|
      invariant m == Gathered(rows[..i])
    {
      assert rows[..i + 1][..i] == rows[..i];
      m := m[rows[i].0 := CleanList(rows[i].1)];
    }
    assert rows[..|rows|] == rows;
  }

  lemma GatheredSnoc(rows: seq<(string, seq<string>)>, k: string, list: seq<string>)
    requires Clean(list)
    ensures Gathered(rows + [(k, list)]) == Gathered(rows)[k := list]
  {
    assert (rows + [(k, list)])[..|rows|] == rows;
    CleanListFixed(list);
  }

  /** A table of clean non-empty lists survives the way through rows, in whatever order the map is
      walked. */
  method RowsOf(m: map<string, seq<string>>) returns (rows: seq<(string, seq<string>)>)
    requires forall k :: k in m ==> Clean(m[k]) && m[k] != []
    ensures Gathered(rows) == m
  {
    rows := [];
    var keys := m.Keys;
    while keys != {}
      invariant keys <= m.Keys
      invariant Gathered(rows) == Except(m, keys)
    {
      var k :| k in keys;
      ExceptStep(m, keys, k);
      if m[k] != [] {
        GatheredSnoc(rows, k, m[k]);
        rows := rows + [(k, m[k])];
      }
      keys := keys - {k};
    }
  }
}
