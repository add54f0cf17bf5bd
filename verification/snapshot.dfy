/** The snapshot cache: each section of a table is replaced as a whole, in one transaction, or not at
    all, and a failed or empty pull leaves the last good snapshot. */
module Snapshot {
  import opened Text

  /** A table section: the rows of one system, for billing those of one month. */
  datatype Scope = Scope(table: string, sys: string, month: string)

  type Tables = map<(Scope, string), string>

  datatype Row = Row(key: string, payload: string)

  function Section(rows: Tables, s: Scope): map<string, string> {
    map p | p in rows && p.0 == s :: p.1 := rows[p]
  }

  predicate DistinctKeys(list: seq<Row>) {
    forall i, j :: 0 <= i < j < |list| ==> list[i].key != list[j].key
  }

  function MapOf(list: seq<Row>): map<string, string>
    decreases |list|
  {
    if list == [] then map[] else MapOf(list[..|list| - 1])[list[|list| - 1].key := list[|list| - 1].payload]
  }

  /** The table with one section deleted. */
  function Without(rows: Tables, s: Scope): Tables {
    map p | p in rows && p.0 != s :: rows[p]
  }

  /** The table with rows inserted under a scope. */
  function Inserted(rows: Tables, s: Scope, list: seq<Row>): Tables
    decreases |list|
  {
    if list == [] then rows
    else Inserted(rows, s, list[..|list| - 1])[(s, list[|list| - 1].key) := list[|list| - 1].payload]
  }

  function Replaced(rows: Tables, s: Scope, list: seq<Row>): Tables {
    Inserted(Without(rows, s), s, list)
  }

  lemma {:induction false} InsertedSections(rows: Tables, s: Scope, list: seq<Row>, o: Scope)
    ensures Section(Inserted(rows, s, list), o) == if o == s then Section(rows, s) + MapOf(list) else Section(rows, o)
    decreases |list|
  {
    hide Section;
    if list == [] {
      assert Section(rows, s) + MapOf([]) == Section(rows, s);
    } else {
      var init, last := list[..|list| - 1], list[|list| - 1];
      InsertedSections(rows, s, init, o);
      InsertedOne(Inserted(rows, s, init), s, last, o);
    }
  }

  lemma InsertedOne(rows: Tables, s: Scope, r: Row, o: Scope)
    ensures Section(rows[(s, r.key) := r.payload], o) ==
            if o == s then Section(rows, s)[r.key := r.payload] else Section(rows, o)
  {
    var post := rows[(s, r.key) := r.payload];
    forall k ensures k in Section(post, o) <==> (o, k) in post {}
    forall k ensures k in Section(rows, o) <==> (o, k) in rows {}
  }

  /** A committed replacement: the section is exactly the new rows, every other section is untouched. */
  lemma ReplacedSections(rows: Tables, s: Scope, list: seq<Row>, o: Scope)
    ensures Section(Replaced(rows, s, list), o) == if o == s then MapOf(list) else Section(rows, o)
  {
    hide Section, Without, Inserted, MapOf;
    InsertedSections(Without(rows, s), s, list, o);
    WithoutSections(rows, s, o);
    assert map[] + MapOf(list) == MapOf(list);
  }

  lemma WithoutSections(rows: Tables, s: Scope, o: Scope)
    ensures Section(Without(rows, s), o) == if o == s then map[] else Section(rows, o)
  {
    forall k ensures k in Section(Without(rows, s), o) <==> (o, k) in Without(rows, s) {}
    forall k ensures k in Section(rows, o) <==> (o, k) in rows {}
  }

  lemma DistinctSnoc(list: seq<Row>, i: nat)
    requires i < |list|
    ensures DistinctKeys(list[..i + 1]) <==>
            DistinctKeys(list[..i]) && forall j :: 0 <= j < i ==> list[j].key != list[i].key
    ensures DistinctKeys(list) ==> DistinctKeys(list[..i + 1])
  {
    var init, next := list[..i], list[..i + 1];
    assert forall j :: 0 <= j < i ==> next[j] == init[j] == list[j];
    assert next[i] == list[i];
  }

  lemma InsertedSnoc(rows: Tables, s: Scope, list: seq<Row>, i: nat)
    requires i < |list|
    ensures Inserted(rows, s, list[..i + 1]) == Inserted(rows, s, list[..i])[(s, list[i].key) := list[i].payload]
  {
    assert list[..i + 1][..i] == list[..i];
  }

  lemma {:induction false} MapOfList(list: seq<Row>)
    ensures forall k :: k in MapOf(list) <==> exists r :: r in list && r.key == k
    ensures DistinctKeys(list) ==> forall r :: r in list ==> r.key in MapOf(list) && MapOf(list)[r.key] == r.payload
    decreases |list|
  {
    if list != [] {
      var init, last := list[..|list| - 1], list[|list| - 1];
      assert list == init + [last];
      MapOfList(init);
    }
  }

  // ---------- the transaction ----------

  /** What may happen to a statement; a commit may also succeed with its reply lost. */
  datatype Fault = Works | Fails | LostReply

  class Database {
    var rows: Tables
    var calls: nat
    const fault: nat -> Fault

    constructor (rows: Tables, fault: nat -> Fault)
      ensures this.rows == rows && this.fault == fault
    {
      this.rows, this.calls, this.fault := rows, 0, fault;
    }

    method Call() returns (f: Fault)
      modifies this`calls
      ensures f == fault(old(calls)) && calls == old(calls) + 1
    {
      f := fault(calls);
      calls := calls + 1;
    }

    /** No statement ever fails. */
    ghost predicate Healthy() {
      forall n :: fault(n).Works?
    }

    /** The insertions of a transaction, on its own copy of the table. */
    method Fill(tx: Tables, s: Scope, list: seq<Row>) returns (ok: bool, out: Tables)
      requires forall p :: p in tx ==> p.0 != s
      modifies this`calls
      ensures ok ==> DistinctKeys(list) && out == Inserted(tx, s, list)
      ensures Healthy() && DistinctKeys(list) ==> ok
    {
      out := tx;
      ghost var seen: set<string> := {};
      for i := 0 to |list|
        invariant DistinctKeys(list[..i]) && out == Inserted(tx, s, list[..i])
        invariant forall k :: (s, k) in out <==> k in seen
        invariant forall k :: k in seen <==> exists j :: 0 <= j < i && list[j].key == k
      {
        InsertedSnoc(tx, s, list, i);
        DistinctSnoc(list, i);
        var f := Call();
        if !f.Works? || (s, list[i].key) in out { return false, tx; }
        out := out[(s, list[i].key) := list[i].payload];
        seen := seen + {list[i].key};
      }
      assert list[..|list|] == list;
      ok := true;
    }

    /** `ReplaceSnapshotTable`, and `ReplaceBillingSnapshot` with a month in the scope. */
    method Replace(s: Scope, list: seq<Row>) returns (ok: bool, ghost committed: bool)
      modifies this
      ensures Attempt(old(rows), rows, s, list, committed)
      ensures ok ==> committed || list == []
      ensures Healthy() && DistinctKeys(list) ==> ok
    {
      if list == [] { return true, false; }
      var f := Call();
      if !f.Works? { return false, false; }
      f := Call();
      if !f.Works? { return false, false; }
      var filled, tx := Fill(Without(rows, s), s, list);
      if !filled { return false, false; }
      f := Call();
      ok, committed := f.Works?, !f.Fails?;
      if !f.Fails? { rows := tx; }
    }

    /** `ReplaceWafDomainSnapshots`: both sections are replaced together, by nothing if need be. */
    method ReplaceDomains(eip: Scope, eips: seq<Row>, node: Scope, nodes: seq<Row>)
      returns (ok: bool, ghost committed: bool)
      requires eip != node
      modifies this
      ensures Rebinding(old(rows), rows, eip, eips, node, nodes, committed)
      ensures ok ==> committed
      ensures Healthy() && DistinctKeys(eips) && DistinctKeys(nodes) ==> ok
    {
      var f := Call();
      if !f.Works? { return false, false; }
      f := Call();
      if !f.Works? { return false, false; }
      f := Call();
      if !f.Works? { return false, false; }
      var filled, tx := Fill(Without(Without(rows, eip), node), eip, eips);
      if !filled { return false, false; }
      InsertThenDelete(Without(rows, eip), eip, eips, node);
      assert Without(Without(rows, eip), node) == Without(Without(rows, node), eip);
      filled, tx := Fill(tx, node, nodes);
      if !filled { return false, false; }
      f := Call();
      ok, committed := f.Works?, !f.Fails?;
      if !f.Fails? { rows := tx; }
    }
  }

  lemma {:induction false} InsertThenDelete(rows: Tables, s: Scope, list: seq<Row>, o: Scope)
    requires s != o
    ensures Without(Inserted(rows, s, list), o) == Inserted(Without(rows, o), s, list)
    ensures forall p :: p in Inserted(Without(rows, o), s, list) ==> p.0 != o
    decreases |list|
  {
    if list != [] { InsertThenDelete(rows, s, list[..|list| - 1], o); }
  }

  /** One attempt to replace both domain sections. */
  ghost predicate Rebinding(a: Tables, b: Tables, eip: Scope, eips: seq<Row>, node: Scope, nodes: seq<Row>,
                            committed: bool) {
    if committed then DistinctKeys(eips) && DistinctKeys(nodes) && b == Replaced(Replaced(a, eip, eips), node, nodes)
    else b == a
  }

  /** One attempt to replace a section. */
  ghost predicate Attempt(a: Tables, b: Tables, s: Scope, list: seq<Row>, committed: bool) {
    if committed then list != [] && DistinctKeys(list) && b == Replaced(a, s, list) else b == a
  }

  /** The firewall bindings are replaced as they are: an empty result empties both sections, and every
      other section stays. */
  lemma DomainsMayEmpty(rows: Tables, eip: Scope, node: Scope, eips: seq<Row>, nodes: seq<Row>, s: Scope)
    requires eip != node
    ensures Section(Replaced(Replaced(rows, eip, eips), node, nodes), s) ==
            if s == node then MapOf(nodes) else if s == eip then MapOf(eips) else Section(rows, s)
  {
    hide Section, Replaced, MapOf;
    ReplacedSections(rows, eip, eips, s);
    ReplacedSections(Replaced(rows, eip, eips), node, nodes, s);
  }

  // ---------- every run ----------

  /** Attempts in sequence, of any systems, tables and months, with replacements of domain sections
      anywhere in between. */
  datatype Run =
    | Begin(rows: Tables)
    | Next(prev: Run, s: Scope, list: seq<Row>, committed: bool, rows: Tables)
    | Rebound(prev: Run, eip: Scope, eips: seq<Row>, node: Scope, nodes: seq<Row>, committed: bool, rows: Tables)

  ghost predicate Valid(run: Run) {
    match run
    case Begin(_) => true
    case Next(prev, s, list, committed, rows) => Valid(prev) && Attempt(prev.rows, rows, s, list, committed)
    case Rebound(prev, eip, eips, node, nodes, committed, rows) =>
      Valid(prev) && eip != node && Rebinding(prev.rows, rows, eip, eips, node, nodes, committed)
  }

  function Origin(run: Run): Tables { if run.Begin? then run.rows else Origin(run.prev) }

  /** The last replacement of the section that was committed. */
  function LastCommitted(run: Run, s: Scope): Option<seq<Row>> {
    match run
    case Begin(_) => None
    case Next(prev, o, list, committed, _) => if committed && o == s then Some(list) else LastCommitted(prev, s)
    case Rebound(prev, eip, eips, node, nodes, committed, _) =>
      if committed && node == s then Some(nodes)
      else if committed && eip == s then Some(eips)
      else LastCommitted(prev, s)
  }

  /** The section is no domain section of the run. */
  predicate Unbound(run: Run, s: Scope) {
    (run.Rebound? ==> s != run.eip && s != run.node) && (!run.Begin? ==> Unbound(run.prev, s))
  }

  /** Whatever fails in between, a section holds the last committed replacement and nothing else. */
  lemma {:induction false} LastGood(run: Run, s: Scope)
    requires Valid(run)
    ensures Section(run.rows, s) == match LastCommitted(run, s)
                                    case None => Section(Origin(run), s)
                                    case Some(list) => MapOf(list)
    ensures LastCommitted(run, s).Some? ==> DistinctKeys(LastCommitted(run, s).value)
    ensures LastCommitted(run, s).Some? && Unbound(run, s) ==> LastCommitted(run, s).value != []
  {
    hide Section, Replaced, MapOf, DistinctKeys;
    match run
    case Begin(_) =>
    case Next(prev, o, list, _, _) =>
      LastGood(prev, s);
      ReplacedSections(prev.rows, o, list, s);
    case Rebound(prev, eip, eips, node, nodes, _, _) =>
      LastGood(prev, s);
      DomainsMayEmpty(prev.rows, eip, node, eips, nodes, s);
  }

  /** A resource or billing section that held rows never becomes empty. */
  lemma {:induction false} NeverEmptied(run: Run, s: Scope)
    requires Valid(run) && Unbound(run, s) && Section(Origin(run), s) != map[]
    ensures Section(run.rows, s) != map[]
  {
    LastGood(run, s);
    if LastCommitted(run, s).Some? {
      var list := LastCommitted(run, s).value;
      MapOfList(list);
      assert list[0] in list && list[0].key in MapOf(list);
    }
  }
}
