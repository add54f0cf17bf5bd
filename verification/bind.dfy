/** Binding the domains of the web application firewall to EIPs, nodes and certificates. */
module Bind {
  import opened Text
  import opened Ids
  import opened Records
  import opened Origins
  import opened Group

  datatype WafRow = WafRow(host: string, account: string, cert: string, origins: string)

  datatype EipRow = EipRow(key: string, node: string, domains: seq<string>)

  /** A firewall row whose origin servers include the public address of an EIP. */
  datatype Pair = Pair(row: WafRow, eip: Eip)

  /** The join condition; an empty account set allows every account. */
  predicate Linked(ids: IdScheme, allowed: set<string>, row: Option<WafRow>, e: Option<Eip>) {
    && row.Some? && Trim(row.value.host) != "" && (allowed == {} || row.value.account in allowed)
    && e.Some? && Trim(e.value.ip) != "" && Trim(e.value.ip) in OriginIps(row.value.origins)
    && EipKey(ids, e.value.id) != ""
  }

  /** The matches of one row, in the order of the EIPs. */
  function RowPairs(ids: IdScheme, allowed: set<string>, row: Option<WafRow>, eips: seq<Option<Eip>>): seq<Pair>
    decreases |eips|
  {
    if eips == [] then []
    else
      var ps, e := RowPairs(ids, allowed, row, eips[..|eips| - 1]), eips[|eips| - 1];
      if Linked(ids, allowed, row, e) then ps + [Pair(row.value, e.value)] else ps
  }

  /** All matches, rows first. */
  function Pairs(ids: IdScheme, allowed: set<string>, rows: seq<Option<WafRow>>, eips: seq<Option<Eip>>): seq<Pair>
    decreases |rows|
  {
    if rows == [] then []
    else Pairs(ids, allowed, rows[..|rows| - 1], eips) + RowPairs(ids, allowed, rows[|rows| - 1], eips)
  }

  ghost predicate Joined(ids: IdScheme, allowed: set<string>, rows: seq<Option<WafRow>>, eips: seq<Option<Eip>>,
                         p: Pair) {
    Some(p.row) in rows && Some(p.eip) in eips && Linked(ids, allowed, Some(p.row), Some(p.eip))
  }

  lemma {:induction false} RowPairsMembers(ids: IdScheme, allowed: set<string>, row: Option<WafRow>,
                                           eips: seq<Option<Eip>>, p: Pair)
    ensures p in RowPairs(ids, allowed, row, eips) <==>
            Some(p.row) == row && Some(p.eip) in eips && Linked(ids, allowed, row, Some(p.eip))
    decreases |eips|
  {
    if eips != [] {
      var init, e := eips[..|eips| - 1], eips[|eips| - 1];
      RowPairsMembers(ids, allowed, row, init, p);
      assert eips == init + [e];
      LinkedBoth(ids, allowed, row, e);
      hide Linked;
    }
  }

  lemma LinkedBoth(ids: IdScheme, allowed: set<string>, row: Option<WafRow>, e: Option<Eip>)
    ensures Linked(ids, allowed, row, e) ==> row.Some? && e.Some?
  {}

  /** The matches are the relational join of rows and EIPs. */
  lemma {:induction false} PairsMembers(ids: IdScheme, allowed: set<string>, rows: seq<Option<WafRow>>,
                                        eips: seq<Option<Eip>>, p: Pair)
    ensures p in Pairs(ids, allowed, rows, eips) <==> Joined(ids, allowed, rows, eips, p)
    decreases |rows|
  {
    hide Linked, RowPairs;
    if rows != [] {
      PairsMembers(ids, allowed, rows[..|rows| - 1], eips, p);
      RowPairsMembers(ids, allowed, rows[|rows| - 1], eips, p);
      assert rows == rows[..|rows| - 1] + [rows[|rows| - 1]];
    }
  }

  // ---------- the three tables ----------

  /** Which of the three tables. */
  datatype Table = ByEip | ByNode | ByCert

  function CertKey(account: string, cert: string): string { account + "|" + Trim(cert) }

  function Keyed(ids: IdScheme, t: Table, p: Pair): Option<string> {
    match t
    case ByEip => Some(EipKey(ids, p.eip.id))
    case ByNode => Some(NodeOf(EipPlace(p.eip)))
    case ByCert => if Trim(p.row.cert) == "" then None else Some(CertKey(p.row.account, p.row.cert))
  }

  /** The entries that matches make in a table. */
  function Entries(ids: IdScheme, t: Table, ps: seq<Pair>): seq<Entry>
    decreases |ps|
  {
    if ps == [] then []
    else
      var es, p := Entries(ids, t, ps[..|ps| - 1]), ps[|ps| - 1];
      if Keyed(ids, t, p).Some? then es + [Entry(Keyed(ids, t, p).value, Trim(p.row.host))] else es
  }

  function Bound(ids: IdScheme, t: Table, ps: seq<Pair>): map<string, seq<string>> {
    Filled(Entries(ids, t, ps))
  }

  lemma BoundSnoc(ids: IdScheme, t: Table, ps: seq<Pair>, p: Pair)
    ensures Bound(ids, t, ps + [p]) ==
            match Keyed(ids, t, p)
            case None => Bound(ids, t, ps)
            case Some(k) => Put(Bound(ids, t, ps), Entry(k, Trim(p.row.host)))
  {
    assert (ps + [p])[..|ps|] == ps;
    if Keyed(ids, t, p).Some? {
      FilledSnoc(Entries(ids, t, ps), Entry(Keyed(ids, t, p).value, Trim(p.row.host)));
    }
  }

  lemma {:induction false} EntriesMembers(ids: IdScheme, t: Table, ps: seq<Pair>, e: Entry)
    ensures e in Entries(ids, t, ps) <==>
              exists p :: p in ps && Keyed(ids, t, p) == Some(e.key) && Trim(p.row.host) == e.text
    decreases |ps|
  {
    if ps != [] {
      var init, last := ps[..|ps| - 1], ps[|ps| - 1];
      assert ps == init + [last];
      EntriesMembers(ids, t, init, e);
    }
  }

  /** Every match has a non-blank host name. */
  predicate Hosted(ps: seq<Pair>) {
    forall p :: p in ps ==> Trim(p.row.host) != ""
  }

  lemma BoundClean(ids: IdScheme, t: Table, ps: seq<Pair>, key: string)
    requires Hosted(ps)
    ensures Clean(ListAt(Bound(ids, t, ps), key))
  {
    FilledHolds(Entries(ids, t, ps), key);
    forall d | d in ListAt(Bound(ids, t, ps), key) ensures d != "" && Trimmed(d) {
      EntriesMembers(ids, t, ps, Entry(key, d));
    }
  }

  /** One of the row's listed servers parses to the public address of the EIP. */
  ghost predicate Serves(row: WafRow, e: Eip) {
    Trim(e.ip) != "" && exists part {:trigger OriginIp(Trim(part))} ::
      part in Split(row.origins, ',') && OriginIp(Trim(part)) == Trim(e.ip)
  }

  /** The row and the EIP are listed, the row is named and of an allowed account, the EIP has an id. */
  ghost predicate Meets(ids: IdScheme, allowed: set<string>, rows: seq<Option<WafRow>>, eips: seq<Option<Eip>>,
                        row: WafRow, e: Eip) {
    && Some(row) in rows && Some(e) in eips && (allowed == {} || row.account in allowed)
    && Trim(row.host) != "" && Trim(e.id) != "" && Serves(row, e)
  }

  /** The key under which a match is filed. */
  predicate FiledUnder(ids: IdScheme, t: Table, row: WafRow, e: Eip, key: string) {
    match t
    case ByEip => key == EipKey(ids, e.id)
    case ByNode => key == NodeOf(EipPlace(e))
    case ByCert => Trim(row.cert) != "" && key == row.account + "|" + Trim(row.cert)
  }

  /** A row with this host name meets an EIP under the key. */
  ghost predicate HostUnder(ids: IdScheme, t: Table, allowed: set<string>, rows: seq<Option<WafRow>>,
                            eips: seq<Option<Eip>>, key: string, d: string) {
    exists row, e {:trigger Meets(ids, allowed, rows, eips, row, e)} ::
      Meets(ids, allowed, rows, eips, row, e) && FiledUnder(ids, t, row, e, key) && Trim(row.host) == d
  }

  lemma LinkedServes(ids: IdScheme, allowed: set<string>, row: WafRow, e: Eip)
    ensures Linked(ids, allowed, Some(row), Some(e)) <==>
            (allowed == {} || row.account in allowed) && Trim(row.host) != "" && Trim(e.id) != "" && Serves(row, e)
  {
    hide OriginIps, EipKey, Trim, Split, OriginIp;
    KeyOfId(ids, e.id);
    if Trim(e.ip) != "" { OriginListed(row.origins, Trim(e.ip)); }
  }

  lemma KeyedFiled(ids: IdScheme, t: Table, row: WafRow, e: Eip, key: string)
    ensures Keyed(ids, t, Pair(row, e)) == Some(key) <==> FiledUnder(ids, t, row, e, key)
  {
    hide EipKey, NodeOf, EipPlace, Trim;
  }

  lemma JoinedMeets(ids: IdScheme, t: Table, allowed: set<string>, rows: seq<Option<WafRow>>, eips: seq<Option<Eip>>,
                    row: WafRow, e: Eip, key: string)
    ensures var p := Pair(row, e);
            Joined(ids, allowed, rows, eips, p) && Keyed(ids, t, p) == Some(key) <==>
            Meets(ids, allowed, rows, eips, row, e) && FiledUnder(ids, t, row, e, key)
  {
    hide Linked, Serves, Keyed, FiledUnder, Trim;
    LinkedServes(ids, allowed, row, e);
    KeyedFiled(ids, t, row, e, key);
  }

  lemma KeyOfId(ids: IdScheme, id: string)
    ensures EipKey(ids, id) == "" <==> Trim(id) == ""
  {}

  /** `Build` refines the join: under each key of a table are exactly the trimmed host names of the
      rows that meet an EIP under that key, each once; other keys are absent. */
  lemma BuildIsJoin(ids: IdScheme, t: Table, allowed: set<string>, rows: seq<Option<WafRow>>, eips: seq<Option<Eip>>,
                    key: string)
    ensures var m := Bound(ids, t, Pairs(ids, allowed, rows, eips));
            && (forall d {:trigger d in ListAt(m, key)} :: d in ListAt(m, key) <==>
                  HostUnder(ids, t, allowed, rows, eips, key, d))
            && (key in m <==> ListAt(m, key) != []) && Clean(ListAt(m, key))
  {
    hide Linked, Joined, Meets, Keyed, FiledUnder, Pairs, Bound, ListAt, Clean, Trim, HostUnder;
    BoundIsJoin(ids, t, allowed, rows, eips, key);
    var m := Bound(ids, t, Pairs(ids, allowed, rows, eips));
    forall d ensures d in ListAt(m, key) <==> HostUnder(ids, t, allowed, rows, eips, key, d) {
      UnderMeets(ids, t, allowed, rows, eips, key, d);
    }
  }

  lemma UnderMeets(ids: IdScheme, t: Table, allowed: set<string>, rows: seq<Option<WafRow>>, eips: seq<Option<Eip>>,
                   key: string, d: string)
    ensures (exists p :: Joined(ids, allowed, rows, eips, p) && Keyed(ids, t, p) == Some(key) && Trim(p.row.host) == d)
            <==> HostUnder(ids, t, allowed, rows, eips, key, d)
  {
    hide Joined, Meets, Keyed, FiledUnder, Trim;
    if p :| Joined(ids, allowed, rows, eips, p) && Keyed(ids, t, p) == Some(key) && Trim(p.row.host) == d {
      JoinedMeets(ids, t, allowed, rows, eips, p.row, p.eip, key);
    }
    if row, e :| Meets(ids, allowed, rows, eips, row, e) && FiledUnder(ids, t, row, e, key) && Trim(row.host) == d {
      JoinedMeets(ids, t, allowed, rows, eips, row, e, key);
      assert Joined(ids, allowed, rows, eips, Pair(row, e));
    }
  }

  lemma BoundIsJoin(ids: IdScheme, t: Table, allowed: set<string>, rows: seq<Option<WafRow>>, eips: seq<Option<Eip>>,
                    key: string)
    ensures var m := Bound(ids, t, Pairs(ids, allowed, rows, eips));
            && (forall d {:trigger d in ListAt(m, key)} :: d in ListAt(m, key) <==>
                  exists p :: Joined(ids, allowed, rows, eips, p) && Keyed(ids, t, p) == Some(key)
                    && Trim(p.row.host) == d)
            && (key in m <==> ListAt(m, key) != []) && Clean(ListAt(m, key))
  {
    var ps := Pairs(ids, allowed, rows, eips);
    var es := Entries(ids, t, ps);
    var m := Bound(ids, t, ps);
    FilledHolds(es, key);
    forall d ensures d in ListAt(m, key) <==>
        exists p :: Joined(ids, allowed, rows, eips, p) && Keyed(ids, t, p) == Some(key) && Trim(p.row.host) == d
    {
      KeyedMatches(ids, t, allowed, rows, eips, key, d);
    }
    if key in m {
      var e :| e in es && e.key == key;
      assert Entry(key, e.text) in es && e.text in ListAt(m, key);
    }
    PairsHosted(ids, allowed, rows, eips);
    BoundClean(ids, t, ps, key);
  }

  lemma KeyedMatches(ids: IdScheme, t: Table, allowed: set<string>, rows: seq<Option<WafRow>>, eips: seq<Option<Eip>>,
                     key: string, d: string)
    ensures Entry(key, d) in Entries(ids, t, Pairs(ids, allowed, rows, eips)) <==>
            exists p :: Joined(ids, allowed, rows, eips, p) && Keyed(ids, t, p) == Some(key) && Trim(p.row.host) == d
  {
    EntriesMembers(ids, t, Pairs(ids, allowed, rows, eips), Entry(key, d));
    forall p: Pair ensures p in Pairs(ids, allowed, rows, eips) <==> Joined(ids, allowed, rows, eips, p) {
      PairsMembers(ids, allowed, rows, eips, p);
    }
  }

  lemma PairsHosted(ids: IdScheme, allowed: set<string>, rows: seq<Option<WafRow>>, eips: seq<Option<Eip>>)
    ensures Hosted(Pairs(ids, allowed, rows, eips))
  {
    forall p | p in Pairs(ids, allowed, rows, eips) ensures Trim(p.row.host) != "" {
      PairsMembers(ids, allowed, rows, eips, p);
    }
  }

  lemma {:induction false} EntriesAppend(ids: IdScheme, t: Table, ps: seq<Pair>, qs: seq<Pair>)
    ensures Entries(ids, t, ps + qs) == Entries(ids, t, ps) + Entries(ids, t, qs)
    decreases |qs|
  {
    hide Keyed, Trim;
    if qs == [] {
      assert ps + qs == ps;
    } else {
      EntriesAppend(ids, t, ps, qs[..|qs| - 1]);
      assert (ps + qs)[..|ps + qs| - 1] == ps + qs[..|qs| - 1];
    }
  }

  lemma {:induction false} PairsAppend(ids: IdScheme, allowed: set<string>, rows: seq<Option<WafRow>>,
                                       more: seq<Option<WafRow>>, eips: seq<Option<Eip>>)
    ensures Pairs(ids, allowed, rows + more, eips) == Pairs(ids, allowed, rows, eips) + Pairs(ids, allowed, more, eips)
    decreases |more|
  {
    hide RowPairs;
    if more == [] {
      assert rows + more == rows;
    } else {
      PairsAppend(ids, allowed, rows, more[..|more| - 1], eips);
      assert (rows + more)[..|rows + more| - 1] == rows + more[..|more| - 1];
    }
  }

  /** Hosts stand in the order of their rows: more rows only add to a list. */
  lemma BoundGrows(ids: IdScheme, t: Table, allowed: set<string>, rows: seq<Option<WafRow>>,
                   more: seq<Option<WafRow>>, eips: seq<Option<Eip>>, key: string)
    ensures ListAt(Bound(ids, t, Pairs(ids, allowed, rows, eips)), key) <=
            ListAt(Bound(ids, t, Pairs(ids, allowed, rows + more, eips)), key)
  {
    hide Entries, Pairs, Filled, ListAt;
    var ps, qs := Pairs(ids, allowed, rows, eips), Pairs(ids, allowed, more, eips);
    PairsAppend(ids, allowed, rows, more, eips);
    EntriesAppend(ids, t, ps, qs);
    FilledGrows(Entries(ids, t, ps), Entries(ids, t, qs), key);
  }

  // ---------- the loops ----------

  /** The EIP table also remembers the node of the first match under each key. */
  function Enter(m: map<string, EipRow>, key: string, node: string, d: string): map<string, EipRow> {
    var r := if key in m then m[key] else EipRow(key, node, []);
    m[key := if d in r.domains then r else r.(domains := r.domains + [d])]
  }

  function EipTable(ids: IdScheme, ps: seq<Pair>): map<string, EipRow>
    decreases |ps|
  {
    if ps == [] then map[]
    else
      var p := ps[|ps| - 1];
      Enter(EipTable(ids, ps[..|ps| - 1]), EipKey(ids, p.eip.id), NodeOf(EipPlace(p.eip)), Trim(p.row.host))
  }

  lemma EipTableSnoc(ids: IdScheme, ps: seq<Pair>, p: Pair)
    ensures EipTable(ids, ps + [p]) ==
            Enter(EipTable(ids, ps), EipKey(ids, p.eip.id), NodeOf(EipPlace(p.eip)), Trim(p.row.host))
  {
    assert (ps + [p])[..|ps|] == ps;
  }

  function DomainsOf(byEip: map<string, EipRow>): map<string, seq<string>> {
    map k | k in byEip :: byEip[k].domains
  }

  function FirstNode(ids: IdScheme, ps: seq<Pair>, key: string): Option<string> {
    if ps == [] then None
    else if EipKey(ids, ps[0].eip.id) == key then Some(NodeOf(EipPlace(ps[0].eip)))
    else FirstNode(ids, ps[1..], key)
  }

  lemma {:induction false} FirstNodeSnoc(ids: IdScheme, ps: seq<Pair>, p: Pair, key: string)
    ensures FirstNode(ids, ps + [p], key) ==
            if FirstNode(ids, ps, key).Some? then FirstNode(ids, ps, key)
            else if EipKey(ids, p.eip.id) == key then Some(NodeOf(EipPlace(p.eip)))
            else None
  {
    hide EipKey, NodeOf, EipPlace;
    if ps != [] {
      assert (ps + [p])[1..] == ps[1..] + [p];
      FirstNodeSnoc(ids, ps[1..], p, key);
    }
  }

  lemma EnterDomains(m: map<string, EipRow>, key: string, node: string, d: string)
    ensures DomainsOf(Enter(m, key, node, d)) == Put(DomainsOf(m), Entry(key, d))
  {}

  lemma NoTable(ids: IdScheme)
    ensures DomainsOf(EipTable(ids, [])) == Bound(ids, ByEip, [])
  {}

  lemma {:induction false} EipTableDomains(ids: IdScheme, ps: seq<Pair>)
    ensures DomainsOf(EipTable(ids, ps)) == Bound(ids, ByEip, ps)
    decreases |ps|
  {
    hide Bound, EipTable, Enter, Put, DomainsOf, EipKey, NodeOf, EipPlace, Trim;
    if ps == [] {
      NoTable(ids);
    } else {
      var init, p := ps[..|ps| - 1], ps[|ps| - 1];
      assert ps == init + [p];
      EipTableDomains(ids, init);
      EipTableSnoc(ids, init, p);
      EnterDomains(EipTable(ids, init), EipKey(ids, p.eip.id), NodeOf(EipPlace(p.eip)), Trim(p.row.host));
      BoundSnoc(ids, ByEip, init, p);
    }
  }

  lemma EnterAt(m: map<string, EipRow>, key: string, node: string, d: string, k: string)
    requires k in m ==> m[k].key == k
    ensures var out := Enter(m, key, node, d);
            && (k in out <==> k in m || k == key)
            && (k in out ==> out[k].key == k && out[k].node == if k in m then m[k].node else node)
  {}

  /** Each row of the table carries its key and the node of the first match under it. */
  lemma {:induction false} EipTableNode(ids: IdScheme, ps: seq<Pair>, k: string)
    ensures var m := EipTable(ids, ps);
            FirstNode(ids, ps, k) == if k in m then Some(m[k].node) else None
    ensures k in EipTable(ids, ps) ==> EipTable(ids, ps)[k].key == k
    decreases |ps|
  {
    if ps != [] {
      var init, p := ps[..|ps| - 1], ps[|ps| - 1];
      assert ps == init + [p];
      EipTableNode(ids, init, k);
      EnterAt(EipTable(ids, init), EipKey(ids, p.eip.id), NodeOf(EipPlace(p.eip)), Trim(p.row.host), k);
      FirstNodeSnoc(ids, init, p, k);
    }
  }

  /** The three tables hold what the matches so far bind. */
  ghost predicate Holds(ids: IdScheme, ps: seq<Pair>, byEip: map<string, EipRow>, byNode: map<string, seq<string>>,
                        byCert: map<string, seq<string>>) {
    byEip == EipTable(ids, ps) && byNode == Bound(ids, ByNode, ps) && byCert == Bound(ids, ByCert, ps)
  }

  method AddText(list: seq<string>, domain: string) returns (out: seq<string>)
    requires Clean(list) && domain != "" && Trimmed(domain)
    ensures out == if domain in list then list else list + [domain]
  {
    out := AppendUnique(list, [domain]);
    AppendedOne(list, domain);
  }

  method EnterEip(m: map<string, EipRow>, key: string, node: string, domain: string) returns (out: map<string, EipRow>)
    requires Clean(ListAt(DomainsOf(m), key)) && domain != "" && Trimmed(domain)
    ensures out == Enter(m, key, node, domain)
  {
    var r := if key in m then m[key] else EipRow(key, node, []);
    assert r.domains == ListAt(DomainsOf(m), key);
    var domains := AddText(r.domains, domain);
    out := m[key := r.(domains := domains)];
  }

  method EnterText(m: map<string, seq<string>>, key: string, domain: string) returns (out: map<string, seq<string>>)
    requires Clean(ListAt(m, key)) && domain != "" && Trimmed(domain)
    ensures out == Put(m, Entry(key, domain))
  {
    var domains := AddText(if key in m then m[key] else [], domain);
    out := m[key := domains];
  }

  /** The innermost step: a match enters its domain in the three tables. */
  method BindPair(ids: IdScheme, ghost ps: seq<Pair>, p: Pair, byEip: map<string, EipRow>,
                  byNode: map<string, seq<string>>,
                  byCert: map<string, seq<string>>)
    returns (byEip': map<string, EipRow>, byNode': map<string, seq<string>>, byCert': map<string, seq<string>>)
    requires Holds(ids, ps, byEip, byNode, byCert) && Hosted(ps) && Trim(p.row.host) != ""
    ensures Holds(ids, ps + [p], byEip', byNode', byCert')
  {
    hide EipTable, Bound, Enter, Put, Clean, DomainsOf, ListAt, NodeOf, EipPlace, EipKey, Trim;
    EipTableDomains(ids, ps);
    EipTableSnoc(ids, ps, p);
    BoundClean(ids, ByEip, ps, EipKey(ids, p.eip.id));
    byEip' := EnterEip(byEip, EipKey(ids, p.eip.id), NodeOf(EipPlace(p.eip)), Trim(p.row.host));
    BoundSnoc(ids, ByNode, ps, p);
    BoundClean(ids, ByNode, ps, NodeOf(EipPlace(p.eip)));
    byNode' := EnterText(byNode, NodeOf(EipPlace(p.eip)), Trim(p.row.host));
    byCert' := byCert;
    BoundSnoc(ids, ByCert, ps, p);
    if Trim(p.row.cert) != "" {
      BoundClean(ids, ByCert, ps, CertKey(p.row.account, p.row.cert));
      byCert' := EnterText(byCert, CertKey(p.row.account, p.row.cert), Trim(p.row.host));
    }
  }

  /** One turn of the inner loop, for a row that passed the outer tests. */
  method TryBind(ids: IdScheme, allowed: set<string>, ghost ps: seq<Pair>, row: WafRow, origins: seq<string>,
                 e: Option<Eip>,
                 byEip: map<string, EipRow>, byNode: map<string, seq<string>>, byCert: map<string, seq<string>>)
    returns (byEip': map<string, EipRow>, byNode': map<string, seq<string>>, byCert': map<string, seq<string>>)
    requires Holds(ids, ps, byEip, byNode, byCert) && Hosted(ps)
    requires Trim(row.host) != "" && (allowed == {} || row.account in allowed) && origins == OriginIps(row.origins)
    ensures Holds(ids, if Linked(ids, allowed, Some(row), e) then ps + [Pair(row, e.value)] else ps,
                  byEip', byNode', byCert')
  {
    byEip', byNode', byCert' := byEip, byNode, byCert;
    if e.None? { return; }
    var pub := Trim(e.value.ip);
    if pub == "" || pub !in origins { return; }
    if EipKey(ids, e.value.id) == "" { return; }
    byEip', byNode', byCert' := BindPair(ids, ps, Pair(row, e.value), byEip, byNode, byCert);
  }

  lemma HostedAppend(a: seq<Pair>, b: seq<Pair>)
    requires Hosted(a) && Hosted(b)
    ensures Hosted(a + b)
  {}

  lemma {:induction false} RowHosted(ids: IdScheme, allowed: set<string>, row: Option<WafRow>, eips: seq<Option<Eip>>)
    ensures Hosted(RowPairs(ids, allowed, row, eips))
  {
    forall p | p in RowPairs(ids, allowed, row, eips) ensures Trim(p.row.host) != "" {
      RowPairsMembers(ids, allowed, row, eips, p);
    }
  }

  lemma RowPairsStep(ids: IdScheme, allowed: set<string>, row: Option<WafRow>, eips: seq<Option<Eip>>,
                     before: seq<Pair>, j: nat)
    requires j < |eips|
    ensures before + RowPairs(ids, allowed, row, eips[..j + 1]) ==
            if Linked(ids, allowed, row, eips[j])
            then before + RowPairs(ids, allowed, row, eips[..j]) + [Pair(row.value, eips[j].value)]
            else before + RowPairs(ids, allowed, row, eips[..j])
  {
    assert eips[..j + 1][..j] == eips[..j];
  }

  /** One turn of the outer loop. */
  method BindRow(ids: IdScheme, ghost before: seq<Pair>, eips: seq<Option<Eip>>, row: Option<WafRow>,
                 allowed: set<string>,
                 byEip0: map<string, EipRow>, byNode0: map<string, seq<string>>, byCert0: map<string, seq<string>>)
    returns (byEip: map<string, EipRow>, byNode: map<string, seq<string>>, byCert: map<string, seq<string>>)
    requires Holds(ids, before, byEip0, byNode0, byCert0) && Hosted(before)
    ensures Holds(ids, before + RowPairs(ids, allowed, row, eips), byEip, byNode, byCert)
  {
    byEip, byNode, byCert := byEip0, byNode0, byCert0;
    if row.None? || Trim(row.value.host) == "" { Unlinked(ids, allowed, row, eips); return; }
    if allowed != {} && row.value.account !in allowed { Unlinked(ids, allowed, row, eips); return; }
    var origins := ParseOriginIps(row.value.origins);
    if origins == [] { Unlinked(ids, allowed, row, eips); return; }
    byEip, byNode, byCert := BindEips(ids, before, eips, row.value, allowed, origins, byEip, byNode, byCert);
  }

  /** The inner loop. */
  method BindEips(ids: IdScheme, ghost before: seq<Pair>, eips: seq<Option<Eip>>, row: WafRow, allowed: set<string>,
                  origins: seq<string>,
                  byEip0: map<string, EipRow>, byNode0: map<string, seq<string>>, byCert0: map<string, seq<string>>)
    returns (byEip: map<string, EipRow>, byNode: map<string, seq<string>>, byCert: map<string, seq<string>>)
    requires Holds(ids, before, byEip0, byNode0, byCert0) && Hosted(before)
    requires Trim(row.host) != "" && (allowed == {} || row.account in allowed) && origins == OriginIps(row.origins)
    ensures Holds(ids, before + RowPairs(ids, allowed, Some(row), eips), byEip, byNode, byCert)
  {
    byEip, byNode, byCert := byEip0, byNode0, byCert0;
    assert before + [] == before;
    for j := 0 to |eips|
      invariant Holds(ids, before + RowPairs(ids, allowed, Some(row), eips[..j]), byEip, byNode, byCert)
    {
      ghost var ps := before + RowPairs(ids, allowed, Some(row), eips[..j]);
      RowHosted(ids, allowed, Some(row), eips[..j]);
      HostedAppend(before, RowPairs(ids, allowed, Some(row), eips[..j]));
      RowPairsStep(ids, allowed, Some(row), eips, before, j);
      byEip, byNode, byCert := TryBind(ids, allowed, ps, row, origins, eips[j], byEip, byNode, byCert);
    }
    assert eips[..|eips|] == eips;
  }

  /** A row that fails one of the early tests matches nothing. */
  lemma Unlinked(ids: IdScheme, allowed: set<string>, row: Option<WafRow>, eips: seq<Option<Eip>>)
    requires row.None? || Trim(row.value.host) == "" || (allowed != {} && row.value.account !in allowed) ||
             OriginIps(row.value.origins) == []
    ensures forall b: seq<Pair> {:trigger b + RowPairs(ids, allowed, row, eips)} ::
              b + RowPairs(ids, allowed, row, eips) == b
  {
    if RowPairs(ids, allowed, row, eips) != [] {
      RowPairsMembers(ids, allowed, row, eips, RowPairs(ids, allowed, row, eips)[0]);
      assert false;
    }
  }

  function Allowed(accounts: seq<string>): set<string> { set a | a in accounts }

  /** `Build`, up to the lists it makes of the tables. */
  method Build(ids: IdScheme, eips: seq<Option<Eip>>, rows: seq<Option<WafRow>>, accounts: seq<string>)
    returns (byEip: map<string, EipRow>, byNode: map<string, seq<string>>, byCert: map<string, seq<string>>)
    ensures Holds(ids, Pairs(ids, Allowed(accounts), rows, eips), byEip, byNode, byCert)
  {
    var allowed := Allowed(accounts);
    byEip, byNode, byCert := map[], map[], map[];
    for i := 0 to |rows|
      invariant Holds(ids, Pairs(ids, allowed, rows[..i], eips), byEip, byNode, byCert)
    {
      ghost var before := Pairs(ids, allowed, rows[..i], eips);
      PairsHosted(ids, allowed, rows[..i], eips);
      assert rows[..i + 1][..i] == rows[..i];
      byEip, byNode, byCert := BindRow(ids, before, eips, rows[i], allowed, byEip, byNode, byCert);
    }
    assert rows[..|rows|] == rows;
  }
}
