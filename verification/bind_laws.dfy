/** Laws of the firewall binding: the order of rows, the account filter, the certificate key. */
module BindLaws {
  import opened Text
  import opened Ids
  import opened Records
  import opened Decimal
  import opened Origins
  import opened Group
  import opened Bind

  // ---------- order ----------

  /** Any order of the same rows binds the same keys to the same domains. */
  lemma OrderDoesNotMatter(ids: IdScheme, t: Table, allowed: set<string>, a: seq<Option<WafRow>>,
                           b: seq<Option<WafRow>>,
                           eips: seq<Option<Eip>>, key: string)
    requires forall r :: r in a <==> r in b
    ensures var m, n := Bound(ids, t, Pairs(ids, allowed, a, eips)), Bound(ids, t, Pairs(ids, allowed, b, eips));
            && (key in m <==> key in n)
            && forall d {:trigger d in ListAt(m, key)} :: d in ListAt(m, key) <==> d in ListAt(n, key)
  {
    hide Bound, Pairs, Clean, HostUnder;
    var m, n := Bound(ids, t, Pairs(ids, allowed, a, eips)), Bound(ids, t, Pairs(ids, allowed, b, eips));
    BuildIsJoin(ids, t, allowed, a, eips, key);
    BuildIsJoin(ids, t, allowed, b, eips, key);
    forall d ensures d in ListAt(m, key) <==> d in ListAt(n, key) {
      JoinedSwap(ids, t, allowed, a, b, eips, key, d);
    }
    if key in m { assert ListAt(m, key)[0] in ListAt(n, key); }
    if key in n { assert ListAt(n, key)[0] in ListAt(m, key); }
  }

  lemma JoinedSwap(ids: IdScheme, t: Table, allowed: set<string>, a: seq<Option<WafRow>>, b: seq<Option<WafRow>>,
                   eips: seq<Option<Eip>>, key: string, d: string)
    requires forall r :: r in a <==> r in b
    ensures HostUnder(ids, t, allowed, a, eips, key, d) <==> HostUnder(ids, t, allowed, b, eips, key, d)
  {
    hide Serves, Trim, FiledUnder;
    assert forall row, e :: Meets(ids, allowed, a, eips, row, e) <==> Meets(ids, allowed, b, eips, row, e);
  }

  // ---------- the account filter ----------

  function TrimmedNames(accounts: seq<string>): set<string> {
    set a | a in accounts && Trim(a) != "" :: Trim(a)
  }

  function Kept(rows: seq<Option<WafRow>>, allowed: set<string>): seq<Option<WafRow>>
    decreases |rows|
  {
    if rows == [] then []
    else
      var kept, last := Kept(rows[..|rows| - 1], allowed), rows[|rows| - 1];
      if last.Some? && last.value.account in allowed then kept + [last] else kept
  }

  /** What `FilterWAFRows` returns: nothing when no account name is left. */
  function Filtered(rows: seq<Option<WafRow>>, accounts: seq<string>): seq<Option<WafRow>> {
    if TrimmedNames(accounts) == {} then [] else Kept(rows, TrimmedNames(accounts))
  }

  method FilterRows(rows: seq<Option<WafRow>>, accounts: seq<string>) returns (out: seq<Option<WafRow>>)
    ensures out == Filtered(rows, accounts)
  {
    var allowed: set<string> := {};
    for i := 0 to |accounts|
      invariant allowed == TrimmedNames(accounts[..i])
    {
      assert accounts[..i + 1] == accounts[..i] + [accounts[i]];
      var a := Trim(accounts[i]);
      if a != "" { allowed := allowed + {a}; }
    }
    assert accounts[..|accounts|] == accounts;
    if allowed == {} { return []; }
    out := [];
    for i := 0 to |rows|
      invariant out == Kept(rows[..i], allowed)
    {
      assert rows[..i + 1][..i] == rows[..i];
      if rows[i].None? || rows[i].value.account !in allowed { continue; }
      out := out + [rows[i]];
    }
    assert rows[..|rows|] == rows;
  }

  /** Filtering first changes nothing when the filter keeps every account that binding allows. */
  lemma {:induction false} FilterFirst(ids: IdScheme, rows: seq<Option<WafRow>>, eips: seq<Option<Eip>>,
                                       allowed: set<string>, wider: set<string>)
    requires allowed != {} && allowed <= wider
    ensures Pairs(ids, allowed, Kept(rows, wider), eips) == Pairs(ids, allowed, rows, eips)
    decreases |rows|
  {
    if rows != [] {
      var init, last := rows[..|rows| - 1], rows[|rows| - 1];
      FilterFirst(ids, init, eips, allowed, wider);
      if last.Some? && last.value.account in wider {
        assert (Kept(init, wider) + [last])[..|Kept(init, wider)|] == Kept(init, wider);
      } else {
        Unlinked(ids, allowed, last, eips);
        assert Pairs(ids, allowed, init, eips) + RowPairs(ids, allowed, last, eips) == Pairs(ids, allowed, init, eips);
      }
    }
  }

  predicate PathsAgree(ids: IdScheme, accounts: seq<string>, rows: seq<Option<WafRow>>, eips: seq<Option<Eip>>) {
    Pairs(ids, Allowed(accounts), Filtered(rows, accounts), eips) == Pairs(ids, Allowed(accounts), rows, eips)
  }

  lemma FilterKeepsAllowed(ids: IdScheme, accounts: seq<string>, rows: seq<Option<WafRow>>, eips: seq<Option<Eip>>)
    requires accounts != [] && Allowed(accounts) <= TrimmedNames(accounts)
    ensures PathsAgree(ids, accounts, rows, eips)
  {
    assert accounts[0] in Allowed(accounts);
    FilterFirst(ids, rows, eips, Allowed(accounts), TrimmedNames(accounts));
  }

  /** `AccountNamesFromEnv`. */
  function EnvNames(raw: string): seq<string> { CleanList(Split(Trim(raw), ',')) }

  /** The live path and the snapshot path agree: with the configured account names, as long as there
      is one, binding the filtered rows is binding all rows. */
  lemma LiveAgreesWithSnapshot(ids: IdScheme, raw: string, rows: seq<Option<WafRow>>, eips: seq<Option<Eip>>)
    requires EnvNames(raw) != []
    ensures PathsAgree(ids, EnvNames(raw), rows, eips)
  {
    var accounts := EnvNames(raw);
    forall a | a in Allowed(accounts) ensures a in TrimmedNames(accounts) { assert Trim(a) == a; }
    FilterKeepsAllowed(ids, accounts, rows, eips);
  }

  /** A row of the given account and an EIP that match each other. */
  function Probe(account: string): WafRow { WafRow("h", account, "", "1") }
  function Target(): Eip { Eip("e", "1", "", "", "", map[]) }

  lemma ProbeOrigin()
    ensures "1" in OriginIps("1")
  {
    SplitWhole("1", ',');
    assert Split("1", ',') == ["1"];
    BareAddress("1");
    OriginListed("1", "1");
  }

  lemma ProbeTexts()
    ensures Trim("1") == "1" && Trim("h") == "h" && Trim("e") == "e"
  {
    assert Trimmed("1") && Trimmed("h") && Trimmed("e");
  }

  lemma ProbeLinked(ids: IdScheme, account: string, allowed: set<string>)
    requires allowed == {} || account in allowed
    ensures Linked(ids, allowed, Some(Probe(account)), Some(Target()))
  {
    ProbeOrigin();
    ProbeTexts();
  }

  lemma ProbeLinks(ids: IdScheme, account: string, allowed: set<string>)
    requires allowed == {} || account in allowed
    ensures Pairs(ids, allowed, [Some(Probe(account))], [Some(Target())]) == [Pair(Probe(account), Target())]
  {
    ProbeLinked(ids, account, allowed);
    assert [Some(Target())][..0] == [] && [Some(Probe(account))][..0] == [];
  }

  ghost predicate AlwaysAgree(ids: IdScheme, accounts: seq<string>) {
    forall rows: seq<Option<WafRow>>, eips: seq<Option<Eip>> :: PathsAgree(ids, accounts, rows, eips)
  }

  lemma NoPairs(ids: IdScheme, allowed: set<string>, eips: seq<Option<Eip>>)
    ensures Pairs(ids, allowed, [], eips) == []
  {}

  /** An account that binding allows and the filter drops makes the two paths differ. */
  lemma PathsDiffer(ids: IdScheme, accounts: seq<string>, a: string)
    requires a !in TrimmedNames(accounts) && (Allowed(accounts) == {} || a in Allowed(accounts))
    ensures !AlwaysAgree(ids, accounts)
  {
    hide Pairs, Linked, Trim;
    NoPairs(ids, Allowed(accounts), [Some(Target())]);
    var rows := [Some(Probe(a))];
    ProbeLinks(ids, a, Allowed(accounts));
    assert rows[..0] == [];
    assert Kept(rows, TrimmedNames(accounts)) == [];
    assert !PathsAgree(ids, accounts, rows, [Some(Target())]);
  }

  /** The two paths agree on all rows and EIPs exactly when there is an account name and the list
      holds the trimmed form of each of its names. */
  lemma FilterAgreesIff(ids: IdScheme, accounts: seq<string>)
    ensures AlwaysAgree(ids, accounts) <==> accounts != [] && Allowed(accounts) <= TrimmedNames(accounts)
  {
    if accounts == [] {
      PathsDiffer(ids, accounts, "");
    } else if a :| a in Allowed(accounts) && a !in TrimmedNames(accounts) {
      PathsDiffer(ids, accounts, a);
    } else {
      forall rows: seq<Option<WafRow>>, eips: seq<Option<Eip>> ensures PathsAgree(ids, accounts, rows, eips) {
        FilterKeepsAllowed(ids, accounts, rows, eips);
      }
    }
  }

  // ---------- certificates ----------

  /** `strings.SplitN(key, "|", 2)` when the key contains the separator. */
  function SplitBar(key: string): (r: Option<(string, string)>)
    ensures r.Some? <==> '|' in key
    ensures r.Some? ==> key == r.value.0 + "|" + r.value.1 && '|' !in r.value.0
  {
    if key == "" then None
    else if key[0] == '|' then Some(("", key[1..]))
    else
      var r := SplitBar(key[1..]);
      if r.None? then None else Some(([key[0]] + r.value.0, r.value.1))
  }

  lemma BarUnique(a: string, c: string, a': string, c': string)
    requires a + "|" + c == a' + "|" + c' && '|' !in a && '|' !in a'
    ensures a == a' && c == c'
  {
    var s := a + "|" + c;
    assert s[..|a|] == a && s[..|a'|] == a' && s[|a|] == '|' && s[|a'|] == '|';
    NotBefore(s, '|', |a|);
    NotBefore(s, '|', |a'|);
    assert a == s[..|a|] == a' && c == s[|a| + 1..] == c';
  }

  /** The certificate key is read back as account and name exactly when the account has no bar. */
  lemma CertKeyRoundTrip(account: string, cert: string)
    ensures SplitBar(CertKey(account, cert)) == Some((account, Trim(cert))) <==> '|' !in account
  {
    var key := CertKey(account, cert);
    assert key[|account|] == '|';
    if '|' !in account {
      var r := SplitBar(key).value;
      BarUnique(account, Trim(cert), r.0, r.1);
    }
  }

  datatype CertJob = CertJob(account: string, cert: string, domains: seq<string>)

  /** The jobs of a certificate table, in whatever order the map is walked. */
  method CertJobs(byCert: map<string, seq<string>>) returns (jobs: seq<CertJob>)
    ensures forall j :: j in jobs <==> JobOf(byCert, j)
  {
    jobs := [];
    var keys := byCert.Keys;
    while keys != {}
      invariant keys <= byCert.Keys
      invariant forall j :: j in jobs <==> JobOf(byCert, j) && j.account + "|" + j.cert !in keys
    {
      var ck :| ck in keys;
      var parts := SplitBar(ck);
      ghost var before := jobs;
      if parts.Some? {
        jobs := jobs + [CertJob(parts.value.0, parts.value.1, byCert[ck])];
      }
      forall j ensures j in jobs <==> JobOf(byCert, j) && j.account + "|" + j.cert !in keys - {ck} {
        if parts.Some? && j.account + "|" + j.cert == ck && '|' !in j.account {
          BarUnique(j.account, j.cert, parts.value.0, parts.value.1);
        }
      }
      keys := keys - {ck};
    }
  }

  /** A job is a table entry under its account and certificate. */
  predicate JobOf(byCert: map<string, seq<string>>, j: CertJob) {
    var key := j.account + "|" + j.cert;
    '|' !in j.account && key in byCert && j.domains == byCert[key]
  }

  ghost predicate Says(jobs: seq<CertJob>, a: string, c: string, d: string) {
    exists j :: j in jobs && j.account == a && j.cert == c && d in j.domains
  }

  ghost predicate Matched(ps: seq<Pair>, a: string, c: string, d: string) {
    exists p :: p in ps && p.row.account == a && Trim(p.row.cert) == c && c != "" && Trim(p.row.host) == d
  }

  /** A match enters the domain under the key of the account and certificate. */
  predicate Makes(ps: seq<Pair>, p: Pair, a: string, c: string, d: string) {
    p in ps && Trim(p.row.cert) != "" && CertKey(p.row.account, p.row.cert) == a + "|" + c && Trim(p.row.host) == d
  }

  lemma JobSays(ids: IdScheme, ps: seq<Pair>, jobs: seq<CertJob>, a: string, c: string, d: string)
    requires forall j :: j in jobs <==> JobOf(Bound(ids, ByCert, ps), j)
    ensures Says(jobs, a, c, d) <==>
            '|' !in a && exists p :: Makes(ps, p, a, c, d)
  {
    var key, m := a + "|" + c, Bound(ids, ByCert, ps);
    FilledHolds(Entries(ids, ByCert, ps), key);
    EntriesMembers(ids, ByCert, ps, Entry(key, d));
    assert d in ListAt(m, key) <==> Entry(key, d) in Entries(ids, ByCert, ps);
    if '|' !in a && d in ListAt(m, key) {
      assert JobOf(m, CertJob(a, c, m[key]));
      var p :| p in ps && Keyed(ids, ByCert, p) == Some(key) && Trim(p.row.host) == d;
      assert Makes(ps, p, a, c, d);
    }
    if p :| Makes(ps, p, a, c, d) { assert Keyed(ids, ByCert, p) == Some(key); }
  }

  /** The certificate jobs name exactly the account, certificate and domain of every match, if and
      only if no matched account with a certificate contains the key separator. */
  lemma CertJobsExact(ids: IdScheme, ps: seq<Pair>, jobs: seq<CertJob>)
    requires forall j :: j in jobs <==> JobOf(Bound(ids, ByCert, ps), j)
    ensures (forall a, c, d :: Says(jobs, a, c, d) <==> Matched(ps, a, c, d)) <==>
            (forall p :: p in ps && Trim(p.row.cert) != "" ==> '|' !in p.row.account)
  {
    if p :| p in ps && Trim(p.row.cert) != "" && '|' in p.row.account {
      var a, c, d := p.row.account, Trim(p.row.cert), Trim(p.row.host);
      JobSays(ids, ps, jobs, a, c, d);
      assert Matched(ps, a, c, d) && !Says(jobs, a, c, d);
    } else {
      forall a, c, d ensures Says(jobs, a, c, d) <==> Matched(ps, a, c, d) {
        JobSays(ids, ps, jobs, a, c, d);
        if Says(jobs, a, c, d) {
          var p :| Makes(ps, p, a, c, d);
          BarUnique(p.row.account, Trim(p.row.cert), a, c);
        }
        if p :| p in ps && p.row.account == a && Trim(p.row.cert) == c && c != "" && Trim(p.row.host) == d {
          assert Makes(ps, p, a, c, d);
        }
      }
    }
  }

  /** Two different certificates whose keys collide: their domains end up in one list. */
  lemma CertKeysCollide()
    ensures CertKey("a|b", "c") == CertKey("a", "b|c")
  {
    assert Trim("c") == "c" && Trim("b|c") == "b|c";
  }
}
