/** Outcome accounting: per-component counters, the capped failure list, and the system status. */
module Stats {
  import opened Text
  import opened Decimal

  datatype Failure = Failure(resourceId: string, reason: string)

  datatype Tally = Tally(
    added: nat, updated: nat, skipped: nat, deleted: nat, errors: nat,
    failedIds: seq<string>, failures: seq<Failure>)

  const ZERO := Tally(0, 0, 0, 0, 0, [], [])

  const MAX_FAILURE_ENTRIES := 100

  function Total(t: Tally): nat {
    t.added + t.updated + t.skipped + t.deleted + t.errors
  }

  function OverflowReason(n: int): string {
    "… 另有 " + Itoa(n) + " 条失败未展开"
  }

  /** The reason tells the number. */
  lemma OverflowTells(a: nat, b: nat)
    ensures OverflowReason(a) == OverflowReason(b) <==> a == b
  {
    var head, tail, x, y := "… 另有 ", " 条失败未展开", Itoa(a), Itoa(b);
    if OverflowReason(a) == OverflowReason(b) {
      assert (head + x + tail)[|head|..|head| + |x|] == x && (head + y + tail)[|head|..|head| + |y|] == y;
      NumberOfDigits(a);
      NumberOfDigits(b);
    }
  }

  /** `noteError` as a function of the receiver. */
  function Noted(t: Tally, resourceId: string, reason: string): Tally {
    var id := Trim(resourceId);
    var why := if Trim(reason) == "" then "unknown error" else Trim(reason);
    var n := |t.failures|;
    t.(errors := t.errors + 1,
       failedIds := if id != "" then t.failedIds + [id] else t.failedIds,
       failures := if n < MAX_FAILURE_ENTRIES then t.failures + [Failure(id, why)]
                   else if n == MAX_FAILURE_ENTRIES
                     then t.failures + [Failure("", OverflowReason(t.errors + 1 - MAX_FAILURE_ENTRIES))]
                   else t.failures)
  }

  /** `mergeComponentStats` as a function. */
  function Merged(a: Tally, b: Tally): (m: Tally)
    ensures Total(m) == Total(a) + Total(b)
  {
    Tally(a.added + b.added, a.updated + b.updated, a.skipped + b.skipped, a.deleted + b.deleted,
          a.errors + b.errors, a.failedIds + b.failedIds, a.failures + b.failures)
  }

  /** What errors and merges keep: never more failed ids or listed failures than errors, and a listed
      failure exactly when there is an error. */
  predicate Within(t: Tally) {
    |t.failedIds| <= t.errors && |t.failures| <= t.errors && (t.errors > 0 <==> t.failures != [])
  }

  /** The counters that no error touches. */
  function Successes(t: Tally): (nat, nat, nat, nat) { (t.added, t.updated, t.skipped, t.deleted) }

  /** The mutable counters of one component. */
  class ComponentStats {
    var tally: Tally

    ghost predicate Valid() reads this { Within(tally) }

    constructor ()
      ensures Valid() && Total(tally) == 0
    {
      tally := ZERO;
    }

    /** One more error.  Nothing noted before is lost or changed; a non-blank id joins the failed ids;
        the failure is listed under its trimmed id while there is room, and the list stops growing
        one entry after that. */
    method NoteError(resourceId: string, reason: string)
      requires Valid()
      modifies this
      ensures Valid() && tally == Noted(old(tally), resourceId, reason)
      ensures tally.errors == old(tally).errors + 1 && Successes(tally) == Successes(old(tally))
      ensures old(tally).failedIds <= tally.failedIds && old(tally).failures <= tally.failures
      ensures tally.failedIds[|old(tally).failedIds|..] == if Inked(resourceId) then [Trim(resourceId)] else []
      ensures |old(tally).failures| < MAX_FAILURE_ENTRIES ==>
                exists why :: Inked(why) && (Inked(reason) ==> why == Trim(reason)) &&
                              tally.failures == old(tally).failures + [Failure(Trim(resourceId), why)]
      ensures |old(tally).failures| > MAX_FAILURE_ENTRIES ==> tally.failures == old(tally).failures
      ensures |tally.failures| <= MAX_FAILURE_ENTRIES + 1 || |tally.failures| == |old(tally).failures|
    {
      hide Trim, OverflowReason;
      var t := tally.(errors := tally.errors + 1);
      var id, why := Trim(resourceId), Trim(reason);
      if why == "" { why := "unknown error"; }
      assert Inked(why) by { InkedWhy(reason, why); }
      if |t.failures| < MAX_FAILURE_ENTRIES {
        t := t.(failures := t.failures + [Failure(id, why)]);
      } else if |t.failures| == MAX_FAILURE_ENTRIES {
        t := t.(failures := t.failures + [Failure("", OverflowReason(t.errors - MAX_FAILURE_ENTRIES))]);
      }
      if id != "" { t := t.(failedIds := t.failedIds + [id]); }
      tally := t;
    }

    /** Another component's counters on top: all sums, and both lists in full, this one's first. */
    method Merge(b: Tally)
      requires Valid() && Within(b)
      modifies this
      ensures Valid() && tally == Merged(old(tally), b) && Total(tally) == Total(old(tally)) + Total(b)
      ensures old(tally).failures <= tally.failures && tally.failures[|old(tally).failures|..] == b.failures
      ensures old(tally).failedIds <= tally.failedIds && tally.failedIds[|old(tally).failedIds|..] == b.failedIds
    {
      tally := Tally(tally.added + b.added, tally.updated + b.updated, tally.skipped + b.skipped,
                     tally.deleted + b.deleted, tally.errors + b.errors,
                     tally.failedIds + b.failedIds, tally.failures + b.failures);
    }
  }

  lemma InkedWhy(reason: string, why: string)
    requires why == if Trim(reason) == "" then "unknown error" else Trim(reason)
    ensures Inked(why)
  {
    assert !IsSpace("unknown error"[0]);
  }

  /** How a component's counters come about. */
  datatype Story =
    | Untouched
    | Counted(before: Story, added: nat, updated: nat, skipped: nat, deleted: nat)
    | Failed(before: Story, resourceId: string, reason: string)
    | Joined(left: Story, right: Story)

  function Tell(s: Story): Tally {
    match s
    case Untouched => ZERO
    case Counted(b, a, u, k, d) =>
      var t := Tell(b);
      t.(added := t.added + a, updated := t.updated + u, skipped := t.skipped + k, deleted := t.deleted + d)
    case Failed(b, id, why) => Noted(Tell(b), id, why)
    case Joined(l, r) => Merged(Tell(l), Tell(r))
  }

  predicate Unjoined(s: Story) {
    match s
    case Untouched => true
    case Counted(b, _, _, _, _) => Unjoined(b)
    case Failed(b, _, _) => Unjoined(b)
    case Joined(_, _) => false
  }

  /** Under any mix of errors and merges there are at most as many failed ids and failure entries as
      errors, and none without an error. */
  lemma {:induction false} FailuresBounded(s: Story)
    ensures Within(Tell(s))
  {
    match s
    case Untouched =>
    case Counted(b, _, _, _, _) => FailuresBounded(b);
    case Failed(b, _, _) => FailuresBounded(b);
    case Joined(l, r) => FailuresBounded(l); FailuresBounded(r);
  }

  /** Before merges the list is complete up to 100 errors and then carries one overflow entry, whose
      count is 1 however many errors follow. */
  lemma {:induction false} OverflowCountsOne(s: Story)
    requires Unjoined(s)
    ensures var t := Tell(s);
            && |t.failures| == (if t.errors <= MAX_FAILURE_ENTRIES then t.errors else MAX_FAILURE_ENTRIES + 1)
            && (t.errors > MAX_FAILURE_ENTRIES ==>
                  t.failures[MAX_FAILURE_ENTRIES] == Failure("", OverflowReason(1)))
  {
    match s
    case Untouched =>
    case Counted(b, _, _, _, _) => OverflowCountsOne(b);
    case Failed(b, _, _) => OverflowCountsOne(b);
  }

  /** The entry states the number of failures that are not listed exactly while that is one. */
  lemma OverflowEntry(s: Story)
    requires Unjoined(s) && Tell(s).errors > MAX_FAILURE_ENTRIES
    ensures var t := Tell(s);
            && |t.failures| == MAX_FAILURE_ENTRIES + 1
            && (t.failures[MAX_FAILURE_ENTRIES] == Failure("", OverflowReason(t.errors - MAX_FAILURE_ENTRIES)) <==>
                t.errors == MAX_FAILURE_ENTRIES + 1)
  {
    hide OverflowReason;
    OverflowCountsOne(s);
    OverflowTells(1, Tell(s).errors - MAX_FAILURE_ENTRIES);
  }

  // ---------- the status of a system ----------

  /** The counters of one system pass: nine components, middleware among them, and the middleware
      errors once more by type. */
  datatype SystemTally = SystemTally(
    systemNode: Tally, k8s: Tally, host: Tally, middleware: Tally, eip: Tally, elb: Tally,
    wafDomain: Tally, certificate: Tally, billing: Tally, byType: map<string, Tally>)

  function Parts(s: SystemTally): seq<Tally> {
    [s.systemNode, s.k8s, s.host, s.middleware, s.eip, s.elb, s.wafDomain, s.certificate, s.billing]
  }

  /** `noteMwErr`: a middleware error counts in the component and under its type. */
  function NotedMiddleware(s: SystemTally, mwType: string, resourceId: string, reason: string): SystemTally {
    var k := if Trim(mwType) == "" then "Middleware" else Trim(mwType);
    var t := if k in s.byType then s.byType[k] else ZERO;
    s.(middleware := Noted(s.middleware, resourceId, reason),
       byType := s.byType[k := Noted(t, resourceId, reason)])
  }

  /** The errors counted under the given types. */
  ghost function TypeErrors(m: map<string, Tally>, keys: set<string>): nat
    requires keys <= m.Keys
  {
    if keys == {} then 0
    else
      var k :| k in keys;
      m[k].errors + TypeErrors(m, keys - {k})
  }

  /** The sum does not depend on the order in which the types are taken. */
  lemma {:induction false} TypeErrorsTake(m: map<string, Tally>, keys: set<string>, k: string)
    requires keys <= m.Keys && k in keys
    ensures TypeErrors(m, keys) == m[k].errors + TypeErrors(m, keys - {k})
    decreases |keys|
  {
    var first :| first in keys && TypeErrors(m, keys) == m[first].errors + TypeErrors(m, keys - {first});
    if first != k {
      TypeErrorsTake(m, keys - {first}, k);
      TypeErrorsTake(m, keys - {k}, first);
      assert keys - {first} - {k} == keys - {k} - {first};
    }
  }

  lemma {:induction false} TypeErrorsSame(m: map<string, Tally>, n: map<string, Tally>, keys: set<string>)
    requires keys <= m.Keys && keys <= n.Keys && forall k :: k in keys ==> m[k].errors == n[k].errors
    ensures TypeErrors(m, keys) == TypeErrors(n, keys)
    decreases |keys|
  {
    if keys != {} {
      var k :| k in keys;
      TypeErrorsTake(m, keys, k);
      TypeErrorsTake(n, keys, k);
      TypeErrorsSame(m, n, keys - {k});
    }
  }

  /** Errors counted under types are also counted in the middleware component, where reconciliation
      adds errors without type. */
  ghost predicate TypesWithin(s: SystemTally) {
    TypeErrors(s.byType, s.byType.Keys) <= s.middleware.errors
  }

  /** A middleware error is counted once under some type and once in the component. */
  lemma TypesWithinNoted(s: SystemTally, mwType: string, resourceId: string, reason: string)
    ensures var n := NotedMiddleware(s, mwType, resourceId, reason);
            && TypeErrors(n.byType, n.byType.Keys) == TypeErrors(s.byType, s.byType.Keys) + 1
            && n.middleware.errors == s.middleware.errors + 1
            && (TypesWithin(s) ==> TypesWithin(n))
  {
    hide TypeErrors, OverflowReason;
    var n := NotedMiddleware(s, mwType, resourceId, reason);
    var k := if Trim(mwType) == "" then "Middleware" else Trim(mwType);
    TypeErrorsTake(n.byType, n.byType.Keys, k);
    var rest := s.byType.Keys - {k};
    assert n.byType.Keys - {k} == rest;
    TypeErrorsSame(s.byType, n.byType, rest);
    if k in s.byType { TypeErrorsTake(s.byType, s.byType.Keys, k); } else { assert rest == s.byType.Keys; }
  }

  lemma {:induction false} TypeErrorsZero(m: map<string, Tally>, keys: set<string>)
    requires keys <= m.Keys
    ensures TypeErrors(m, keys) == 0 <==> forall k :: k in keys ==> m[k].errors == 0
    decreases |keys|
  {
    if keys != {} {
      var k :| k in keys;
      TypeErrorsTake(m, keys, k);
      TypeErrorsZero(m, keys - {k});
    }
  }

  function ComponentErrors(s: SystemTally): (n: nat)
    ensures n == 0 <==> forall i :: 0 <= i < 9 ==> Parts(s)[i].errors == 0
  {
    var p := Parts(s);
    assert p[0] == s.systemNode && p[1] == s.k8s && p[2] == s.host && p[3] == s.middleware && p[4] == s.eip;
    assert p[5] == s.elb && p[6] == s.wafDomain && p[7] == s.certificate && p[8] == s.billing;
    s.systemNode.errors + s.k8s.errors + s.host.errors + s.middleware.errors + s.eip.errors +
    s.elb.errors + s.wafDomain.errors + s.certificate.errors + s.billing.errors
  }

  /** `totalErrors`: the sum over the components and, once more, over the middleware types. */
  method TotalErrors(s: SystemTally) returns (n: nat)
    ensures n == ComponentErrors(s) + TypeErrors(s.byType, s.byType.Keys)
    ensures n == 0 <==> (forall i :: 0 <= i < 9 ==> Parts(s)[i].errors == 0) &&
                        (forall k :: k in s.byType ==> s.byType[k].errors == 0)
  {
    n := ComponentErrors(s);
    TypeErrorsZero(s.byType, s.byType.Keys);
    ghost var all := TypeErrors(s.byType, s.byType.Keys);
    var keys := s.byType.Keys;
    while keys != {}
      invariant keys <= s.byType.Keys
      invariant n + TypeErrors(s.byType, keys) == ComponentErrors(s) + all
    {
      var k :| k in keys;
      TypeErrorsTake(s.byType, keys, k);
      n := n + s.byType[k].errors;
      keys := keys - {k};
    }
  }

  datatype Outcome = Outcome(skipped: bool, earlyError: string, stats: SystemTally)

  datatype Status = Success | Skipped | Error | Failing

  /** The status `toSystemDetail` records: a system that was neither skipped nor cut short is
      reported as failed exactly when one of its components has an error, although middleware errors
      are summed twice. */
  method StatusOf(o: Outcome) returns (s: Status)
    requires TypesWithin(o.stats)
    ensures s == Skipped <==> o.skipped
    ensures s == Error <==> !o.skipped && o.earlyError != ""
    ensures s == Failing <==> !o.skipped && o.earlyError == "" && exists i :: 0 <= i < 9 && Parts(o.stats)[i].errors > 0
  {
    var n := TotalErrors(o.stats);
    assert Parts(o.stats)[3] == o.stats.middleware;
    if o.skipped { s := Skipped; }
    else if o.earlyError != "" { s := Error; }
    else if n > 0 { s := Failing; }
    else { s := Success; }
  }
}
