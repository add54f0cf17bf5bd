/** The allocator of system ids: a counter file replaced through a temporary file, merged with the
    largest suffix in use in the database, under failures, crashes and concurrent database changes. */
module Allocator {
  import opened Text
  import opened Decimal

  datatype Series = YH | D

  function Name(k: Series): string { if k.YH? then "YH" else "D" }
  function Prefix(k: Series): string { Name(k) + "-" }

  function Upper(s: string): string {
    seq(|s|, i requires 0 <= i < |s| => if 'a' <= s[i] <= 'z' then s[i] - 32 as char else s[i])
  }

  function SeriesOf(kind: string): Option<Series> {
    var k := Upper(Trim(kind));
    if k == "YH" then Some(YH) else if k == "D" then Some(D) else None
  }

  /** `fmt.Sprintf("%s-%06d", k, n)`. */
  function Format(k: Series, n: nat): string { Prefix(k) + Pad6(n) }

  // ---------- the largest suffix in the database ----------

  /** The number of an id of the form prefix and digits, if it fits 64 bits. */
  function Suffix(id: string, prefix: string): Option<nat> {
    if HasPrefix(id, prefix) then ParseUint(id[|prefix|..]) else None
  }

  function MaxSuffix(ids: seq<string>, prefix: string): (m: nat)
    ensures m < TWO64
    ensures forall id :: id in ids && Suffix(id, prefix).Some? ==> Suffix(id, prefix).value <= m
    ensures m > 0 ==> exists id :: id in ids && Suffix(id, prefix) == Some(m)
    decreases |ids|
  {
    if ids == [] then 0
    else
      var m, last := MaxSuffix(ids[..|ids| - 1], prefix), ids[|ids| - 1];
      assert ids == ids[..|ids| - 1] + [last];
      if Suffix(last, prefix).Some? && Suffix(last, prefix).value > m then Suffix(last, prefix).value else m
  }

  method OnlyDigits(tail: string) returns (ok: bool)
    ensures ok == AllDigits(tail)
  {
    for i := 0 to |tail|
      invariant forall j :: 0 <= j < i ==> '0' <= tail[j] <= '9'
    {
      if tail[i] < '0' || tail[i] > '9' { return false; }
    }
    ok := true;
  }

  /** `MaxSystemIDNumericSuffixForPrefix`. */
  method MaxSuffixInUse(ids: seq<string>, prefix: string) returns (max: nat)
    ensures max == MaxSuffix(ids, prefix)
  {
    max := 0;
    for i := 0 to |ids|
      invariant max == MaxSuffix(ids[..i], prefix)
    {
      assert ids[..i + 1][..i] == ids[..i];
      if !HasPrefix(ids[i], prefix) { continue; }
      var tail := ids[i][|prefix|..];
      if tail == "" { continue; }
      var ok := OnlyDigits(tail);
      if !ok { continue; }
      var n := ParseUint(tail);
      if n.None? { continue; }
      if n.value > max { max := n.value; }
    }
    assert ids[..|ids|] == ids;
  }

  /** The parser inverts the printer on every 64-bit number. */
  lemma SuffixOfFormat(k: Series, n: nat)
    requires n < TWO64
    ensures Suffix(Format(k, n), Prefix(k)) == Some(n)
  {
    ParseOfPad6(n);
    assert Format(k, n)[|Prefix(k)|..] == Pad6(n);
    assert HasPrefix(Format(k, n), Prefix(k));
  }

  /** An id is the kind asked for, a dash and the number, in six digits as long as these suffice. */
  predicate Spelled(id: string, kind: string, n: nat) {
    var k := Upper(Trim(kind));
    && (k == "YH" || k == "D") && HasPrefix(id, k + "-")
    && var digits := id[|k| + 1..];
    && AllDigits(digits) && Number(digits) == n && |digits| >= 6 && (n < 1_000_000 ==> |digits| == 6)
  }

  lemma FormatSpelled(kind: string, n: nat)
    requires SeriesOf(kind).Some?
    ensures Spelled(Format(SeriesOf(kind).value, n), kind, n)
  {
    hide Upper, Trim, Pad6;
    var k := SeriesOf(kind).value;
    assert Format(k, n)[|Name(k)| + 1..] == Pad6(n);
    assert Format(k, n)[..|Name(k)| + 1] == Name(k) + "-";
    Pad6Facts(n);
  }

  lemma KindsAre(kind: string)
    ensures SeriesOf(kind).Some? <==> Upper(Trim(kind)) == "YH" || Upper(Trim(kind)) == "D"
  {}

  // ---------- the counter file ----------

  datatype Disk = Disk(file: map<Series, string>, tmp: map<Series, string>)

  function Content(s: string): Option<nat> {
    if Trim(s) == "" then Some(0) else ParseUint(Trim(s))
  }

  /** `readUint`: a missing or blank file reads as 0. */
  function Counter(d: Disk, k: Series): (r: Option<nat>)
    ensures r.Some? ==> r.value < TWO64
  {
    if k in d.file then Content(d.file[k]) else Some(0)
  }

  function Line(n: nat): string { Digits(n) + "\n" }

  lemma ContentOfLine(n: nat)
    requires n < TWO64
    ensures Content(Line(n)) == Some(n)
  {
    var d, s := Digits(n), Line(n);
    TrimLeftFacts(s);
    assert s[0] == d[0] && !IsSpace(s[0]);
    assert TrimLeft(s) == s;
    assert IsSpace('\n') && s[..|s| - 1] == d;
    TrimRightFacts(d);
    assert !IsSpace(d[|d| - 1]);
    assert TrimRight(s) == TrimRight(d) == d;
    assert Trim(s) == d;
    ParseOfDigits(n);
  }

  function Last(d: Disk, k: Series, seen: seq<string>): nat
    requires Counter(d, k).Some?
  {
    var c, m := Counter(d, k).value, MaxSuffix(seen, Prefix(k));
    if m > c then m else c
  }

  /** The number that comes next, in 64-bit arithmetic. */
  function Fresh(d: Disk, k: Series, seen: seq<string>): (n: nat)
    requires Counter(d, k).Some?
    ensures n < TWO64
  {
    (Last(d, k, seen) + 1) % TWO64
  }

  /** What one call may do to the disk and return, when the database showed `seen`. */
  ghost predicate Step(a: Disk, b: Disk, kind: string, r: Option<string>, seen: seq<string>) {
    match SeriesOf(kind)
    case None => r.None? && b.file == a.file
    case Some(k) =>
      && (Counter(a, k).None? ==> r.None? && b.file == a.file)
      && (Counter(a, k).Some? ==>
            var n := Fresh(a, k, seen);
            && (b.file == a.file || b.file == a.file[k := Line(n)])
            && (r.Some? ==> r.value == Format(k, n) && b.file == a.file[k := Line(n)]))
  }

  /** The fate of a system call: the process may also die before or after it takes effect. */
  datatype Fate = Works | Fails | DiesBefore | DiesAfter

  /** The process, its directory and the table of systems.  Other processes may change the table
      whenever a call is made, in any way `drift` says; `cut` is how much of a failing write stays. */
  class Store {
    var disk: Disk
    var systems: seq<string>
    var calls: nat
    const fate: nat -> Fate
    const cut: nat -> nat
    const drift: (nat, seq<string>) -> seq<string>

    constructor (disk: Disk, systems: seq<string>, fate: nat -> Fate, cut: nat -> nat,
                 drift: (nat, seq<string>) -> seq<string>)
      ensures this.disk == disk && this.systems == systems
    {
      this.disk, this.systems, this.calls := disk, systems, 0;
      this.fate, this.cut, this.drift := fate, cut, drift;
    }

    /** No call ever fails. */
    ghost predicate Smooth() {
      forall n :: fate(n).Works?
    }

    method Call() returns (f: Fate)
      modifies this
      ensures disk == old(disk)
      ensures Smooth() ==> f.Works?
    {
      f := fate(calls);
      systems := drift(calls, systems);
      calls := calls + 1;
    }

    /** `readUint`. */
    method Read(k: Series) returns (r: Option<nat>)
      modifies this
      ensures disk == old(disk)
      ensures r.Some? ==> r == Counter(disk, k)
      ensures Smooth() ==> r == Counter(disk, k)
    {
      var f := Call();
      r := if f.Works? then Counter(disk, k) else None;
    }

    method QueryMax(k: Series) returns (r: Option<nat>, ghost seen: seq<string>)
      modifies this
      ensures disk == old(disk)
      ensures r.Some? ==> r.value == MaxSuffix(seen, Prefix(k))
      ensures Smooth() ==> r.Some?
    {
      var f := Call();
      seen := systems;
      var max := MaxSuffixInUse(systems, Prefix(k));
      r := if f.Works? then Some(max) else None;
    }

    /** `os.WriteFile` on the temporary file. */
    method WriteTmp(k: Series, data: string) returns (ok: bool)
      modifies this
      ensures disk.file == old(disk.file)
      ensures ok ==> k in disk.tmp && disk.tmp[k] == data
      ensures Smooth() ==> ok
    {
      var f := Call();
      ok := f.Works?;
      if !f.DiesBefore? {
        var n := cut(calls);
        var part := if f.Fails? && n < |data| then data[..n] else data;
        disk := disk.(tmp := disk.tmp[k := part]);
      }
    }

    /** `os.Rename`: the file is replaced in one step or not at all. */
    method Rename(k: Series) returns (ok: bool)
      requires k in disk.tmp
      modifies this
      ensures ok ==> disk.file == old(disk.file[k := disk.tmp[k]])
      ensures disk.file == old(disk.file) || disk.file == old(disk.file[k := disk.tmp[k]])
      ensures Smooth() ==> ok
    {
      var f := Call();
      ok := f.Works?;
      if f.Works? || f.DiesAfter? {
        disk := Disk(disk.file[k := disk.tmp[k]], disk.tmp - {k});
      } else if f.Fails? {
        disk := disk.(tmp := disk.tmp - {k});
      }
    }

    /** `Next`; dying in the middle of it returns nothing.  When no call fails, it returns an id for
        either kind as long as the counter can be read. */
    method Next(kind: string) returns (r: Option<string>, ghost seen: seq<string>)
      modifies this
      ensures Step(old(disk), disk, kind, r, seen)
      ensures r.Some? ==>
                && SeriesOf(kind).Some? && Counter(old(disk), SeriesOf(kind).value).Some?
                && Spelled(r.value, kind, Fresh(old(disk), SeriesOf(kind).value, seen))
      ensures Smooth() ==> (r.Some? <==> SeriesOf(kind).Some? && Counter(old(disk), SeriesOf(kind).value).Some?)
    {
      hide SeriesOf, Counter, MaxSuffix, Line, Format, Prefix, Spelled;
      seen := [];
      var series := SeriesOf(kind);
      if series.None? { return None, []; }
      var k := series.value;
      var fileN := Read(k);
      if fileN.None? { return None, []; }
      var dbMax;
      dbMax, seen := QueryMax(k);
      if dbMax.None? { return None, seen; }
      var last := if dbMax.value > fileN.value then dbMax.value else fileN.value;
      var n := (last + 1) % TWO64;
      var ok := WriteTmp(k, Line(n));
      if !ok { return None, seen; }
      ok := Rename(k);
      if !ok { return None, seen; }
      r := Some(Format(k, n));
      FormatSpelled(kind, n);
    }
  }

  // ---------- every run ----------

  /** Calls one after the other, across restarts, with any database contents in between. */
  datatype Run = Boot(disk: Disk) | Then(prev: Run, kind: string, r: Option<string>, seen: seq<string>, disk: Disk)

  ghost predicate Valid(run: Run) {
    run.Then? ==> Valid(run.prev) && Step(run.prev.disk, run.disk, run.kind, run.r, run.seen)
  }

  /** No call meets the last 64-bit number, neither in the file nor in the database. */
  ghost predicate Room(run: Run) {
    run.Then? ==>
      && Room(run.prev)
      && (SeriesOf(run.kind).Some? && Counter(run.prev.disk, SeriesOf(run.kind).value).Some? ==>
            Last(run.prev.disk, SeriesOf(run.kind).value, run.seen) < TWO64 - 1)
  }

  /** The numbers issued in a series, oldest first. */
  function Issued(run: Run, k: Series): seq<nat> {
    if run.Boot? then []
    else if SeriesOf(run.kind) == Some(k) && run.r.Some? && Counter(run.prev.disk, k).Some?
      then Issued(run.prev, k) + [Fresh(run.prev.disk, k, run.seen)]
    else Issued(run.prev, k)
  }

  predicate Increasing(s: seq<nat>) {
    forall i, j :: 0 <= i < j < |s| ==> s[i] < s[j]
  }

  /** A new number exceeds the counter and its id is absent from the database, exactly while there
      is room below 2^64. */
  lemma FreshIff(d: Disk, k: Series, seen: seq<string>)
    requires Counter(d, k).Some?
    ensures Fresh(d, k, seen) > Counter(d, k).value && Format(k, Fresh(d, k, seen)) !in seen <==>
            Last(d, k, seen) < TWO64 - 1
  {
    hide Counter, Suffix, Format, MaxSuffix, Prefix;
    SuffixOfFormat(k, Fresh(d, k, seen));
  }

  /** A call never lowers a counter, and raises it to the number it returns. */
  lemma CounterStep(a: Disk, b: Disk, kind: string, r: Option<string>, seen: seq<string>, k: Series)
    requires Step(a, b, kind, r, seen)
    requires SeriesOf(kind) == Some(k) && Counter(a, k).Some? ==> Last(a, k, seen) < TWO64 - 1
    ensures Counter(a, k).Some? ==> Counter(b, k).Some? && Counter(b, k).value >= Counter(a, k).value
    ensures SeriesOf(kind) == Some(k) && r.Some? ==>
              && Counter(a, k).Some? && Counter(b, k) == Some(Fresh(a, k, seen))
              && Fresh(a, k, seen) > Counter(a, k).value && Format(k, Fresh(a, k, seen)) !in seen
  {
    hide SeriesOf, MaxSuffix, Format, Prefix, Content, Line;
    if SeriesOf(kind) == Some(k) && Counter(a, k).Some? {
      FreshIff(a, k, seen);
      ContentOfLine(Fresh(a, k, seen));
    }
  }

  /** Everything issued stays at or below the counter, so the next number is new. */
  lemma {:induction false} CounterBounds(run: Run, k: Series)
    requires Valid(run) && Room(run)
    ensures Increasing(Issued(run, k))
    ensures Issued(run, k) != [] ==> Counter(run.disk, k).Some?
    ensures forall n :: n in Issued(run, k) ==> n <= Counter(run.disk, k).value
  {
    hide SeriesOf, Counter, Fresh, Last, Format, Step;
    if run.Then? {
      CounterBounds(run.prev, k);
      CounterStep(run.prev.disk, run.disk, run.kind, run.r, run.seen, k);
      var before := Issued(run.prev, k);
      assert forall i :: 0 <= i < |before| ==> before[i] in before;
    }
  }

  /** The ids issued in a series. */
  function Ids(run: Run, k: Series): seq<string> {
    if run.Boot? then []
    else if SeriesOf(run.kind) == Some(k) && run.r.Some? then Ids(run.prev, k) + [run.r.value]
    else Ids(run.prev, k)
  }

  lemma {:induction false} IdsAreFormatted(run: Run, k: Series)
    requires Valid(run)
    ensures |Ids(run, k)| == |Issued(run, k)|
    ensures forall i :: 0 <= i < |Ids(run, k)| ==>
              Issued(run, k)[i] < TWO64 && Ids(run, k)[i] == Format(k, Issued(run, k)[i])
  {
    if run.Then? { IdsAreFormatted(run.prev, k); }
  }

  /** Whole-run safety: over any interleaving of calls, failures, crashes, restarts and database
      changes, the numbers of a series strictly increase and no id is issued twice, in one series or
      across the two. */
  lemma NeverReissued(run: Run)
    requires Valid(run) && Room(run)
    ensures forall k :: Increasing(Issued(run, k)) && NoDup(Ids(run, k))
    ensures forall id :: !(id in Ids(run, YH) && id in Ids(run, D))
  {
    forall k ensures Increasing(Issued(run, k)) && NoDup(Ids(run, k)) {
      CounterBounds(run, k);
      IdsAreFormatted(run, k);
      forall i, j | 0 <= i < j < |Ids(run, k)| ensures Ids(run, k)[i] != Ids(run, k)[j] {
        SuffixOfFormat(k, Issued(run, k)[i]);
        SuffixOfFormat(k, Issued(run, k)[j]);
      }
    }
    IdsAreFormatted(run, YH);
    IdsAreFormatted(run, D);
    forall id ensures !(id in Ids(run, YH) && id in Ids(run, D)) {
      assert forall n :: Format(YH, n)[0] == 'Y' && Format(D, n)[0] == 'D';
    }
  }

  /** The condition is needed: while the database holds the last 64-bit number, every successful call
      returns the same id. */
  lemma WrapRepeats(a: Disk, b: Disk, kind: string, k: Series, r: Option<string>, seen: seq<string>)
    requires SeriesOf(kind) == Some(k) && Step(a, b, kind, r, seen) && r.Some?
    requires Format(k, TWO64 - 1) in seen
    ensures r == Some(Format(k, 0))
  {
    hide SeriesOf, Counter, Suffix, Format, Line, MaxSuffix, Prefix;
    SuffixOfFormat(k, TWO64 - 1);
  }
}
