/** The vanity search `searchKeyPair`: pattern set-up, then a generate-and-test loop.

    The key and address generator (secp256k1 key generation, hashing, address encoding) is a
    library; it is modelled as a script, a finite sequence of what successive calls return. The
    source loop never ends by itself; when the script runs out the model stops with `Exhausted`,
    which stands for "the loop would go on". Printed output is kept only as the indices of the
    candidates reported as secondary matches and of the progress ticks. */
module Vanity {
  import opened Matching

  /** A secp256k1 private key, by its scalar. */
  datatype PrivateKey = PrivateKey(d: nat)

  /** One loop iteration's call to the generator: key generation fails, address construction
      fails, or a candidate key with its encoded address. */
  datatype Draw =
    | KeyGenFailed(err: string)
    | AddressFailed(err: string)
    | Generated(key: PrivateKey, addr: Address)

  /** How `searchKeyPair` ends. */
  datatype Outcome =
    | Found(index: nat, key: PrivateKey, addr: Address)  // returns the key and address, nil error
    | Failed(err: string)                                // returns nil, nil and the error
    | NothingChecked                                     // returns nil, nil, nil without searching
    | NilDeref(line: nat)                                // run-time panic: String() on a nil *Regexp
    | Exhausted                                          // the script ran out; the loop would go on

  /** The outcome, the iterations that printed a secondary match, the iterations that printed a
      progress count, and how many times the generator was called. */
  datatype Trace = Trace(outcome: Outcome, reports: seq<nat>, ticks: seq<nat>, draws: nat)

  /** The compiled patterns the loop runs with. */
  datatype Matchers = Matchers(inclusive: bool, secondary: Option<Regexp>, primary: Option<Regexp>)

  /** The result of the set-up before the loop: the loop runs, or the function has already ended. */
  datatype Setup = Ready(m: Matchers) | Halted(outcome: Outcome)

  /** Progress is printed on iterations whose index is a multiple of this. */
  const ProgressInterval: nat := 10000

  /** Pattern set-up. The secondary pattern is compiled first; an empty one ends the search at
      once under the inclusive policy, and is otherwise printed through a nil matcher. Then the
      primary pattern is compiled, and an empty one is printed through a nil matcher. */
  function Prepare(engine: Engine, primaryPattern: string, secondaryPattern: string, inclusive: bool): (s: Setup)
    ensures s.Ready? ==> s.m.inclusive == inclusive
    ensures s.Ready? ==> s.m.secondary.Some? && s.m.primary.Some?
    ensures s.Ready? ==> s.m.secondary.value.expr == Anchor(secondaryPattern)
                         && engine(Anchor(secondaryPattern)) == Compiled(s.m.secondary.value.test)
    ensures s.Ready? ==> s.m.primary.value.expr == Anchor(primaryPattern)
                         && engine(Anchor(primaryPattern)) == Compiled(s.m.primary.value.test)
    ensures s.Ready? <==> |secondaryPattern| > 0 && |primaryPattern| > 0
                          && engine(Anchor(secondaryPattern)).Compiled?
                          && engine(Anchor(primaryPattern)).Compiled?
    ensures s.Halted? ==> !s.outcome.Found? && !s.outcome.Exhausted?
  {
    if |secondaryPattern| > 0 then
      match engine(Anchor(secondaryPattern))
      case CompileError(msg) => Halted(Failed(msg))
      case Compiled(test) => PreparePrimary(engine, primaryPattern, Regexp(Anchor(secondaryPattern), test), inclusive)
    else if inclusive then
      Halted(NothingChecked)
    else
      Halted(NilDeref(86))
  }

  /** The second half of the set-up, once the secondary pattern is compiled. */
  function PreparePrimary(engine: Engine, primaryPattern: string, secondary: Regexp, inclusive: bool): Setup
  {
    if |primaryPattern| > 0 then
      match engine(Anchor(primaryPattern))
      case CompileError(msg) => Halted(Failed(msg))
      case Compiled(test) => Ready(Matchers(inclusive, Some(secondary), Some(Regexp(Anchor(primaryPattern), test))))
    else
      Halted(NilDeref(97))
  }

  /** Whether the loop leaves at this draw: the generator failed, or the candidate is the result. */
  predicate Halts(m: Matchers, d: Draw)
  {
    !d.Generated? || Judge(m.inclusive, m.secondary, m.primary, d.addr).stop
  }

  /** The candidate is printed as a secondary match. */
  predicate Reported(m: Matchers, d: Draw)
  {
    d.Generated? && Hits(m.secondary, d.addr)
  }

  /** How the loop ends when it leaves at draw `d`, the `k`-th. */
  function HaltOutcome(k: nat, d: Draw): Outcome
  {
    match d
    case KeyGenFailed(err) => Failed(err)
    case AddressFailed(err) => Failed(err)
    case Generated(key, addr) => Found(k, key, addr)
  }

  /** `k` is the first iteration from `i` on at which the loop leaves, or `|script|` if there is none. */
  ghost predicate FirstHalt(m: Matchers, script: seq<Draw>, i: nat, k: nat)
  {
    i <= k <= |script|
    && (k < |script| ==> Halts(m, script[k]))
    && (forall j :: i <= j < k ==> !Halts(m, script[j]))
  }

  ghost predicate Increasing(s: seq<nat>)
  {
    forall x, y :: 0 <= x < y < |s| ==> s[x] < s[y]
  }

  /** The loop from iteration `i` on, as a recursive function: the specification of the loop. */
  function Scan(m: Matchers, script: seq<Draw>, i: nat): (t: Trace)
    requires i <= |script|
    ensures i + t.draws <= |script|
    ensures t.outcome.Found? ==> t.outcome.index + 1 == i + t.draws
    ensures t.outcome.Exhausted? ==> i + t.draws == |script|
    ensures t.outcome.Failed? || t.outcome.Found? || t.outcome.Exhausted?
    decreases |script| - i
  {
    if i == |script| then Trace(Exhausted, [], [], 0)
    else
      match script[i]
      case KeyGenFailed(err) => Trace(Failed(err), [], [], 1)
      case AddressFailed(err) => Trace(Failed(err), [], [], 1)
      case Generated(key, addr) =>
        var tick := if i % ProgressInterval == 0 then [i] else [];
        var v := Judge(m.inclusive, m.secondary, m.primary, addr);
        var report := if v.report then [i] else [];
        if v.stop then Trace(Found(i, key, addr), report, tick, 1)
        else
          Extend(report, tick, 1, Scan(m, script, i + 1))
  }

  /** The trace `rest` preceded by the reports and ticks of `draws` earlier iterations. */
  function Extend(reports: seq<nat>, ticks: seq<nat>, draws: nat, rest: Trace): Trace
  {
    Trace(rest.outcome, reports + rest.reports, ticks + rest.ticks, draws + rest.draws)
  }

  lemma ExtendTwice(reports: seq<nat>, ticks: seq<nat>, draws: nat, report: seq<nat>, tick: seq<nat>, rest: Trace)
    ensures Extend(reports, ticks, draws, Extend(report, tick, 1, rest)) == Extend(reports + report, ticks + tick, draws + 1, rest)
  {
    assert reports + (report + rest.reports) == (reports + report) + rest.reports;
    assert ticks + (tick + rest.ticks) == (ticks + tick) + rest.ticks;
  }

  /** `searchKeyPair` as a function: the specification of `SearchKeyPair`. */
  function Search(engine: Engine, primaryPattern: string, secondaryPattern: string, inclusive: bool, script: seq<Draw>): (t: Trace)
    ensures t.draws <= |script|
  {
    match Prepare(engine, primaryPattern, secondaryPattern, inclusive)
    case Halted(outcome) => Trace(outcome, [], [], 0)
    case Ready(m) => Scan(m, script, 0)
  }

  /** `searchKeyPair`: set up the patterns, then run the loop. */
  method SearchKeyPair(engine: Engine, primaryPattern: string, secondaryPattern: string, inclusive: bool, script: seq<Draw>)
    returns (outcome: Outcome, reports: seq<nat>, ticks: seq<nat>, draws: nat)
    ensures Trace(outcome, reports, ticks, draws) == Search(engine, primaryPattern, secondaryPattern, inclusive, script)
  {
    var setup := Prepare(engine, primaryPattern, secondaryPattern, inclusive);
    if setup.Halted? {
      return setup.outcome, [], [], 0;
    }
    outcome, reports, ticks, draws := RunLoop(setup.m, script);
  }

  /** The loop of `searchKeyPair`: draw candidates until one is the result or the generator
      fails. */
  method RunLoop(m: Matchers, script: seq<Draw>) returns (outcome: Outcome, reports: seq<nat>, ticks: seq<nat>, draws: nat)
    ensures Trace(outcome, reports, ticks, draws) == Scan(m, script, 0)
  {
    reports, ticks := [], [];
    var i := 0;
    while i < |script|
      invariant i <= |script|
      invariant Scan(m, script, 0) == Extend(reports, ticks, i, Scan(m, script, i))
      decreases |script| - i
    {
      match script[i] {
        case KeyGenFailed(err) =>
          return Failed(err), reports, ticks, i + 1;
        case AddressFailed(err) =>
          return Failed(err), reports, ticks, i + 1;
        case Generated(key, addr) =>
          var tick: seq<nat> := if i % ProgressInterval == 0 then [i] else [];
          var v := Judge(m.inclusive, m.secondary, m.primary, addr);
          var report: seq<nat> := if v.report then [i] else [];
          if v.stop {
            return Found(i, key, addr), reports + report, ticks + tick, i + 1;
          }
          ExtendTwice(reports, ticks, i, report, tick, Scan(m, script, i + 1));
          ticks := ticks + tick;
          reports := reports + report;
      }
      i := i + 1;
    }
    return Exhausted, reports, ticks, |script|;
  }

  // ---------------------------------------------------------------------------------------------
  // The loop, described by the first iteration at which it leaves

  /** Every suffix of the script has a first halting iteration (possibly none, `|script|`). */
  lemma {:induction false} FirstHaltExists(m: Matchers, script: seq<Draw>, i: nat) returns (k: nat)
    requires i <= |script|
    ensures FirstHalt(m, script, i, k)
    decreases |script| - i
  {
    if i == |script| || Halts(m, script[i]) {
      k := i;
    } else {
      k := FirstHaltExists(m, script, i + 1);
    }
  }

  /** The report printed at iteration `j`, if any. */
  function ReportAt(m: Matchers, script: seq<Draw>, j: nat): seq<nat>
    requires j < |script|
  {
    if Reported(m, script[j]) then [j] else []
  }

  /** The progress count printed at iteration `j`, if any. */
  function TickAt(script: seq<Draw>, j: nat): seq<nat>
    requires j < |script|
  {
    if script[j].Generated? && j % ProgressInterval == 0 then [j] else []
  }

  /** An iteration at which the loop does not leave adds its report and tick to the rest. */
  lemma ScanPasses(m: Matchers, script: seq<Draw>, i: nat)
    requires i < |script| && !Halts(m, script[i])
    ensures Scan(m, script, i) == Extend(ReportAt(m, script, i), TickAt(script, i), 1, Scan(m, script, i + 1))
  {
  }

  /** The iteration at which the loop leaves ends it as its draw says, with its own report and tick. */
  lemma ScanHalts(m: Matchers, script: seq<Draw>, k: nat)
    requires k < |script| && Halts(m, script[k])
    ensures Scan(m, script, k) == Trace(HaltOutcome(k, script[k]), ReportAt(m, script, k), TickAt(script, k), 1)
  {
    if script[k].Generated? {
      assert Judge(m.inclusive, m.secondary, m.primary, script[k].addr).stop;
    }
  }

  /** Given the first iteration `k` at which the loop leaves, it ends as that draw says (or runs
      out if there is none) after calling the generator once per iteration up to `k`. */
  lemma {:induction false} ScanOutcomeAtFirstHalt(m: Matchers, script: seq<Draw>, i: nat, k: nat)
    requires FirstHalt(m, script, i, k)
    ensures Scan(m, script, i).outcome == (if k == |script| then Exhausted else HaltOutcome(k, script[k]))
    ensures Scan(m, script, i).draws == (if k == |script| then k - i else k - i + 1)
    decreases |script| - i
  {
    if i == k {
      if k < |script| {
        ScanHalts(m, script, k);
      }
    } else {
      ScanPasses(m, script, i);
      ScanOutcomeAtFirstHalt(m, script, i + 1, k);
    }
  }

  /** Given the first iteration `k` at which the loop leaves, the loop has reported exactly the
      candidates up to `k` that the secondary pattern matches, in increasing order. */
  lemma {:induction false} ScanReportsToFirstHalt(m: Matchers, script: seq<Draw>, i: nat, k: nat)
    requires FirstHalt(m, script, i, k)
    ensures forall j :: j in Scan(m, script, i).reports <==> i <= j <= k && j < |script| && Reported(m, script[j])
    ensures Increasing(Scan(m, script, i).reports)
    decreases |script| - i
  {
    if i == k {
      if k < |script| {
        ScanHalts(m, script, k);
      }
    } else {
      ScanPasses(m, script, i);
      ScanReportsToFirstHalt(m, script, i + 1, k);
      PrependKeepsIncreasing(i, ReportAt(m, script, i), Scan(m, script, i + 1).reports);
      assert Scan(m, script, i).reports == ReportAt(m, script, i) + Scan(m, script, i + 1).reports;
    }
  }

  /** Given the first iteration `k` at which the loop leaves, the loop has printed progress
      exactly on the generated candidates up to `k` whose index is a multiple of the interval. */
  lemma {:induction false} ScanTicksToFirstHalt(m: Matchers, script: seq<Draw>, i: nat, k: nat)
    requires FirstHalt(m, script, i, k)
    ensures forall j :: j in Scan(m, script, i).ticks
                        <==> i <= j <= k && j < |script| && script[j].Generated? && j % ProgressInterval == 0
    ensures Increasing(Scan(m, script, i).ticks)
    decreases |script| - i
  {
    if i == k {
      if k < |script| {
        ScanHalts(m, script, k);
      }
    } else {
      ScanPasses(m, script, i);
      ScanTicksToFirstHalt(m, script, i + 1, k);
      PrependKeepsIncreasing(i, TickAt(script, i), Scan(m, script, i + 1).ticks);
      assert Scan(m, script, i).ticks == TickAt(script, i) + Scan(m, script, i + 1).ticks;
    }
  }

  /** What the loop does, given the first iteration `k` at which it leaves: the three lemmas above. */
  lemma ScanUpToFirstHalt(m: Matchers, script: seq<Draw>, i: nat, k: nat)
    requires FirstHalt(m, script, i, k)
    ensures var t := Scan(m, script, i);
      && t.outcome == (if k == |script| then Exhausted else HaltOutcome(k, script[k]))
      && t.draws == (if k == |script| then k - i else k - i + 1)
      && (forall j :: j in t.reports <==> i <= j <= k && j < |script| && Reported(m, script[j]))
      && (forall j :: j in t.ticks <==> i <= j <= k && j < |script| && script[j].Generated? && j % ProgressInterval == 0)
      && Increasing(t.reports) && Increasing(t.ticks)
  {
    ScanOutcomeAtFirstHalt(m, script, i, k);
    ScanReportsToFirstHalt(m, script, i, k);
    ScanTicksToFirstHalt(m, script, i, k);
  }

  /** Prepending an index below all of an increasing sequence keeps it increasing. */
  lemma PrependKeepsIncreasing(i: nat, head: seq<nat>, rest: seq<nat>)
    requires head == [] || head == [i]
    requires Increasing(rest)
    requires forall j :: j in rest ==> i < j
    ensures Increasing(head + rest)
    ensures forall j :: j in head + rest <==> j in head || j in rest
  {
    if head == [i] {
      forall x, y | 0 <= x < y < |head + rest|
        ensures (head + rest)[x] < (head + rest)[y]
      {
        if x == 0 {
          assert (head + rest)[y] == rest[y - 1];
          assert rest[y - 1] in rest;
        } else {
          assert (head + rest)[x] == rest[x - 1] && (head + rest)[y] == rest[y - 1];
        }
      }
    } else {
      assert head + rest == rest;
    }
  }

  /** A result that the loop returns is the first candidate that ends it: it was generated, the
      matchers stop on it, and every earlier iteration generated a candidate they let pass. */
  lemma {:induction false} FoundIsFirstWinner(m: Matchers, script: seq<Draw>, i: nat)
    requires i <= |script|
    requires Scan(m, script, i).outcome.Found?
    ensures var f := Scan(m, script, i).outcome;
      && i <= f.index < |script|
      && script[f.index] == Generated(f.key, f.addr)
      && Judge(m.inclusive, m.secondary, m.primary, f.addr).stop
      && (forall j :: i <= j < f.index ==> script[j].Generated? && !Halts(m, script[j]))
    decreases |script| - i
  {
    if !Halts(m, script[i]) {
      FoundIsFirstWinner(m, script, i + 1);
    }
  }

  /** When the two patterns are such that every generated address the primary matches is also
      matched by the secondary, the two policies run the loop identically. */
  lemma {:induction false} PoliciesAgreeWhenPrimaryImpliesSecondary(
    secondary: Option<Regexp>, primary: Option<Regexp>, script: seq<Draw>, i: nat)
    requires i <= |script|
    requires forall j :: i <= j < |script| && script[j].Generated? && Hits(primary, script[j].addr)
                         ==> Hits(secondary, script[j].addr)
    ensures Scan(Matchers(true, secondary, primary), script, i) == Scan(Matchers(false, secondary, primary), script, i)
    decreases |script| - i
  {
    if i < |script| {
      PoliciesAgreeWhenPrimaryImpliesSecondary(secondary, primary, script, i + 1);
    }
  }

  /** Otherwise the policies can differ: a first candidate that the primary pattern matches and
      the secondary does not ends the independent search and is passed over by the inclusive one. */
  lemma PoliciesDivergeOnPrimaryOnly(secondary: Option<Regexp>, primary: Option<Regexp>, key: PrivateKey, addr: Address)
    requires Hits(primary, addr) && !Hits(secondary, addr)
    ensures Scan(Matchers(false, secondary, primary), [Generated(key, addr)], 0).outcome == Found(0, key, addr)
    ensures Scan(Matchers(true, secondary, primary), [Generated(key, addr)], 0).outcome == Exhausted
  {
  }
}
