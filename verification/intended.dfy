/** The set-up as its messages say it is meant to behave: an absent pattern is printed as such
    and then matches nothing, so an empty primary pattern makes a search that never quits and
    only reports secondary matches, instead of a nil-pointer panic. */
module Intended {
  import opened Matching
  import opened Vanity

  /** `Prepare`, with an absent pattern carried into the loop as `None` instead of being printed
      through a nil matcher. */
  function PrepareIntended(engine: Engine, primaryPattern: string, secondaryPattern: string, inclusive: bool): (s: Setup)
    ensures s.Halted? ==> !s.outcome.NilDeref? && !s.outcome.Found? && !s.outcome.Exhausted?
    ensures s.Ready? <==> (|secondaryPattern| > 0 || !inclusive)
                          && (|secondaryPattern| > 0 ==> engine(Anchor(secondaryPattern)).Compiled?)
                          && (|primaryPattern| > 0 ==> engine(Anchor(primaryPattern)).Compiled?)
    ensures s.Ready? ==> s.m.inclusive == inclusive
    ensures s.Ready? ==> (s.m.secondary.Some? <==> |secondaryPattern| > 0)
                         && (s.m.primary.Some? <==> |primaryPattern| > 0)
    ensures s.Ready? && s.m.primary.Some? ==> engine(Anchor(primaryPattern)) == Compiled(s.m.primary.value.test)
    ensures s.Ready? && s.m.secondary.Some? ==> engine(Anchor(secondaryPattern)) == Compiled(s.m.secondary.value.test)
  {
    if |secondaryPattern| > 0 then
      match engine(Anchor(secondaryPattern))
      case CompileError(msg) => Halted(Failed(msg))
      case Compiled(test) => PreparePrimaryIntended(engine, primaryPattern, Some(Regexp(Anchor(secondaryPattern), test)), inclusive)
    else if inclusive then
      Halted(NothingChecked)
    else
      PreparePrimaryIntended(engine, primaryPattern, None, inclusive)
  }

  function PreparePrimaryIntended(engine: Engine, primaryPattern: string, secondary: Option<Regexp>, inclusive: bool): Setup
  {
    if |primaryPattern| > 0 then
      match engine(Anchor(primaryPattern))
      case CompileError(msg) => Halted(Failed(msg))
      case Compiled(test) => Ready(Matchers(inclusive, secondary, Some(Regexp(Anchor(primaryPattern), test))))
    else
      Ready(Matchers(inclusive, secondary, None))
  }

  /** The search with the corrected set-up: it never panics, and it draws candidates only after
      both given patterns have compiled. */
  function SearchIntended(engine: Engine, primaryPattern: string, secondaryPattern: string, inclusive: bool, script: seq<Draw>): (t: Trace)
    ensures t.draws <= |script|
    ensures !t.outcome.NilDeref?
    ensures t.draws > 0 ==> (|secondaryPattern| > 0 ==> engine(Anchor(secondaryPattern)).Compiled?)
                            && (|primaryPattern| > 0 ==> engine(Anchor(primaryPattern)).Compiled?)
  {
    match PrepareIntended(engine, primaryPattern, secondaryPattern, inclusive)
    case Halted(outcome) => Trace(outcome, [], [], 0)
    case Ready(m) => Scan(m, script, 0)
  }

  /** Wherever the search as written does not panic, the intended one behaves the same. */
  lemma IntendedAgreesWhereNoPanic(engine: Engine, primaryPattern: string, secondaryPattern: string, inclusive: bool, script: seq<Draw>)
    requires !Search(engine, primaryPattern, secondaryPattern, inclusive, script).outcome.NilDeref?
    ensures SearchIntended(engine, primaryPattern, secondaryPattern, inclusive, script)
            == Search(engine, primaryPattern, secondaryPattern, inclusive, script)
  {
  }

  /** With no primary pattern, and a valid secondary one or the independent policy, the intended
      search never returns a key: it runs through every candidate the generator produces
      (stopping only at a generator error), reporting exactly those the anchored secondary
      pattern matches, and nothing when there is no secondary pattern. */
  lemma IntendedNeverQuits(engine: Engine, secondaryPattern: string, inclusive: bool, script: seq<Draw>)
    requires |secondaryPattern| > 0 || !inclusive
    requires |secondaryPattern| > 0 ==> engine(Anchor(secondaryPattern)).Compiled?
    ensures var t := SearchIntended(engine, "", secondaryPattern, inclusive, script);
      && !t.outcome.Found?
      && ((forall j :: 0 <= j < |script| ==> script[j].Generated?) ==> t.outcome == Exhausted && t.draws == |script|)
      && (forall j :: j in t.reports <==> |secondaryPattern| > 0 && 0 <= j < t.draws && script[j].Generated?
                                           && engine(Anchor(secondaryPattern)).test(script[j].addr))
  {
    var m := PrepareIntended(engine, "", secondaryPattern, inclusive).m;
    var k := FirstHaltExists(m, script, 0);
    ScanUpToFirstHalt(m, script, 0, k);
  }

  /** A loop without a secondary matcher prints no secondary match. */
  lemma {:induction false} NoSecondaryNoReports(m: Matchers, script: seq<Draw>, i: nat)
    requires i <= |script| && m.secondary.None?
    ensures Scan(m, script, i).reports == []
    decreases |script| - i
  {
    if i < |script| {
      NoSecondaryNoReports(m, script, i + 1);
    }
  }

  /** With no secondary pattern under the independent policy, the intended search reports
      nothing and is decided by the anchored primary pattern alone: a returned key is the first
      generated candidate it matches, and a search still running has drawn only candidates it
      does not match. */
  lemma IntendedIgnoresAbsentSecondary(engine: Engine, primaryPattern: string, script: seq<Draw>)
    requires |primaryPattern| > 0 && engine(Anchor(primaryPattern)).Compiled?
    ensures var t := SearchIntended(engine, primaryPattern, "", false, script);
      var primary := engine(Anchor(primaryPattern));
      && t.reports == []
      && (t.outcome.Found? ==>
            && t.outcome.index < |script| && script[t.outcome.index] == Generated(t.outcome.key, t.outcome.addr)
            && primary.test(t.outcome.addr)
            && (forall j :: 0 <= j < t.outcome.index ==> script[j].Generated? && !primary.test(script[j].addr))
            && t.draws == t.outcome.index + 1)
      && (t.outcome.Exhausted? ==>
            t.draws == |script| && forall j :: 0 <= j < |script| ==> script[j].Generated? && !primary.test(script[j].addr))
  {
    var m := PrepareIntended(engine, primaryPattern, "", false).m;
    var t := Scan(m, script, 0);
    var k := FirstHaltExists(m, script, 0);
    ScanUpToFirstHalt(m, script, 0, k);
    if t.outcome.Found? {
      FoundIsFirstWinner(m, script, 0);
    }
    NoSecondaryNoReports(m, script, 0);
  }
}
