/** What `searchKeyPair` promises, stated on its specification `Vanity.Search` in terms of the
    patterns the user gives, the engine and the generator script. */
module SearchProperties {
  import opened Matching
  import opened Vanity

  /** A secondary pattern that does not compile ends the search with the engine's error, before
      the generator is called, whatever the primary pattern. */
  lemma SecondaryCompileErrorAborts(engine: Engine, primaryPattern: string, secondaryPattern: string, inclusive: bool, script: seq<Draw>)
    requires |secondaryPattern| > 0 && engine(Anchor(secondaryPattern)).CompileError?
    ensures Search(engine, primaryPattern, secondaryPattern, inclusive, script)
            == Trace(Failed(engine(Anchor(secondaryPattern)).msg), [], [], 0)
  {
  }

  /** A primary pattern that does not compile, after a secondary one that does, ends the search
      with the engine's error before the generator is called. */
  lemma PrimaryCompileErrorAborts(engine: Engine, primaryPattern: string, secondaryPattern: string, inclusive: bool, script: seq<Draw>)
    requires |secondaryPattern| > 0 && engine(Anchor(secondaryPattern)).Compiled?
    requires |primaryPattern| > 0 && engine(Anchor(primaryPattern)).CompileError?
    ensures Search(engine, primaryPattern, secondaryPattern, inclusive, script)
            == Trace(Failed(engine(Anchor(primaryPattern)).msg), [], [], 0)
  {
  }

  /** An empty secondary pattern under the inclusive policy ends the search at once with no key,
      no address and no error; the primary pattern is not even compiled. */
  lemma EmptySecondaryInclusiveChecksNothing(engine: Engine, primaryPattern: string, script: seq<Draw>)
    ensures Search(engine, primaryPattern, "", true, script) == Trace(NothingChecked, [], [], 0)
  {
  }

  /** An absent pattern is printed through a nil matcher: with an empty secondary pattern under
      the independent policy, or with an empty primary pattern once the secondary one compiled,
      the search panics before the generator is called. */
  lemma AbsentMatcherPanics(engine: Engine, primaryPattern: string, secondaryPattern: string, inclusive: bool, script: seq<Draw>)
    ensures secondaryPattern == "" && !inclusive
            ==> Search(engine, primaryPattern, secondaryPattern, inclusive, script) == Trace(NilDeref(86), [], [], 0)
    ensures |secondaryPattern| > 0 && engine(Anchor(secondaryPattern)).Compiled? && primaryPattern == ""
            ==> Search(engine, primaryPattern, secondaryPattern, inclusive, script) == Trace(NilDeref(97), [], [], 0)
  {
  }

  /** The set-up lets the loop run exactly when both patterns are given and both compile; the
      loop then matches with the engine's compilation of the anchored patterns. */
  lemma SearchRunsOnlyWithBothPatterns(engine: Engine, primaryPattern: string, secondaryPattern: string, inclusive: bool, script: seq<Draw>)
    ensures Search(engine, primaryPattern, secondaryPattern, inclusive, script).draws > 0
            ==> |secondaryPattern| > 0 && |primaryPattern| > 0
                && engine(Anchor(secondaryPattern)).Compiled? && engine(Anchor(primaryPattern)).Compiled?
  {
  }

  /** Inclusive policy: the search returns the first generated candidate whose address both
      anchored patterns match; every earlier iteration generated an address that one of them
      rejects; the winner was also reported; the generator was called once per iteration. */
  lemma InclusiveWinner(engine: Engine, primaryPattern: string, secondaryPattern: string, script: seq<Draw>)
    requires Search(engine, primaryPattern, secondaryPattern, true, script).outcome.Found?
    ensures var t := Search(engine, primaryPattern, secondaryPattern, true, script);
      var f := t.outcome;
      var secondary := engine(Anchor(secondaryPattern));
      var primary := engine(Anchor(primaryPattern));
      && secondary.Compiled? && primary.Compiled?
      && f.index < |script| && script[f.index] == Generated(f.key, f.addr)
      && secondary.test(f.addr) && primary.test(f.addr)
      && (forall j :: 0 <= j < f.index ==>
            script[j].Generated? && !(secondary.test(script[j].addr) && primary.test(script[j].addr)))
      && f.index in t.reports
      && t.draws == f.index + 1
  {
    var m := Prepare(engine, primaryPattern, secondaryPattern, true).m;
    var t := Scan(m, script, 0);
    FoundIsFirstWinner(m, script, 0);
    var k := FirstHaltExists(m, script, 0);
    ScanUpToFirstHalt(m, script, 0, k);
  }

  /** Independent policy: the search returns the first generated candidate whose address the
      anchored primary pattern matches, whatever the secondary pattern says; every earlier
      iteration generated an address the primary pattern rejects. */
  lemma IndependentWinner(engine: Engine, primaryPattern: string, secondaryPattern: string, script: seq<Draw>)
    requires Search(engine, primaryPattern, secondaryPattern, false, script).outcome.Found?
    ensures var t := Search(engine, primaryPattern, secondaryPattern, false, script);
      var f := t.outcome;
      var primary := engine(Anchor(primaryPattern));
      && primary.Compiled?
      && f.index < |script| && script[f.index] == Generated(f.key, f.addr)
      && primary.test(f.addr)
      && (forall j :: 0 <= j < f.index ==> script[j].Generated? && !primary.test(script[j].addr))
      && t.draws == f.index + 1
  {
    var m := Prepare(engine, primaryPattern, secondaryPattern, false).m;
    FoundIsFirstWinner(m, script, 0);
  }

  /** Under both policies, the candidates reported as secondary matches are exactly the generated
      ones, among those drawn, whose address the anchored secondary pattern matches, in order. */
  lemma ReportsAreSecondaryHits(engine: Engine, primaryPattern: string, secondaryPattern: string, inclusive: bool, script: seq<Draw>)
    requires Prepare(engine, primaryPattern, secondaryPattern, inclusive).Ready?
    ensures var t := Search(engine, primaryPattern, secondaryPattern, inclusive, script);
      var secondary := engine(Anchor(secondaryPattern));
      && secondary.Compiled?
      && (forall j :: j in t.reports <==> 0 <= j < t.draws && script[j].Generated? && secondary.test(script[j].addr))
      && Increasing(t.reports)
  {
    var m := Prepare(engine, primaryPattern, secondaryPattern, inclusive).m;
    var k := FirstHaltExists(m, script, 0);
    ScanUpToFirstHalt(m, script, 0, k);
  }

  /** Progress is printed on exactly the iterations that generated a candidate and whose index
      is a multiple of 10000, in order. */
  lemma ProgressTicks(engine: Engine, primaryPattern: string, secondaryPattern: string, inclusive: bool, script: seq<Draw>)
    requires Prepare(engine, primaryPattern, secondaryPattern, inclusive).Ready?
    ensures var t := Search(engine, primaryPattern, secondaryPattern, inclusive, script);
      && (forall j :: j in t.ticks <==> 0 <= j < t.draws && script[j].Generated? && j % 10000 == 0)
      && Increasing(t.ticks)
  {
    var m := Prepare(engine, primaryPattern, secondaryPattern, inclusive).m;
    var k := FirstHaltExists(m, script, 0);
    ScanUpToFirstHalt(m, script, 0, k);
  }

  /** A failing generator call ends the search with its error, provided no earlier candidate won;
      and a search that fails after the set-up failed at a generator call. */
  lemma GeneratorErrorAborts(engine: Engine, primaryPattern: string, secondaryPattern: string, inclusive: bool, script: seq<Draw>, k: nat)
    requires Prepare(engine, primaryPattern, secondaryPattern, inclusive).Ready?
    requires k < |script| && !script[k].Generated?
    requires forall j :: 0 <= j < k ==> !Halts(Prepare(engine, primaryPattern, secondaryPattern, inclusive).m, script[j])
    ensures var t := Search(engine, primaryPattern, secondaryPattern, inclusive, script);
      t.outcome == Failed(script[k].err) && t.draws == k + 1
  {
    var m := Prepare(engine, primaryPattern, secondaryPattern, inclusive).m;
    ScanUpToFirstHalt(m, script, 0, k);
  }

  /** Every failure is a compile error before any generator call, or the error of the last
      generator call made. */
  lemma FailureExplained(engine: Engine, primaryPattern: string, secondaryPattern: string, inclusive: bool, script: seq<Draw>)
    requires Search(engine, primaryPattern, secondaryPattern, inclusive, script).outcome.Failed?
    ensures var t := Search(engine, primaryPattern, secondaryPattern, inclusive, script);
      || (t.draws == 0
          && ((|secondaryPattern| > 0 && engine(Anchor(secondaryPattern)) == CompileError(t.outcome.err))
              || (|primaryPattern| > 0 && engine(Anchor(primaryPattern)) == CompileError(t.outcome.err))))
      || (0 < t.draws <= |script| && !script[t.draws - 1].Generated? && script[t.draws - 1].err == t.outcome.err)
  {
    var s := Prepare(engine, primaryPattern, secondaryPattern, inclusive);
    if s.Ready? {
      var k := FirstHaltExists(s.m, script, 0);
      ScanUpToFirstHalt(s.m, script, 0, k);
    }
  }

  /** A search that runs out of script called the generator for every entry, and every one
      produced a candidate that did not end the loop: the source would go on searching. */
  lemma ExhaustedMeansNoWinnerYet(engine: Engine, primaryPattern: string, secondaryPattern: string, inclusive: bool, script: seq<Draw>)
    requires Search(engine, primaryPattern, secondaryPattern, inclusive, script).outcome.Exhausted?
    ensures var s := Prepare(engine, primaryPattern, secondaryPattern, inclusive);
      && s.Ready?
      && Search(engine, primaryPattern, secondaryPattern, inclusive, script).draws == |script|
      && (forall j :: 0 <= j < |script| ==> script[j].Generated? && !Halts(s.m, script[j]))
  {
    var s := Prepare(engine, primaryPattern, secondaryPattern, inclusive);
    var k := FirstHaltExists(s.m, script, 0);
    ScanUpToFirstHalt(s.m, script, 0, k);
  }
}
