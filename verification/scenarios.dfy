/** Concrete runs of the search with a stand-in regex engine that understands only start-anchored
    literal expressions. */
module Scenarios {
  import opened Matching
  import opened Vanity

  predicate IsMeta(c: char)
  {
    c in "\\.+*?()|[]{}^$"
  }

  /** A stand-in for `regexp.Compile`: "^" followed by literal characters matches the addresses
      that begin with those characters; any other expression is refused. */
  function LiteralEngine(expr: string): (c: Compiled)
    ensures c.Compiled? <==> |expr| > 0 && expr[0] == '^' && forall i :: 1 <= i < |expr| ==> !IsMeta(expr[i])
    ensures c.Compiled? ==> forall a: Address :: c.test(a) <==> expr[1..] <= a
  {
    if |expr| > 0 && expr[0] == '^' && forall i :: 1 <= i < |expr| ==> !IsMeta(expr[i]) then
      Compiled((a: Address) => expr[1..] <= a)
    else
      CompileError("unsupported expression")
  }

  /** Secondary pattern B and primary pattern BC: an address with the secondary prefix only is
      reported and passed over, one with both prefixes ends the search, one with neither is
      ignored, under both policies. */
  lemma NestedPatternsAgree(inclusive: bool)
    ensures var s := Prepare(LiteralEngine, "BC", "B", inclusive);
      && s.Ready?
      && Judge(inclusive, s.m.secondary, s.m.primary, "DsBXYZ") == Verdict(true, false)
      && Judge(inclusive, s.m.secondary, s.m.primary, "DsBCXY") == Verdict(true, true)
      && Judge(inclusive, s.m.secondary, s.m.primary, "DsCXYZ") == Verdict(false, false)
  {
    var s := Prepare(LiteralEngine, "BC", "B", inclusive);
    assert Anchor("B") == "^DsB" && Anchor("BC") == "^DsBC";
    assert "DsB" <= "DsBXYZ" && "DsB" <= "DsBCXY" && "DsBC" <= "DsBCXY";
    assert !("DsBC" <= "DsBXYZ") by { assert "DsBXYZ"[3] != "DsBC"[3]; }
    assert !("DsB" <= "DsCXYZ") by { assert "DsCXYZ"[2] != "DsB"[2]; }
    assert !("DsBC" <= "DsCXYZ") by { assert "DsCXYZ"[2] != "DsBC"[2]; }
  }

  /** A generator script: nine addresses beginning with DsX, then one beginning with DsAB. */
  function NineMissesThenHit(): seq<Draw>
  {
    seq(9, _ => Generated(PrivateKey(1), "DsXYZ")) + [Generated(PrivateKey(7), "DsABCDEF")]
  }

  /** Nine addresses that match nothing, then one that begins with DsAB: with primary pattern AB
      and secondary pattern A the search returns the tenth candidate after ten generator calls,
      having reported only it. */
  lemma TenthCandidateWins(inclusive: bool)
    ensures Search(LiteralEngine, "AB", "A", inclusive, NineMissesThenHit())
            == Trace(Found(9, PrivateKey(7), "DsABCDEF"), [9], [0], 10)
  {
    assert AddressPrefix + "A" == "DsA" && AddressPrefix + "AB" == "DsAB";
    var m := LiteralSetup("AB", "A", inclusive);
    NineMissesThenHitFrom(m, 0);
  }

  /** Under matchers for the prefixes DsA and DsAB, the scripted run from its `j`-th draw ends at
      the tenth, which is the only one it reports, and prints progress only at the first. */
  lemma {:induction false} NineMissesThenHitFrom(m: Matchers, j: nat)
    requires forall a :: Hits(m.secondary, a) <==> "DsA" <= a
    requires forall a :: Hits(m.primary, a) <==> "DsAB" <= a
    requires j <= 9
    ensures Scan(m, NineMissesThenHit(), j)
            == Trace(Found(9, PrivateKey(7), "DsABCDEF"), [9], if j == 0 then [0] else [], 10 - j)
    decreases 9 - j
  {
    var script := NineMissesThenHit();
    assert j % ProgressInterval == j;
    if j == 9 {
      assert script[9] == Generated(PrivateKey(7), "DsABCDEF");
      assert "DsA" <= "DsABCDEF" && "DsAB" <= "DsABCDEF";
    } else {
      assert script[j] == Generated(PrivateKey(1), "DsXYZ");
      assert !("DsA" <= "DsXYZ") by { assert "DsXYZ"[2] != "DsA"[2]; }
      NineMissesThenHitFrom(m, j + 1);
      var tick: seq<nat> := if j == 0 then [0] else [];
      assert Scan(m, script, j) == Trace(Found(9, PrivateKey(7), "DsABCDEF"), [] + [9], tick + [], 10 - j);
    }
  }

  /** With the stand-in engine, literal patterns compile to prefix tests on the anchored prefix. */
  lemma LiteralSetup(primaryPattern: string, secondaryPattern: string, inclusive: bool) returns (m: Matchers)
    requires |primaryPattern| > 0 && |secondaryPattern| > 0
    requires forall i :: 0 <= i < |primaryPattern| ==> !IsMeta(primaryPattern[i])
    requires forall i :: 0 <= i < |secondaryPattern| ==> !IsMeta(secondaryPattern[i])
    ensures Prepare(LiteralEngine, primaryPattern, secondaryPattern, inclusive) == Ready(m)
    ensures m.inclusive == inclusive
    ensures forall a :: Hits(m.secondary, a) <==> AddressPrefix + secondaryPattern <= a
    ensures forall a :: Hits(m.primary, a) <==> AddressPrefix + primaryPattern <= a
  {
    var sp, pp := Anchor(secondaryPattern), Anchor(primaryPattern);
    assert forall i :: 1 <= i < |sp| ==> !IsMeta(sp[i]) by {
      forall i | 1 <= i < |sp| ensures !IsMeta(sp[i]) {
        if i >= 3 { assert sp[i] == secondaryPattern[i - 3]; }
      }
    }
    assert forall i :: 1 <= i < |pp| ==> !IsMeta(pp[i]) by {
      forall i | 1 <= i < |pp| ensures !IsMeta(pp[i]) {
        if i >= 3 { assert pp[i] == primaryPattern[i - 3]; }
      }
    }
    assert sp[1..] == AddressPrefix + secondaryPattern && pp[1..] == AddressPrefix + primaryPattern;
    m := Prepare(LiteralEngine, primaryPattern, secondaryPattern, inclusive).m;
  }
}
