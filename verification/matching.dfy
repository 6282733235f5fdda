/** Address patterns of the vanity search and the decision it takes for one candidate address.

    The regular-expression engine is a library: it is modelled as an `Engine`, a function from an
    expression to either a match test or a compile error. Only the way the search builds the
    expression it hands to the engine, and the way it combines the two match results, belong to
    the program. */
module Matching {

  datatype Option<T> = None | Some(value: T)

  /** An encoded address, as `EncodeAddress` returns it. */
  type Address = string

  /** What the engine's `Compile` returns: a match test, or the error it reports. */
  datatype Compiled = Compiled(test: Address -> bool) | CompileError(msg: string)

  /** The regular-expression engine, `regexp.Compile`. */
  type Engine = string -> Compiled

  /** A compiled pattern: the expression it was compiled from (what `String` gives back) and its
      match test. An absent pattern (a nil `*Regexp`) is `None` in an `Option<Regexp>`. */
  datatype Regexp = Regexp(expr: string, test: Address -> bool)

  /** The fixed address prefix every user pattern is glued to. */
  const AddressPrefix: string := "Ds"

  /** The expression compiled for a user pattern: a start anchor, the prefix, then the pattern. */
  function Anchor(pattern: string): (expr: string)
    ensures |expr| == |pattern| + 3
    ensures expr[0] == '^' && expr[1..3] == AddressPrefix
    ensures expr[3..] == pattern
  {
    "^" + AddressPrefix + pattern
  }

  /** `regex != nil && regex.MatchString(addr)`: an absent pattern matches nothing. */
  predicate Hits(re: Option<Regexp>, addr: Address)
  {
    re.Some? && re.value.test(addr)
  }

  /** What the search does with one candidate: whether it prints the candidate as a secondary
      match, and whether it keeps it as the result and leaves the loop. */
  datatype Verdict = Verdict(report: bool, stop: bool)

  /** The match step of one loop iteration. With `inclusive` the primary pattern is tried only
      on an address the secondary pattern matched; otherwise the two are tried separately. */
  function Judge(inclusive: bool, secondary: Option<Regexp>, primary: Option<Regexp>, addr: Address): (v: Verdict)
    ensures v.report <==> Hits(secondary, addr)
    ensures v.stop ==> Hits(primary, addr)
    ensures inclusive ==> (v.stop <==> Hits(secondary, addr) && Hits(primary, addr))
    ensures !inclusive ==> (v.stop <==> Hits(primary, addr))
  {
    if inclusive then
      if Hits(secondary, addr) then Verdict(true, Hits(primary, addr))
      else Verdict(false, false)
    else
      Verdict(Hits(secondary, addr), Hits(primary, addr))
  }

  /** Under the inclusive policy the address that ends the search has been reported first. */
  lemma InclusiveStopIsReported(secondary: Option<Regexp>, primary: Option<Regexp>, addr: Address)
    requires Judge(true, secondary, primary, addr).stop
    ensures Judge(true, secondary, primary, addr).report
  {
  }

  /** The two policies take different decisions on an address exactly when the primary pattern
      matches it and the secondary does not; the report decision never differs. */
  lemma PoliciesDifferExactly(secondary: Option<Regexp>, primary: Option<Regexp>, addr: Address)
    ensures Judge(true, secondary, primary, addr).report == Judge(false, secondary, primary, addr).report
    ensures Judge(true, secondary, primary, addr) != Judge(false, secondary, primary, addr)
            <==> Hits(primary, addr) && !Hits(secondary, addr)
  {
  }
}
