/** The part of `main` that decides what runs: the help flag, the network choice, and the call
    of the search with the inclusive policy, the first pattern as primary and the second as
    secondary. Flag parsing and printing are not modelled. */
module Program {
  import opened Matching
  import opened Vanity
  import opened Network

  /** How a run of the program goes: it prints the help, refuses the network flags, or searches
      on the chosen network. */
  datatype Run = HelpShown | NetworkConflict | Searched(net: Net, trace: Trace)

  /** `main`, given the parsed flags, the regex engine and, for each network, the generator
      script (addresses are encoded with that network's parameters). */
  function RunProgram(help: bool, testnet: bool, simnet: bool, pattern1: string, pattern2: string,
                      engine: Engine, generator: Net -> seq<Draw>): (r: Run)
    ensures r.HelpShown? <==> help
    ensures r.NetworkConflict? <==> !help && testnet && simnet
    ensures r.Searched? ==> r.net == SelectNetwork(testnet, simnet).net
    ensures r.Searched? ==> r.trace == Search(engine, pattern1, pattern2, true, generator(r.net))
  {
    if help then HelpShown
    else
      match SelectNetwork(testnet, simnet)
      case OnlyOneNetwork => NetworkConflict
      case Selected(net) => Searched(net, Search(engine, pattern1, pattern2, true, generator(net)))
  }

  /** Run from `main`, the search always uses the inclusive policy, so a missing second pattern
      ends it at once with nothing checked and no key. */
  lemma MissingSecondPatternChecksNothing(testnet: bool, simnet: bool, pattern1: string,
                                          engine: Engine, generator: Net -> seq<Draw>)
    requires !(testnet && simnet)
    ensures var r := RunProgram(false, testnet, simnet, pattern1, "", engine, generator);
      r.Searched? && r.trace == Trace(NothingChecked, [], [], 0)
  {
  }

  /** Run from `main` with a valid second pattern and no first pattern, the search panics while
      printing the absent primary pattern. */
  lemma MissingFirstPatternPanics(testnet: bool, simnet: bool, pattern2: string,
                                  engine: Engine, generator: Net -> seq<Draw>)
    requires !(testnet && simnet)
    requires |pattern2| > 0 && engine(Anchor(pattern2)).Compiled?
    ensures var r := RunProgram(false, testnet, simnet, "", pattern2, engine, generator);
      r.Searched? && r.trace == Trace(NilDeref(97), [], [], 0)
  {
  }
}
