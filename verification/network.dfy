/** The network choice made in `main` before the search: the `-testnet` and `-simnet` flags
    replace the default main-network parameters. */
module Network {

  datatype Net = MainNet | TestNet | SimNet

  /** The network parameters the run uses, or the "only specify one network" error. */
  datatype Choice = Selected(net: Net) | OnlyOneNetwork

  /** Starting from the main network, `-testnet` switches to the test network unless `-simnet`
      is also given, which is an error; then `-simnet` switches to the simulation network. */
  function SelectNetwork(testnet: bool, simnet: bool): (c: Choice)
    ensures c == OnlyOneNetwork <==> testnet && simnet
    ensures c == Selected(TestNet) <==> testnet && !simnet
    ensures c == Selected(SimNet) <==> simnet && !testnet
    ensures c == Selected(MainNet) <==> !testnet && !simnet
  {
    var params := MainNet;
    var afterTestnet := if testnet then (if simnet then OnlyOneNetwork else Selected(TestNet)) else Selected(params);
    match afterTestnet
    case OnlyOneNetwork => OnlyOneNetwork
    case Selected(net) => Selected(if simnet then SimNet else net)
  }
}
