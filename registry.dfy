/**
 * The environment registry: the closed set of deployment environments, the
 * two tracked contract roles, the snapshot record, and the two constant
 * tables (canonical addresses and constructor arguments) of
 * tasks/sharedTypes.ts.
 */
module Registry {

  /** A deployment target. */
  datatype Environment = Production | Staging | Yokohama | Dev

  /** The label an environment carries in the snapshot file and in reports. */
  function EnvironmentName(e: Environment): string {
    match e
    case Production => "production"
    case Staging => "staging"
    case Yokohama => "yokohama"
    case Dev => "dev"
  }

  /** The recognised environments, in the order both tasks visit them. */
  const Environments: seq<Environment> := [Production, Staging, Yokohama, Dev]

  /** The two tracked contract roles. */
  datatype Contract = ExchangeDeposit | ProxyFactory

  function ContractName(c: Contract): string {
    match c
    case ExchangeDeposit => "ExchangeDeposit"
    case ProxyFactory => "ProxyFactory"
  }

  /**
   * One snapshot entry: the role, the environment, the recorded address,
   * the bytecode and the captured storage slots (slot key to 32-byte word).
   */
  datatype Code = Code(
    name: Contract,
    environment: Environment,
    address: string,
    code: string,
    storage: map<string, string>)

  /** The canonical address of each role in one environment. */
  datatype AddressBook = AddressBook(exchangeDeposit: string, proxyFactory: string)

  function AddressOf(book: AddressBook, c: Contract): string {
    match c
    case ExchangeDeposit => book.exchangeDeposit
    case ProxyFactory => book.proxyFactory
  }

  /**
   * The `contractAddresses` table, as its entries in key order: this is the
   * sequence the snapshot builder iterates.
   */
  const ContractAddresses: seq<(Environment, AddressBook)> := [
    (Production, AddressBook("0x5200000000000000000000000000000000000024",
                             "0x5200000000000000000000000000000000000025")),
    (Staging,    AddressBook("0x5200000000000000000000000000000000000026",
                             "0x5200000000000000000000000000000000000027")),
    (Yokohama,   AddressBook("0x5200000000000000000000000000000000000028",
                             "0x5200000000000000000000000000000000000029")),
    (Dev,        AddressBook("0x5200000000000000000000000000000000000030",
                             "0x5200000000000000000000000000000000000031"))
  ]

  /** The deposit contract's constructor arguments in one environment. */
  datatype ConstructorArgs = ConstructorArgs(coldAddr: string, adminAddr: string)

  /** The `constructorArgs` table, keyed by environment. */
  function ConstructorArgsOf(e: Environment): ConstructorArgs {
    match e
    case Production => ConstructorArgs("0x3727cfCBD85390Bb11B3fF421878123AdB866be8",
                                       "0xE643b5fAd9EFE257d59c17fE19a9BbAC809016b9")
    case Staging => ConstructorArgs("0xa3A80B4DAa8be824B73f689eb87Fb0955446DecE",
                                    "0xd4973C24a370fAce9a53f477f7e369E398865805")
    case Yokohama => ConstructorArgs("0x6F83F131b8C3F29F24Fd146C6b75bCE0844dc6d3",
                                     "0x0434fa25152dBd34A906A192B6cA5B4a8e0030ee")
    case Dev => ConstructorArgs("0xBa7b3124bD11C738e22C2eE61F46Cb2108D2356B",
                                "0xFB0A2b538bd0C86dB72F3B18cF1CEc634dF2DAdE")
  }

  /** The block every chain read is made at. */
  const BlockTag: string := "latest"

  /** The environments listed in a table, in its order. */
  function Keys(table: seq<(Environment, AddressBook)>): (ks: seq<Environment>)
    ensures |ks| == |table|
    ensures forall i :: 0 <= i < |table| ==> ks[i] == table[i].0
  {
    if table == [] then [] else [table[0].0] + Keys(table[1..])
  }

  /** No environment is listed twice. */
  predicate Distinct(envs: seq<Environment>) {
    forall i, j :: 0 <= i < j < |envs| ==> envs[i] != envs[j]
  }

  /** The environment list is exactly the four labels, in order, each once, and covers every environment. */
  lemma EnvironmentsExact()
    ensures |Environments| == 4 && Distinct(Environments)
    ensures forall e: Environment :: e in Environments
    ensures forall i :: 0 <= i < |Environments| ==>
              EnvironmentName(Environments[i]) == ["production", "staging", "yokohama", "dev"][i]
    ensures forall e, f :: EnvironmentName(e) == EnvironmentName(f) ==> e == f
  {
    forall e: Environment
      ensures e in Environments
    {
      match e
      case Production => assert Environments[0] == e;
      case Staging => assert Environments[1] == e;
      case Yokohama => assert Environments[2] == e;
      case Dev => assert Environments[3] == e;
    }
    forall e, f | EnvironmentName(e) == EnvironmentName(f)
      ensures e == f
    {
      // the names differ already in their first or second character
      assert EnvironmentName(e)[0] == EnvironmentName(f)[0];
      assert EnvironmentName(e)[1] == EnvironmentName(f)[1];
    }
  }

  /** Every role is one of the two, and the two have distinct names. */
  lemma ContractsExact()
    ensures forall c: Contract :: ContractName(c) == "ExchangeDeposit" || ContractName(c) == "ProxyFactory"
    ensures ContractName(ExchangeDeposit) != ContractName(ProxyFactory)
  {
    assert ContractName(ExchangeDeposit)[0] != ContractName(ProxyFactory)[0];
  }

  /** A value of the length of a written address: "0x" and forty hexadecimal digits. */
  predicate IsAddress(a: string) {
    |a| == 42
  }

  /** The address table is total: every environment has an entry. */
  lemma ContractAddressesTotal()
    ensures forall e: Environment :: e in Keys(ContractAddresses)
  {
    EnvironmentsExact();
    ContractAddressesFollowEnvironments();
  }

  /** Every canonical address is a well-formed address. */
  lemma CanonicalAddressesWellFormed()
    ensures forall i, c :: 0 <= i < |ContractAddresses| ==> IsAddress(AddressOf(ContractAddresses[i].1, c))
  {
  }

  /** The constructor-argument table is total: every environment has both addresses. */
  lemma ConstructorArgsTotal()
    ensures forall e: Environment :: IsAddress(ConstructorArgsOf(e).coldAddr) && IsAddress(ConstructorArgsOf(e).adminAddr)
  {
    forall e: Environment
      ensures IsAddress(ConstructorArgsOf(e).coldAddr) && IsAddress(ConstructorArgsOf(e).adminAddr)
    {
      match e
      case Production =>
      case Staging =>
      case Yokohama =>
      case Dev =>
    }
  }

  /**
   * The address table lists every environment once, in the order of the
   * environment list, so the builder (iterating the table) and the verifier
   * (iterating the list) visit environments in the same order.
   */
  lemma ContractAddressesFollowEnvironments()
    ensures Keys(ContractAddresses) == Environments
    ensures Distinct(Keys(ContractAddresses))
  {
    EnvironmentsExact();
    assert Keys(ContractAddresses)[..] == Environments[..];
  }

  /** The eight canonical addresses are pairwise distinct. */
  lemma CanonicalAddressesDistinct()
    ensures forall i, j, c, d ::
              0 <= i < |ContractAddresses| && 0 <= j < |ContractAddresses| &&
              AddressOf(ContractAddresses[i].1, c) == AddressOf(ContractAddresses[j].1, d)
              ==> i == j && c == d
  {
    forall i, j, c, d |
      0 <= i < |ContractAddresses| && 0 <= j < |ContractAddresses| &&
      AddressOf(ContractAddresses[i].1, c) == AddressOf(ContractAddresses[j].1, d)
      ensures i == j && c == d
    {
      // the addresses differ only in their last two characters
      var a, b := AddressOf(ContractAddresses[i].1, c), AddressOf(ContractAddresses[j].1, d);
      assert a[40] == b[40] && a[41] == b[41];
    }
  }
}
