/**
 * The snapshot builder of tasks/bitbank.ts: for every environment of the
 * address table, deploy a fresh ExchangeDeposit and ProxyFactory, check the
 * four configuration getters, read back bytecode and the two storage slots
 * of the fresh instances, and append two entries recorded under the
 * canonical addresses.
 */
module Builder {
  import opened Wrappers
  import opened Registry
  import opened Rpc

  /** The error `assertVariable` throws, naming both values. */
  datatype BuildError = VariableMismatch(expected: string, actual: string)

  /** `assertVariable`: passes exactly when the fetched value is the expected string. */
  function AssertVariable(actual: string, expected: string): (r: Outcome<BuildError>)
    ensures r.Pass? <==> actual == expected
    ensures r.Fail? ==> r.error == VariableMismatch(expected, actual)
  {
    if actual != expected then Fail(VariableMismatch(expected, actual)) else Pass
  }

  /** What the getters of a freshly deployed ExchangeDeposit report, and where it was deployed. */
  datatype DeployedExchangeDeposit = DeployedExchangeDeposit(
    address: string, coldAddress: string, adminAddress: string, thisAddress: string)

  /** What the getter of a freshly deployed ProxyFactory reports, and where it was deployed. */
  datatype DeployedProxyFactory = DeployedProxyFactory(address: string, mainAddress: string)

  /**
   * The contract factories: ExchangeDeposit from (cold address, admin
   * address, self address), ProxyFactory from the main (deposit) address.
   */
  datatype Deployer = Deployer(
    exchangeDeposit: (string, string, string) -> DeployedExchangeDeposit,
    proxyFactory: string -> DeployedProxyFactory)

  datatype Deployment = Deployment(ex: DeployedExchangeDeposit, pf: DeployedProxyFactory)

  /** The two deployments the builder makes for one environment. */
  function Deploy(d: Deployer, env: Environment, book: AddressBook): Deployment {
    var args := ConstructorArgsOf(env);
    Deployment(d.exchangeDeposit(args.coldAddr, args.adminAddr, book.exchangeDeposit),
               d.proxyFactory(book.exchangeDeposit))
  }

  /** The four configuration values equal what was passed at construction. */
  predicate ConfigurationMatches(args: ConstructorArgs, book: AddressBook, dep: Deployment) {
    && dep.ex.coldAddress == args.coldAddr
    && dep.ex.adminAddress == args.adminAddr
    && dep.ex.thisAddress == book.exchangeDeposit
    && dep.pf.mainAddress == book.exchangeDeposit
  }

  /** The four checks of one environment, in order; the first mismatch is the error. */
  function CheckDeployment(args: ConstructorArgs, book: AddressBook, dep: Deployment): (r: Outcome<BuildError>)
    ensures r.Pass? <==> ConfigurationMatches(args, book, dep)
    ensures dep.ex.coldAddress != args.coldAddr ==>
              r == Fail(VariableMismatch(args.coldAddr, dep.ex.coldAddress))
    ensures dep.ex.coldAddress == args.coldAddr && dep.ex.adminAddress != args.adminAddr ==>
              r == Fail(VariableMismatch(args.adminAddr, dep.ex.adminAddress))
    ensures dep.ex.coldAddress == args.coldAddr && dep.ex.adminAddress == args.adminAddr &&
            dep.ex.thisAddress != book.exchangeDeposit ==>
              r == Fail(VariableMismatch(book.exchangeDeposit, dep.ex.thisAddress))
    ensures dep.ex.coldAddress == args.coldAddr && dep.ex.adminAddress == args.adminAddr &&
            dep.ex.thisAddress == book.exchangeDeposit && dep.pf.mainAddress != book.exchangeDeposit ==>
              r == Fail(VariableMismatch(book.exchangeDeposit, dep.pf.mainAddress))
  {
    match AssertVariable(dep.ex.coldAddress, args.coldAddr)
    case Fail(e) => Fail(e)
    case Pass =>
      match AssertVariable(dep.ex.adminAddress, args.adminAddr)
      case Fail(e) => Fail(e)
      case Pass =>
        match AssertVariable(dep.ex.thisAddress, book.exchangeDeposit)
        case Fail(e) => Fail(e)
        case Pass => AssertVariable(dep.pf.mainAddress, book.exchangeDeposit)
  }

  /** Slot indices passed to `eth_getStorageAt`. */
  const ColdAddressSlot: string := "0x0"
  const MinimumInputSlot: string := "0x1"

  /** Keys under which the two slots are recorded in an ExchangeDeposit entry. */
  const ColdAddressKey: string := "0x00"
  const MinimumInputKey: string := "0x01"

  /** The reads made for one environment, in order, all at the fresh instances. */
  function CaptureRequests(dep: Deployment): seq<Request> {
    [GetCode(dep.ex.address, BlockTag),
     GetStorageAt(dep.ex.address, ColdAddressSlot, BlockTag),
     GetStorageAt(dep.ex.address, MinimumInputSlot, BlockTag),
     GetCode(dep.pf.address, BlockTag)]
  }

  /** The two entries of one environment, built from the answers to CaptureRequests. */
  function Capture(env: Environment, book: AddressBook, dep: Deployment, chain: Chain): seq<Code> {
    var q := CaptureRequests(dep);
    [Code(ExchangeDeposit, env, book.exchangeDeposit, Send(chain, q[0]),
          map[ColdAddressKey := Send(chain, q[1]), MinimumInputKey := Send(chain, q[2])]),
     Code(ProxyFactory, env, book.proxyFactory, Send(chain, q[3]), map[])]
  }

  /**
   * All four reads are at the latest block and at the fresh instances, and
   * only the fresh deposit contract's storage is read.
   */
  lemma CaptureReadsFresh(dep: Deployment)
    ensures |CaptureRequests(dep)| == 4
    ensures forall q :: q in CaptureRequests(dep) ==>
              q.blockTag == BlockTag && (q.address == dep.ex.address || q.address == dep.pf.address)
    ensures forall q :: q in CaptureRequests(dep) && q.GetStorageAt? ==> q.address == dep.ex.address
  {
  }

  /**
   * The entries are recorded under the canonical addresses and hold what
   * was read at the fresh instances: bytecode of both, the deposit
   * contract's two slots, and no factory storage.
   */
  lemma CaptureRecordsFresh(env: Environment, book: AddressBook, dep: Deployment, chain: Chain)
    ensures var r := Capture(env, book, dep, chain);
            && |r| == 2
            && r[0].name == ExchangeDeposit && r[0].environment == env && r[0].address == book.exchangeDeposit
            && r[1].name == ProxyFactory && r[1].environment == env && r[1].address == book.proxyFactory
            && r[0].code == chain.code(dep.ex.address) && r[1].code == chain.code(dep.pf.address)
            && r[0].storage == map[ColdAddressKey := chain.storage(dep.ex.address, ColdAddressSlot),
                                   MinimumInputKey := chain.storage(dep.ex.address, MinimumInputSlot)]
            && r[1].storage == map[]
  {
  }

  /** A builder run: the snapshot or the first mismatch, and the reads issued. */
  datatype Run = Run(outcome: Result<seq<Code>, BuildError>, requests: seq<Request>)

  /** The run over the environments of `table`, in order, stopping at the first mismatch. */
  function Build(table: seq<(Environment, AddressBook)>, d: Deployer, chain: Chain): Run
    decreases |table|
  {
    if table == [] then Run(Success([]), [])
    else
      var prev := Build(table[..|table| - 1], d, chain);
      if prev.outcome.Failure? then prev
      else
        var env, book := table[|table| - 1].0, table[|table| - 1].1;
        var dep := Deploy(d, env, book);
        match CheckDeployment(ConstructorArgsOf(env), book, dep)
        case Fail(e) => Run(Failure(e), prev.requests)
        case Pass => Run(Success(prev.outcome.value + Capture(env, book, dep, chain)),
                         prev.requests + CaptureRequests(dep))
  }

  /** Environment `i` of `table` deploys with the configuration it was given. */
  predicate DeploysAsConfigured(table: seq<(Environment, AddressBook)>, d: Deployer, i: int)
    requires 0 <= i < |table|
  {
    ConfigurationMatches(ConstructorArgsOf(table[i].0), table[i].1, Deploy(d, table[i].0, table[i].1))
  }

  /**
   * The `bitbank` task body: the loop over the address table, with the
   * snapshot accumulated in `dumps`.
   */
  method BuildSnapshot(table: seq<(Environment, AddressBook)>, d: Deployer, chain: Chain)
    returns (outcome: Result<seq<Code>, BuildError>, requests: seq<Request>)
    ensures Run(outcome, requests) == Build(table, d, chain)
  {
    var dumps: seq<Code> := [];
    requests := [];
    for i := 0 to |table|
      invariant Build(table[..i], d, chain) == Run(Success(dumps), requests)
    {
      var environment, addrs := table[i].0, table[i].1;
      var args := ConstructorArgsOf(environment);
      assert table[..i + 1][..i] == table[..i];

      ghost var dumpsBefore := dumps;

      // deploy contracts
      var deployedExchangeDeposit := d.exchangeDeposit(args.coldAddr, args.adminAddr, addrs.exchangeDeposit);
      var deployedProxyFactory := d.proxyFactory(addrs.exchangeDeposit);

      // assert contract variables
      var check := AssertVariable(deployedExchangeDeposit.coldAddress, args.coldAddr);
      if check.Pass? {
        check := AssertVariable(deployedExchangeDeposit.adminAddress, args.adminAddr);
      }
      if check.Pass? {
        check := AssertVariable(deployedExchangeDeposit.thisAddress, addrs.exchangeDeposit);
      }
      if check.Pass? {
        check := AssertVariable(deployedProxyFactory.mainAddress, addrs.exchangeDeposit);
      }
      if check.Fail? {
        outcome := Failure(check.error);
        BuildStopsAtFailure(table, i + 1, d, chain);
        return;
      }

      // get contract code
      var exCode := Send(chain, GetCode(deployedExchangeDeposit.address, BlockTag));
      var coldAddress := Send(chain, GetStorageAt(deployedExchangeDeposit.address, ColdAddressSlot, BlockTag));
      var minimumInput := Send(chain, GetStorageAt(deployedExchangeDeposit.address, MinimumInputSlot, BlockTag));
      requests := requests + [GetCode(deployedExchangeDeposit.address, BlockTag),
                              GetStorageAt(deployedExchangeDeposit.address, ColdAddressSlot, BlockTag),
                              GetStorageAt(deployedExchangeDeposit.address, MinimumInputSlot, BlockTag)];
      dumps := dumps + [Code(ExchangeDeposit, environment, addrs.exchangeDeposit, exCode,
                             map[ColdAddressKey := coldAddress, MinimumInputKey := minimumInput])];
      var pfCode := Send(chain, GetCode(deployedProxyFactory.address, BlockTag));
      requests := requests + [GetCode(deployedProxyFactory.address, BlockTag)];
      dumps := dumps + [Code(ProxyFactory, environment, addrs.proxyFactory, pfCode, map[])];
      ghost var dep := Deployment(deployedExchangeDeposit, deployedProxyFactory);
      assert dep == Deploy(d, environment, addrs);
      assert CheckDeployment(args, addrs, dep).Pass?;
      assert dumps == dumpsBefore + Capture(environment, addrs, dep, chain);
    }
    assert table[..|table|] == table;
    outcome := Success(dumps);
  }

  /** Once a prefix of the table has failed, the whole run is that failure. */
  lemma {:induction false} BuildStopsAtFailure(table: seq<(Environment, AddressBook)>, k: nat, d: Deployer, chain: Chain)
    requires k <= |table|
    requires Build(table[..k], d, chain).outcome.Failure?
    ensures Build(table, d, chain) == Build(table[..k], d, chain)
    decreases |table|
  {
    if k < |table| {
      var init := table[..|table| - 1];
      assert init[..k] == table[..k];
      BuildStopsAtFailure(init, k, d, chain);
    } else {
      assert table[..k] == table;
    }
  }

  /** The run succeeds exactly when every environment deploys with its configuration. */
  lemma {:induction false} BuildSucceedsIff(table: seq<(Environment, AddressBook)>, d: Deployer, chain: Chain)
    ensures Build(table, d, chain).outcome.Success? <==>
              forall i :: 0 <= i < |table| ==> DeploysAsConfigured(table, d, i)
    decreases |table|
  {
    if table != [] {
      var n := |table| - 1;
      var init := table[..n];
      BuildSucceedsIff(init, d, chain);
      forall i | 0 <= i < n
        ensures DeploysAsConfigured(init, d, i) <==> DeploysAsConfigured(table, d, i)
      {
        assert init[i] == table[i];
      }
      var dep := Deploy(d, table[n].0, table[n].1);
      var check := CheckDeployment(ConstructorArgsOf(table[n].0), table[n].1, dep);
      assert DeploysAsConfigured(table, d, n) <==> check.Pass?;
      if Build(init, d, chain).outcome.Success? {
        assert Build(table, d, chain).outcome.Success? <==> check.Pass?;
      } else {
        assert Build(table, d, chain).outcome.Failure?;
      }
    }
  }

  /**
   * A failing run fails with the first mismatch of the first environment
   * that does not deploy as configured, after the reads of every earlier
   * environment and before any read of that one.
   */
  lemma BuildFailsAtFirstMismatch(table: seq<(Environment, AddressBook)>, d: Deployer, chain: Chain, k: nat)
    requires k < |table|
    requires forall j :: 0 <= j < k ==> DeploysAsConfigured(table, d, j)
    requires !DeploysAsConfigured(table, d, k)
    ensures Build(table[..k], d, chain).outcome.Success?
    ensures Build(table, d, chain) ==
              Run(Failure(CheckDeployment(ConstructorArgsOf(table[k].0), table[k].1,
                                          Deploy(d, table[k].0, table[k].1)).error),
                  Build(table[..k], d, chain).requests)
  {
    var pre := table[..k];
    BuildSucceedsIff(pre, d, chain);
    assert forall j :: 0 <= j < k ==> (DeploysAsConfigured(pre, d, j) <==> DeploysAsConfigured(table, d, j));
    assert table[..k + 1][..k] == pre;
    BuildStopsAtFailure(table, k + 1, d, chain);
  }

  /** The two entries of environment `i`, as SnapshotShape describes them. */
  predicate EntriesAt(s: seq<Code>, table: seq<(Environment, AddressBook)>, d: Deployer, chain: Chain, i: int)
    requires 0 <= i < |table| && 2 * i + 1 < |s|
  {
    var dep := Deploy(d, table[i].0, table[i].1);
    && s[2 * i] == Code(ExchangeDeposit, table[i].0, table[i].1.exchangeDeposit,
                        chain.code(dep.ex.address),
                        map["0x00" := chain.storage(dep.ex.address, "0x0"),
                            "0x01" := chain.storage(dep.ex.address, "0x1")])
    && s[2 * i + 1] == Code(ProxyFactory, table[i].0, table[i].1.proxyFactory,
                            chain.code(dep.pf.address), map[])
  }

  /**
   * A successful snapshot holds two entries per environment in table order,
   * ExchangeDeposit first: each recorded under the canonical address, with
   * code and storage read at the freshly deployed instance; the deposit
   * entry holds exactly the two slots, the factory entry no slot.
   */
  lemma {:induction false} SnapshotShape(table: seq<(Environment, AddressBook)>, d: Deployer, chain: Chain)
    requires Build(table, d, chain).outcome.Success?
    ensures var s := Build(table, d, chain).outcome.value;
            |s| == 2 * |table| && forall i :: 0 <= i < |table| ==> EntriesAt(s, table, d, chain, i)
    decreases |table|
  {
    if table != [] {
      var n := |table| - 1;
      var init := table[..n];
      SnapshotShape(init, d, chain);
      var prev := Build(init, d, chain).outcome.value;
      var s := Build(table, d, chain).outcome.value;
      assert s == prev + Capture(table[n].0, table[n].1, Deploy(d, table[n].0, table[n].1), chain);
      forall i | 0 <= i < |table|
        ensures EntriesAt(s, table, d, chain, i)
      {
        if i < n {
          assert EntriesAt(prev, init, d, chain, i);
          assert s[2 * i] == prev[2 * i] && s[2 * i + 1] == prev[2 * i + 1];
        }
      }
    }
  }

  /** The four reads of environment `i`, as SnapshotRequests describes them. */
  predicate RequestsAt(q: seq<Request>, table: seq<(Environment, AddressBook)>, d: Deployer, i: int)
    requires 0 <= i < |table| && 4 * i + 3 < |q|
  {
    var dep := Deploy(d, table[i].0, table[i].1);
    && q[4 * i] == GetCode(dep.ex.address, "latest")
    && q[4 * i + 1] == GetStorageAt(dep.ex.address, "0x0", "latest")
    && q[4 * i + 2] == GetStorageAt(dep.ex.address, "0x1", "latest")
    && q[4 * i + 3] == GetCode(dep.pf.address, "latest")
  }

  /**
   * A successful run reads four values per environment, in table order: the
   * deposit contract's code and its slots 0 and 1, then the factory's code,
   * all at the freshly deployed instances and at the latest block.
   */
  lemma {:induction false} SnapshotRequests(table: seq<(Environment, AddressBook)>, d: Deployer, chain: Chain)
    requires Build(table, d, chain).outcome.Success?
    ensures var q := Build(table, d, chain).requests;
            |q| == 4 * |table| && forall i :: 0 <= i < |table| ==> RequestsAt(q, table, d, i)
    decreases |table|
  {
    if table != [] {
      var n := |table| - 1;
      var init := table[..n];
      SnapshotRequests(init, d, chain);
      var prev := Build(init, d, chain).requests;
      var q := Build(table, d, chain).requests;
      assert q == prev + CaptureRequests(Deploy(d, table[n].0, table[n].1));
      forall i | 0 <= i < |table|
        ensures RequestsAt(q, table, d, i)
      {
        if i < n {
          assert RequestsAt(prev, init, d, i);
          assert q[4 * i] == prev[4 * i] && q[4 * i + 1] == prev[4 * i + 1];
          assert q[4 * i + 2] == prev[4 * i + 2] && q[4 * i + 3] == prev[4 * i + 3];
        }
      }
    }
  }

  /** Every read of a run is made at the block tag "latest". */
  lemma {:induction false} BuildReadsLatest(table: seq<(Environment, AddressBook)>, d: Deployer, chain: Chain)
    ensures forall q :: q in Build(table, d, chain).requests ==> q.blockTag == "latest"
    decreases |table|
  {
    if table != [] {
      BuildReadsLatest(table[..|table| - 1], d, chain);
    }
  }

  /** Two deployments report the same configuration values, wherever they were deployed. */
  predicate SameConfiguration(a: Deployment, b: Deployment) {
    && a.ex.coldAddress == b.ex.coldAddress
    && a.ex.adminAddress == b.ex.adminAddress
    && a.ex.thisAddress == b.ex.thisAddress
    && a.pf.mainAddress == b.pf.mainAddress
  }

  /**
   * The deployed addresses are never compared: two factories whose instances
   * report the same configuration give the same verdict, and on success the
   * same roles, environments and recorded addresses.
   */
  lemma {:induction false} BuildIgnoresDeployedAddresses(
    table: seq<(Environment, AddressBook)>, d1: Deployer, d2: Deployer, chain: Chain)
    requires forall i :: 0 <= i < |table| ==>
               SameConfiguration(Deploy(d1, table[i].0, table[i].1), Deploy(d2, table[i].0, table[i].1))
    ensures Build(table, d1, chain).outcome.Success? == Build(table, d2, chain).outcome.Success?
    ensures Build(table, d1, chain).outcome.Failure? ==>
              Build(table, d1, chain).outcome.error == Build(table, d2, chain).outcome.error
    ensures Build(table, d1, chain).outcome.Success? ==>
              var s1, s2 := Build(table, d1, chain).outcome.value, Build(table, d2, chain).outcome.value;
              |s1| == |s2| &&
              forall i :: 0 <= i < |s1| ==>
                s1[i].name == s2[i].name && s1[i].environment == s2[i].environment &&
                s1[i].address == s2[i].address && s1[i].storage.Keys == s2[i].storage.Keys
    decreases |table|
  {
    if table != [] {
      var n := |table| - 1;
      var init := table[..n];
      BuildIgnoresDeployedAddresses(init, d1, d2, chain);
      assert SameConfiguration(Deploy(d1, table[n].0, table[n].1), Deploy(d2, table[n].0, table[n].1));
    }
  }

  /**
   * For a table listing the environments in the order of the environment
   * list (the registry's own, by ContractAddressesFollowEnvironments):
   * entries 2i and 2i+1 are the two roles of environment i.
   */
  lemma SnapshotFollowsEnvironments(table: seq<(Environment, AddressBook)>, d: Deployer, chain: Chain)
    requires Keys(table) == Environments
    requires Build(table, d, chain).outcome.Success?
    ensures var s := Build(table, d, chain).outcome.value;
            |s| == 8 &&
            forall i :: 0 <= i < 4 ==>
              s[2 * i].name == ExchangeDeposit && s[2 * i + 1].name == ProxyFactory &&
              s[2 * i].environment == Environments[i] && s[2 * i + 1].environment == Environments[i]
  {
    var s := Build(table, d, chain).outcome.value;
    SnapshotShape(table, d, chain);
    forall i | 0 <= i < 4
      ensures s[2 * i].name == ExchangeDeposit && s[2 * i + 1].name == ProxyFactory
      ensures s[2 * i].environment == Environments[i] && s[2 * i + 1].environment == Environments[i]
    {
      assert EntriesAt(s, table, d, chain, i);
      assert Keys(table)[i] == table[i].0;
    }
  }

  /**
   * The registry's own address table: the snapshot holds the deposit and
   * factory entries of the four environments in list order, each recorded
   * under that environment's canonical address.
   */
  lemma RegistrySnapshot(d: Deployer, chain: Chain)
    requires Build(ContractAddresses, d, chain).outcome.Success?
    ensures var s := Build(ContractAddresses, d, chain).outcome.value;
            |s| == 8 &&
            forall i :: 0 <= i < 4 ==>
              && s[2 * i].name == ExchangeDeposit && s[2 * i + 1].name == ProxyFactory
              && s[2 * i].environment == Environments[i] && s[2 * i + 1].environment == Environments[i]
              && s[2 * i].address == ContractAddresses[i].1.exchangeDeposit
              && s[2 * i + 1].address == ContractAddresses[i].1.proxyFactory
  {
    var s := Build(ContractAddresses, d, chain).outcome.value;
    ContractAddressesFollowEnvironments();
    SnapshotFollowsEnvironments(ContractAddresses, d, chain);
    SnapshotShape(ContractAddresses, d, chain);
    forall i | 0 <= i < 4
      ensures s[2 * i].address == ContractAddresses[i].1.exchangeDeposit
      ensures s[2 * i + 1].address == ContractAddresses[i].1.proxyFactory
    {
      assert EntriesAt(s, ContractAddresses, d, chain, i);
    }
  }
}
