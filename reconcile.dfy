/**
 * The two tasks together: a snapshot the builder produced, verified against
 * a live network, passes the integrity check everywhere and reports nothing
 * exactly when the live contracts at the canonical addresses hold the code
 * and slots the fresh instances held when the snapshot was captured.
 */
module Reconcile {
  import opened Wrappers
  import opened Registry
  import opened Rpc
  import B = Builder
  import V = Verifier

  /**
   * The live contracts at the canonical addresses of `book` hold what the
   * fresh instances of `dep` held on the chain the snapshot was captured from.
   */
  predicate LiveMirrors(live: Chain, captured: Chain, book: AddressBook, dep: B.Deployment) {
    && live.code(book.exchangeDeposit) == captured.code(dep.ex.address)
    && live.storage(book.exchangeDeposit, "0x0") == captured.storage(dep.ex.address, "0x0")
    && live.storage(book.exchangeDeposit, "0x1") == captured.storage(dep.ex.address, "0x1")
    && live.code(book.proxyFactory) == captured.code(dep.pf.address)
  }

  /** Every environment of `table` is mirrored on the live chain. */
  predicate Unchanged(live: Chain, captured: Chain, table: seq<(Environment, AddressBook)>, d: B.Deployer) {
    forall i :: 0 <= i < |table| ==> LiveMirrors(live, captured, table[i].1, B.Deploy(d, table[i].0, table[i].1))
  }

  /** A built snapshot records both slots in every deposit entry, so the verifier can read it. */
  lemma BuiltSnapshotWellFormed(table: seq<(Environment, AddressBook)>, d: B.Deployer, chain: Chain)
    requires B.Build(table, d, chain).outcome.Success?
    ensures V.WellFormed(B.Build(table, d, chain).outcome.value)
  {
    var s := B.Build(table, d, chain).outcome.value;
    B.SnapshotShape(table, d, chain);
    forall c | c in s && c.name == ExchangeDeposit
      ensures V.StorageRecorded(c)
    {
      var k :| 0 <= k < |s| && s[k] == c;
      var i := k / 2;
      assert B.EntriesAt(s, table, d, chain, i);
      assert k == 2 * i || k == 2 * i + 1;
    }
  }

  /** Entries 2i and 2i+1 are the deposit and the factory entry of environment keys[i]. */
  predicate PairedBy(s: seq<Code>, keys: seq<Environment>) {
    |s| == 2 * |keys| &&
    forall i :: 0 <= i < |keys| ==>
      && s[2 * i].name == ExchangeDeposit && s[2 * i].environment == keys[i]
      && s[2 * i + 1].name == ProxyFactory && s[2 * i + 1].environment == keys[i]
  }

  /** A built snapshot is paired by the environments of its table. */
  lemma BuiltSnapshotPaired(table: seq<(Environment, AddressBook)>, d: B.Deployer, chain: Chain)
    requires B.Build(table, d, chain).outcome.Success?
    ensures PairedBy(B.Build(table, d, chain).outcome.value, Keys(table))
  {
    var s := B.Build(table, d, chain).outcome.value;
    B.SnapshotShape(table, d, chain);
    forall i | 0 <= i < |table|
      ensures s[2 * i].name == ExchangeDeposit && s[2 * i].environment == Keys(table)[i]
      ensures s[2 * i + 1].name == ProxyFactory && s[2 * i + 1].environment == Keys(table)[i]
    {
      assert B.EntriesAt(s, table, d, chain, i);
    }
  }

  /** Selecting environment keys[j] from the first m entries of a paired snapshot. */
  lemma {:induction false} SelectPairedPrefix(s: seq<Code>, keys: seq<Environment>, j: nat, m: nat)
    requires PairedBy(s, keys) && Distinct(keys)
    requires j < |keys| && m <= |s|
    ensures V.Select(s[..m], keys[j]) ==
              if m <= 2 * j then [] else if m == 2 * j + 1 then [s[2 * j]] else [s[2 * j], s[2 * j + 1]]
    decreases m
  {
    if m > 0 {
      var k, i := m - 1, (m - 1) / 2;
      SelectPairedPrefix(s, keys, j, k);
      assert s[..m][..k] == s[..k];
      assert V.Select(s[..m], keys[j]) ==
               V.Select(s[..k], keys[j]) + (if s[k].environment == keys[j] then [s[k]] else []);
      assert k == 2 * i || k == 2 * i + 1;
      assert s[k].environment == keys[i];
      if i < j {
        assert keys[i] != keys[j];
      } else if j < i {
        assert keys[j] != keys[i];
      }
    }
  }

  /**
   * In a paired snapshot without repeated environments, every environment
   * passes the integrity check, locating exactly its own pair.
   */
  lemma LocatePaired(s: seq<Code>, keys: seq<Environment>, j: nat)
    requires PairedBy(s, keys) && Distinct(keys) && j < |keys|
    ensures V.Select(s, keys[j]) == [s[2 * j], s[2 * j + 1]]
    ensures V.Locate(s, keys[j]) == Some((s[2 * j], s[2 * j + 1]))
  {
    SelectPairedPrefix(s, keys, j, |s|);
    assert s[..|s|] == s;
    var sel := [s[2 * j], s[2 * j + 1]];
    assert sel[1..] == [s[2 * j + 1]];
    assert V.Find(sel, ProxyFactory) == Some(s[2 * j + 1]);
  }

  /**
   * A pair of entries captured from fresh instances matches the live chain
   * exactly when the live chain mirrors those instances at the canonical
   * addresses.
   */
  lemma CapturedPairMatchesLive(ex: Code, pf: Code, book: AddressBook, dep: B.Deployment, captured: Chain, live: Chain)
    requires ex.address == book.exchangeDeposit && pf.address == book.proxyFactory
    requires ex.code == captured.code(dep.ex.address) && pf.code == captured.code(dep.pf.address)
    requires ex.storage == map["0x00" := captured.storage(dep.ex.address, "0x0"),
                               "0x01" := captured.storage(dep.ex.address, "0x1")]
    ensures V.StorageRecorded(ex)
    ensures V.LiveMatches(ex, pf, live) <==> LiveMirrors(live, captured, book, dep)
  {
  }

  /**
   * Environment j of a built snapshot passes the integrity check, and its
   * live comparison succeeds exactly when the live chain mirrors its
   * captured instances.
   */
  lemma BuiltEntryMatchesLive(table: seq<(Environment, AddressBook)>, d: B.Deployer, captured: Chain, live: Chain, j: nat)
    requires B.Build(table, d, captured).outcome.Success?
    requires Distinct(Keys(table)) && j < |table|
    ensures var s := B.Build(table, d, captured).outcome.value;
            && V.Locate(s, table[j].0).Some?
            && (V.MatchesLive(V.Locate(s, table[j].0), live) <==>
                  LiveMirrors(live, captured, table[j].1, B.Deploy(d, table[j].0, table[j].1)))
  {
    var s := B.Build(table, d, captured).outcome.value;
    BuiltSnapshotPaired(table, d, captured);
    LocatePaired(s, Keys(table), j);
    B.SnapshotShape(table, d, captured);
    assert B.EntriesAt(s, table, d, captured, j);
    CapturedPairMatchesLive(s[2 * j], s[2 * j + 1], table[j].1, B.Deploy(d, table[j].0, table[j].1), captured, live);
  }

  /** Which environments of `table` the live chain mirrors. */
  function Mirrored(table: seq<(Environment, AddressBook)>, d: B.Deployer, captured: Chain, live: Chain): (m: seq<bool>)
    ensures |m| == |table|
    ensures forall j :: 0 <= j < |table| ==>
              (m[j] <==> LiveMirrors(live, captured, table[j].1, B.Deploy(d, table[j].0, table[j].1)))
  {
    seq(|table|, j requires 0 <= j < |table| =>
          LiveMirrors(live, captured, table[j].1, B.Deploy(d, table[j].0, table[j].1)))
  }

  /** Every environment of a built snapshot passes the integrity check and matches live state as mirrored. */
  lemma BuiltAllMatchLive(table: seq<(Environment, AddressBook)>, d: B.Deployer, captured: Chain, live: Chain)
    requires B.Build(table, d, captured).outcome.Success?
    requires Distinct(Keys(table))
    ensures var s, envs, m := B.Build(table, d, captured).outcome.value, Keys(table), Mirrored(table, d, captured, live);
            forall j :: 0 <= j < |envs| ==>
              V.Locate(s, envs[j]).Some? && (V.MatchesLive(V.Locate(s, envs[j]), live) <==> m[j])
  {
    forall j | 0 <= j < |table| {
      BuiltEntryMatchesLive(table, d, captured, live, j);
    }
  }

  /**
   * A verification over environments that all pass the integrity check,
   * where `mirrored` says which environments match live state: it
   * completes, reports nothing exactly when all are mirrored, and reports
   * every environment that is not.
   */
  lemma VerifyAllLocated(s: seq<Code>, live: Chain, envs: seq<Environment>, mirrored: seq<bool>)
    requires V.WellFormed(s) && |mirrored| == |envs|
    requires forall j :: 0 <= j < |envs| ==> V.Locate(s, envs[j]).Some?
    requires forall j :: 0 <= j < |envs| ==> (V.MatchesLive(V.Locate(s, envs[j]), live) <==> mirrored[j])
    ensures var r := V.Verify(s, live, envs);
            && r.abort.None?
            && (r.reports == [] <==> forall j :: 0 <= j < |envs| ==> mirrored[j])
            && forall j :: 0 <= j < |envs| && !mirrored[j] ==>
                 exists rep :: rep in r.reports && rep.environment == envs[j]
  {
    V.VerifyCompletesIff(s, live, envs);
    V.VerifyReportsAll(s, live, envs);
  }

  /**
   * Verifying a built snapshot over the table's environments never stops
   * early, and it reports nothing exactly when the live chain mirrors the
   * captured instances everywhere.
   */
  lemma VerifyAfterBuild(table: seq<(Environment, AddressBook)>, d: B.Deployer, captured: Chain, live: Chain)
    requires B.Build(table, d, captured).outcome.Success?
    requires Distinct(Keys(table))
    ensures V.WellFormed(B.Build(table, d, captured).outcome.value)
    ensures var r := V.Verify(B.Build(table, d, captured).outcome.value, live, Keys(table));
            r.abort.None? && (r.reports == [] <==> Unchanged(live, captured, table, d))
  {
    var s := B.Build(table, d, captured).outcome.value;
    BuiltSnapshotWellFormed(table, d, captured);
    BuiltAllMatchLive(table, d, captured, live);
    VerifyAllLocated(s, live, Keys(table), Mirrored(table, d, captured, live));
  }

  /**
   * Verifying a built snapshot reports, under its own name, every
   * environment whose live contracts drifted from the captured instances.
   */
  lemma DriftIsReported(table: seq<(Environment, AddressBook)>, d: B.Deployer, captured: Chain, live: Chain, j: nat)
    requires B.Build(table, d, captured).outcome.Success?
    requires Distinct(Keys(table)) && j < |table|
    requires !LiveMirrors(live, captured, table[j].1, B.Deploy(d, table[j].0, table[j].1))
    ensures V.WellFormed(B.Build(table, d, captured).outcome.value)
    ensures exists rep :: rep in V.Verify(B.Build(table, d, captured).outcome.value, live, Keys(table)).reports &&
                          rep.environment == table[j].0
  {
    var s := B.Build(table, d, captured).outcome.value;
    BuiltSnapshotWellFormed(table, d, captured);
    BuiltAllMatchLive(table, d, captured, live);
    VerifyAllLocated(s, live, Keys(table), Mirrored(table, d, captured, live));
  }

  /**
   * The registry's own table: a snapshot the builder produced from the
   * address table passes the verifier's integrity check for all four
   * environments, and the verifier reports nothing exactly when no
   * contract at a canonical address drifted.
   */
  lemma RegistryRoundTrip(d: B.Deployer, captured: Chain, live: Chain)
    requires B.Build(ContractAddresses, d, captured).outcome.Success?
    ensures V.WellFormed(B.Build(ContractAddresses, d, captured).outcome.value)
    ensures var r := V.Verify(B.Build(ContractAddresses, d, captured).outcome.value, live, Environments);
            r.abort.None? && (r.reports == [] <==> Unchanged(live, captured, ContractAddresses, d))
  {
    ContractAddressesFollowEnvironments();
    VerifyAfterBuild(ContractAddresses, d, captured, live);
  }
}
