/**
 * The snapshot verifier of tasks/bitbankVerify.ts: for every environment
 * of the fixed list, select that environment's snapshot entries, stop the
 * run unless they are exactly one ExchangeDeposit and one ProxyFactory, then
 * re-read bytecode and the deposit contract's two slots at the recorded
 * addresses and report every value that differs, without stopping.
 */
module Verifier {
  import opened Wrappers
  import opened Registry
  import opened Rpc

  /** One mismatch line: environment, role, and the truncated expected and live values. */
  datatype Report = Report(environment: Environment, name: Contract, expected: string, actual: string)

  /** The error the run stops with when an environment's entries are not one per role. */
  datatype VerifyError = EnvironmentNotFound(environment: Environment)

  /** Reported values are cut to 66 characters: "0x" and one 32-byte word. */
  const ReportWidth: nat := 66

  /** `slice(0, 66)`: the longest prefix of at most ReportWidth characters. */
  function Truncate(s: string): (r: string)
    ensures |r| == if |s| < ReportWidth then |s| else ReportWidth
    ensures r == s[..|r|]
  {
    if |s| <= ReportWidth then s else s[..ReportWidth]
  }

  /** `logAssert`: one report exactly when the live value differs from the recorded one; never stops. */
  function LogAssert(expected: string, actual: string, env: Environment, name: Contract): (r: seq<Report>)
    ensures r == [] <==> actual == expected
    ensures r != [] ==> r == [Report(env, name, Truncate(expected), Truncate(actual))]
  {
    if actual != expected then [Report(env, name, Truncate(expected), Truncate(actual))] else []
  }

  /** `filter`: the entries recorded for `env`, in snapshot order. */
  function Select(s: seq<Code>, env: Environment): (r: seq<Code>)
    ensures |r| <= |s|
    decreases |s|
  {
    if s == [] then []
    else
      var last := s[|s| - 1];
      Select(s[..|s| - 1], env) + (if last.environment == env then [last] else [])
  }

  /** The selection holds exactly the entries of `env`; entries of every other environment are ignored. */
  lemma {:induction false} SelectMembers(s: seq<Code>, env: Environment)
    ensures forall c :: c in Select(s, env) <==> c in s && c.environment == env
    decreases |s|
  {
    if s != [] {
      var init := s[..|s| - 1];
      SelectMembers(init, env);
      assert s == init + [s[|s| - 1]];
    }
  }

  /**
   * The selection keeps every entry of `env` as often as the snapshot holds
   * it, and no entry of another environment.
   */
  lemma {:induction false} SelectCounts(s: seq<Code>, env: Environment)
    ensures forall c :: multiset(Select(s, env))[c] == if c.environment == env then multiset(s)[c] else 0
    decreases |s|
  {
    if s != [] {
      var init := s[..|s| - 1];
      SelectCounts(init, env);
      assert s == init + [s[|s| - 1]];
    }
  }

  /** `find`: the first entry with role `name`. */
  function Find(entries: seq<Code>, name: Contract): (r: Option<Code>)
    ensures r.Some? ==> r.value in entries && r.value.name == name
  {
    if entries == [] then None
    else if entries[0].name == name then Some(entries[0])
    else Find(entries[1..], name)
  }

  /** `find` returns the first entry with role `name`: no earlier entry has that role. */
  lemma {:induction false} FindFirst(entries: seq<Code>, name: Contract)
    ensures Find(entries, name).Some? ==>
              exists i :: 0 <= i < |entries| && entries[i] == Find(entries, name).value &&
                forall k :: 0 <= k < i ==> entries[k].name != name
  {
    if entries != [] && entries[0].name != name {
      FindFirst(entries[1..], name);
      if Find(entries[1..], name).Some? {
        var i :| 0 <= i < |entries| - 1 && entries[1..][i] == Find(entries[1..], name).value &&
                 forall k :: 0 <= k < i ==> entries[1..][k].name != name;
        assert entries[i + 1] == Find(entries, name).value;
        assert forall k :: 0 <= k < i + 1 ==> entries[k].name != name by {
          forall k | 0 <= k < i + 1 ensures entries[k].name != name {
            if k > 0 { assert entries[k] == entries[1..][k - 1]; }
          }
        }
      }
    }
  }

  /** `find` fails only when no entry has role `name`. */
  lemma {:induction false} FindNone(entries: seq<Code>, name: Contract)
    ensures Find(entries, name).None? <==> !HasRole(entries, name)
  {
    if entries != [] && entries[0].name != name {
      FindNone(entries[1..], name);
      assert forall c :: c in entries ==> c == entries[0] || c in entries[1..];
    }
  }

  /** An entry list holding an entry with role `name`. */
  predicate HasRole(entries: seq<Code>, name: Contract) {
    exists c :: c in entries && c.name == name
  }

  /**
   * The per-environment integrity check: the deposit and factory entries of
   * `env`, or None when the selection is not two entries including both roles.
   */
  function Locate(s: seq<Code>, env: Environment): Option<(Code, Code)> {
    var expected := Select(s, env);
    var ex := Find(expected, ExchangeDeposit);
    var pf := Find(expected, ProxyFactory);
    if |expected| != 2 || ex.None? || pf.None? then None else Some((ex.value, pf.value))
  }

  /** The located entries are entries of the snapshot, with the right roles and environment. */
  lemma LocateFacts(s: seq<Code>, env: Environment)
    ensures var r := Locate(s, env);
            r.Some? ==>
              && r.value.0 in s && r.value.0.name == ExchangeDeposit && r.value.0.environment == env
              && r.value.1 in s && r.value.1.name == ProxyFactory && r.value.1.environment == env
  {
    SelectMembers(s, env);
  }

  /** The integrity check passes exactly when the selection is two entries including both roles. */
  lemma LocateIff(s: seq<Code>, env: Environment)
    ensures Locate(s, env).Some? <==>
              |Select(s, env)| == 2 && HasRole(Select(s, env), ExchangeDeposit) &&
              HasRole(Select(s, env), ProxyFactory)
  {
    var sel := Select(s, env);
    FindNone(sel, ExchangeDeposit);
    FindNone(sel, ProxyFactory);
  }

  /** Passing the integrity check means exactly one entry of each role, and nothing else. */
  lemma LocateExactlyOne(s: seq<Code>, env: Environment)
    requires Locate(s, env).Some?
    ensures var (ex, pf) := Locate(s, env).value;
            Select(s, env) == [ex, pf] || Select(s, env) == [pf, ex]
  {
    var (ex, pf) := Locate(s, env).value;
    var sel := Select(s, env);
    LocateIff(s, env);
    assert ex == Find(sel, ExchangeDeposit).value && pf == Find(sel, ProxyFactory).value;
    assert ex in sel && pf in sel;
    assert ex != pf;
    assert sel == [sel[0], sel[1]];
  }

  /**
   * Each located entry occurs once in the snapshot, and every entry of
   * `env` is one of the two.
   */
  lemma LocateOccursOnce(s: seq<Code>, env: Environment)
    requires Locate(s, env).Some?
    ensures var (ex, pf) := Locate(s, env).value;
            multiset(s)[ex] == 1 && multiset(s)[pf] == 1
    ensures var (ex, pf) := Locate(s, env).value;
            forall c :: c in s && c.environment == env ==> c == ex || c == pf
  {
    var (ex, pf) := Locate(s, env).value;
    var sel := Select(s, env);
    LocateExactlyOne(s, env);
    LocateFacts(s, env);
    assert ex != pf;
    assert multiset(sel)[ex] == 1 && multiset(sel)[pf] == 1;
    SelectCounts(s, env);
    SelectMembers(s, env);
  }

  /** The recorded deposit entry holds both tracked slots. */
  predicate StorageRecorded(c: Code) {
    "0x00" in c.storage && "0x01" in c.storage
  }

  /** Every deposit entry of the snapshot holds both tracked slots. */
  predicate WellFormed(s: seq<Code>) {
    forall c :: c in s && c.name == ExchangeDeposit ==> StorageRecorded(c)
  }

  /** The four reads of one environment, in order, at the recorded addresses. */
  function VerifyRequests(ex: Code, pf: Code): (r: seq<Request>)
    ensures |r| == 4
    ensures forall q :: q in r ==> q.blockTag == BlockTag && (q.address == ex.address || q.address == pf.address)
    ensures forall q :: q in r && q.GetStorageAt? ==> q.address == ex.address
  {
    [GetCode(ex.address, BlockTag),
     GetCode(pf.address, BlockTag),
     GetStorageAt(ex.address, "0x0", BlockTag),
     GetStorageAt(ex.address, "0x1", BlockTag)]
  }

  /** Live state agrees with the recorded entries at every compared position. */
  predicate LiveMatches(ex: Code, pf: Code, chain: Chain)
    requires StorageRecorded(ex)
  {
    && chain.code(ex.address) == ex.code
    && chain.code(pf.address) == pf.code
    && chain.storage(ex.address, "0x0") == ex.storage["0x00"]
    && chain.storage(ex.address, "0x1") == ex.storage["0x01"]
  }

  /**
   * The report for every compared position whose live value differs from
   * the recorded one is among `reports`.
   */
  predicate ReportsEveryMismatch(reports: seq<Report>, env: Environment, ex: Code, pf: Code, chain: Chain)
    requires StorageRecorded(ex)
  {
    && (chain.code(ex.address) != ex.code ==>
          Report(env, ExchangeDeposit, Truncate(ex.code), Truncate(chain.code(ex.address))) in reports)
    && (chain.code(pf.address) != pf.code ==>
          Report(env, ProxyFactory, Truncate(pf.code), Truncate(chain.code(pf.address))) in reports)
    && (chain.storage(ex.address, "0x0") != ex.storage["0x00"] ==>
          Report(env, ExchangeDeposit, Truncate(ex.storage["0x00"]), Truncate(chain.storage(ex.address, "0x0"))) in reports)
    && (chain.storage(ex.address, "0x1") != ex.storage["0x01"] ==>
          Report(env, ExchangeDeposit, Truncate(ex.storage["0x01"]), Truncate(chain.storage(ex.address, "0x1"))) in reports)
  }

  /** `rep` is the report of one compared position whose live value differs from the recorded one. */
  predicate IsMismatch(rep: Report, env: Environment, ex: Code, pf: Code, chain: Chain)
    requires StorageRecorded(ex)
  {
    || (chain.code(ex.address) != ex.code &&
        rep == Report(env, ExchangeDeposit, Truncate(ex.code), Truncate(chain.code(ex.address))))
    || (chain.code(pf.address) != pf.code &&
        rep == Report(env, ProxyFactory, Truncate(pf.code), Truncate(chain.code(pf.address))))
    || (chain.storage(ex.address, "0x0") != ex.storage["0x00"] &&
        rep == Report(env, ExchangeDeposit, Truncate(ex.storage["0x00"]), Truncate(chain.storage(ex.address, "0x0"))))
    || (chain.storage(ex.address, "0x1") != ex.storage["0x01"] &&
        rep == Report(env, ExchangeDeposit, Truncate(ex.storage["0x01"]), Truncate(chain.storage(ex.address, "0x1"))))
  }

  /** How many of the four compared positions differ from the recorded values. */
  function Differing(ex: Code, pf: Code, chain: Chain): nat
    requires StorageRecorded(ex)
  {
    (if chain.code(ex.address) != ex.code then 1 else 0) +
    (if chain.code(pf.address) != pf.code then 1 else 0) +
    (if chain.storage(ex.address, "0x0") != ex.storage["0x00"] then 1 else 0) +
    (if chain.storage(ex.address, "0x1") != ex.storage["0x01"] then 1 else 0)
  }

  /** The reports and the reads of one environment. */
  datatype Check = Check(reports: seq<Report>, requests: seq<Request>)

  /** The four comparisons of one environment; factory storage is never compared. */
  function CheckEnvironment(env: Environment, ex: Code, pf: Code, chain: Chain): (r: Check)
    requires StorageRecorded(ex)
    ensures r.reports == [] <==> LiveMatches(ex, pf, chain)
    ensures ReportsEveryMismatch(r.reports, env, ex, pf, chain)
    ensures |r.reports| == Differing(ex, pf, chain) <= 4
    ensures forall rep :: rep in r.reports ==> IsMismatch(rep, env, ex, pf, chain)
    ensures forall rep :: rep in r.reports ==> rep.environment == env
    ensures (exists rep :: rep in r.reports && rep.name == ProxyFactory) <==> chain.code(pf.address) != pf.code
  {
    var q := VerifyRequests(ex, pf);
    Check(LogAssert(ex.code, Send(chain, q[0]), env, ExchangeDeposit) +
          LogAssert(pf.code, Send(chain, q[1]), env, ProxyFactory) +
          LogAssert(ex.storage["0x00"], Send(chain, q[2]), env, ExchangeDeposit) +
          LogAssert(ex.storage["0x01"], Send(chain, q[3]), env, ExchangeDeposit),
          q)
  }

  /** A verification run: where it stopped, if it did, the reports and the reads issued. */
  datatype Verification = Verification(abort: Option<VerifyError>, reports: seq<Report>, requests: seq<Request>)

  /**
   * One environment's step: None when it fails the integrity check,
   * otherwise the reports and reads of its comparisons.
   */
  function Probe(s: seq<Code>, env: Environment, chain: Chain): (r: Option<Check>)
    requires WellFormed(s)
    ensures r.Some? <==> Locate(s, env).Some?
  {
    LocateFacts(s, env);
    match Locate(s, env)
    case None => None
    case Some((ex, pf)) => Some(CheckEnvironment(env, ex, pf, chain))
  }

  /** The step of every listed environment. */
  function ProbeAll(s: seq<Code>, envs: seq<Environment>, chain: Chain): (r: seq<Option<Check>>)
    requires WellFormed(s)
    ensures |r| == |envs| && forall j :: 0 <= j < |envs| ==> r[j] == Probe(s, envs[j], chain)
  {
    seq(|envs|, j requires 0 <= j < |envs| => Probe(s, envs[j], chain))
  }

  /**
   * The loop over `envs`, given each environment's step: stop at the first
   * environment that fails the integrity check, otherwise collect its
   * reports and reads and go on.
   */
  function Run(probes: seq<Option<Check>>, envs: seq<Environment>): Verification
    requires |probes| == |envs|
    decreases |envs|
  {
    if envs == [] then Verification(None, [], [])
    else
      var n := |envs| - 1;
      var prev := Run(probes[..n], envs[..n]);
      if prev.abort.Some? then prev
      else
        match probes[n]
        case None => Verification(Some(EnvironmentNotFound(envs[n])), prev.reports, prev.requests)
        case Some(c) => Verification(None, prev.reports + c.reports, prev.requests + c.requests)
  }

  /** The verification of snapshot `s` over `envs`. */
  function Verify(s: seq<Code>, chain: Chain, envs: seq<Environment>): Verification
    requires WellFormed(s)
  {
    Run(ProbeAll(s, envs, chain), envs)
  }

  /**
   * The body of the loop for an environment that passed the integrity
   * check: code of both contracts, then the deposit contract's two slots,
   * each compared and reported as it is read.
   */
  method CompareEnvironment(environment: Environment, ex: Code, pf: Code, chain: Chain)
    returns (reports: seq<Report>, requests: seq<Request>)
    requires StorageRecorded(ex)
    ensures Check(reports, requests) == CheckEnvironment(environment, ex, pf, chain)
  {
    var actualEXCode := Send(chain, GetCode(ex.address, BlockTag));
    var actualPFCode := Send(chain, GetCode(pf.address, BlockTag));
    reports := LogAssert(ex.code, actualEXCode, environment, ExchangeDeposit);
    reports := reports + LogAssert(pf.code, actualPFCode, environment, ProxyFactory);
    var actualEXcold := Send(chain, GetStorageAt(ex.address, "0x0", BlockTag));
    var actualEXmininput := Send(chain, GetStorageAt(ex.address, "0x1", BlockTag));
    reports := reports + LogAssert(ex.storage["0x00"], actualEXcold, environment, ExchangeDeposit);
    reports := reports + LogAssert(ex.storage["0x01"], actualEXmininput, environment, ExchangeDeposit);
    requests := VerifyRequests(ex, pf);
  }

  /** The `bitbankVerify` task body: the loop over the environment list. */
  method VerifySnapshot(expectedCode: seq<Code>, chain: Chain)
    returns (abort: Option<VerifyError>, reports: seq<Report>, requests: seq<Request>)
    requires WellFormed(expectedCode)
    ensures Verification(abort, reports, requests) == Verify(expectedCode, chain, Environments)
  {
    var envs := Environments;
    ghost var probes := ProbeAll(expectedCode, envs, chain);
    abort, reports, requests := None, [], [];
    for i := 0 to |envs|
      invariant Run(probes[..i], envs[..i]) == Verification(None, reports, requests)
    {
      var environment := envs[i];
      RunExtends(probes, envs, i);
      var expected := Select(expectedCode, environment);
      var expectedEX := Find(expected, ExchangeDeposit);
      var expectedPF := Find(expected, ProxyFactory);
      if |expected| != 2 || expectedEX.None? || expectedPF.None? {
        abort := Some(EnvironmentNotFound(environment));
        RunStopsAtAbort(probes, envs, i + 1);
        return;
      }
      var ex, pf := expectedEX.value, expectedPF.value;
      ProbeFound(expectedCode, environment, chain, ex, pf);
      var found, issued := CompareEnvironment(environment, ex, pf, chain);
      reports := reports + found;
      requests := requests + issued;
    }
    assert envs[..|envs|] == envs && probes[..|probes|] == probes;
  }

  /** The step of an environment that passes the integrity check is the comparison of its two entries. */
  lemma ProbeFound(s: seq<Code>, env: Environment, chain: Chain, ex: Code, pf: Code)
    requires WellFormed(s)
    requires Locate(s, env) == Some((ex, pf))
    ensures StorageRecorded(ex)
    ensures Probe(s, env, chain) == Some(CheckEnvironment(env, ex, pf, chain))
  {
    LocateFacts(s, env);
  }

  /** A run that has not stopped, extended by one environment, takes that environment's step. */
  lemma RunExtends(probes: seq<Option<Check>>, envs: seq<Environment>, i: nat)
    requires |probes| == |envs| && i < |envs|
    ensures var prev := Run(probes[..i], envs[..i]);
            prev.abort.None? ==>
              Run(probes[..i + 1], envs[..i + 1]) ==
                match probes[i]
                case None => Verification(Some(EnvironmentNotFound(envs[i])), prev.reports, prev.requests)
                case Some(c) => Verification(None, prev.reports + c.reports, prev.requests + c.requests)
  {
    assert probes[..i + 1][..i] == probes[..i] && envs[..i + 1][..i] == envs[..i];
  }

  /** Once a prefix of the list has stopped the run, the whole run is that prefix's. */
  lemma {:induction false} RunStopsAtAbort(probes: seq<Option<Check>>, envs: seq<Environment>, k: nat)
    requires |probes| == |envs| && k <= |envs|
    requires Run(probes[..k], envs[..k]).abort.Some?
    ensures Run(probes, envs) == Run(probes[..k], envs[..k])
    decreases |envs|
  {
    if k < |envs| {
      var n := |envs| - 1;
      assert probes[..n][..k] == probes[..k] && envs[..n][..k] == envs[..k];
      RunStopsAtAbort(probes[..n], envs[..n], k);
    } else {
      assert probes[..k] == probes && envs[..k] == envs;
    }
  }

  /** The run completes exactly when no listed environment fails the integrity check. */
  lemma {:induction false} RunCompletesIff(probes: seq<Option<Check>>, envs: seq<Environment>)
    requires |probes| == |envs|
    ensures Run(probes, envs).abort.None? <==> forall j :: 0 <= j < |envs| ==> probes[j].Some?
    decreases |envs|
  {
    if envs != [] {
      var n := |envs| - 1;
      RunCompletesIff(probes[..n], envs[..n]);
      assert forall j :: 0 <= j < n ==> probes[..n][j] == probes[j];
    }
  }

  /**
   * A run that meets its first failing environment at k stops there, with
   * the reports and the reads of the completed run over the environments
   * before k.
   */
  lemma RunAbortsAtFirst(probes: seq<Option<Check>>, envs: seq<Environment>, k: nat)
    requires |probes| == |envs| && k < |envs|
    requires forall j :: 0 <= j < k ==> probes[j].Some?
    requires probes[k].None?
    ensures Run(probes[..k], envs[..k]).abort.None?
    ensures Run(probes, envs) ==
              Verification(Some(EnvironmentNotFound(envs[k])),
                           Run(probes[..k], envs[..k]).reports,
                           Run(probes[..k], envs[..k]).requests)
  {
    assert forall j :: 0 <= j < k ==> probes[..k][j] == probes[j];
    RunCompletesIff(probes[..k], envs[..k]);
    assert probes[..k + 1][..k] == probes[..k] && envs[..k + 1][..k] == envs[..k];
    RunStopsAtAbort(probes, envs, k + 1);
  }

  /**
   * Every report and every read of a run, stopped or not, comes from the
   * step of a listed environment that passed the integrity check.
   */
  lemma {:induction false} RunCollectsFromSteps(probes: seq<Option<Check>>, envs: seq<Environment>)
    requires |probes| == |envs|
    ensures forall rep :: rep in Run(probes, envs).reports ==>
              exists j :: 0 <= j < |envs| && probes[j].Some? && rep in probes[j].value.reports
    ensures forall q :: q in Run(probes, envs).requests ==>
              exists j :: 0 <= j < |envs| && probes[j].Some? && q in probes[j].value.requests
    decreases |envs|
  {
    if envs != [] {
      var n := |envs| - 1;
      RunCollectsFromSteps(probes[..n], envs[..n]);
      assert forall j :: 0 <= j < n ==> probes[..n][j] == probes[j];
    }
  }

  /**
   * A completed run keeps every report of every environment's step (one
   * mismatch never hides another), and has none exactly when no step has any.
   */
  lemma {:induction false} RunKeepsAllReports(probes: seq<Option<Check>>, envs: seq<Environment>)
    requires |probes| == |envs|
    requires Run(probes, envs).abort.None?
    ensures forall j :: 0 <= j < |envs| ==> probes[j].Some?
    ensures forall j, rep :: 0 <= j < |envs| && probes[j].Some? && rep in probes[j].value.reports ==>
              rep in Run(probes, envs).reports
    ensures Run(probes, envs).reports == [] <==>
              forall j :: 0 <= j < |envs| ==> probes[j].Some? && probes[j].value.reports == []
    decreases |envs|
  {
    RunCompletesIff(probes, envs);
    if envs != [] {
      var n := |envs| - 1;
      RunKeepsAllReports(probes[..n], envs[..n]);
      assert forall j :: 0 <= j < n ==> probes[..n][j] == probes[j];
    }
  }

  /**
   * A completed run whose steps each read four values issues four reads per
   * environment, environment by environment in list order.
   */
  lemma {:induction false} RunReadsInOrder(probes: seq<Option<Check>>, envs: seq<Environment>)
    requires |probes| == |envs|
    requires forall j :: 0 <= j < |envs| && probes[j].Some? ==> |probes[j].value.requests| == 4
    requires Run(probes, envs).abort.None?
    ensures forall j :: 0 <= j < |envs| ==> probes[j].Some?
    ensures |Run(probes, envs).requests| == 4 * |envs|
    ensures forall j :: 0 <= j < |envs| ==> Run(probes, envs).requests[4 * j..4 * j + 4] == probes[j].value.requests
    decreases |envs|
  {
    RunCompletesIff(probes, envs);
    if envs != [] {
      var n := |envs| - 1;
      var init := probes[..n];
      RunReadsInOrder(init, envs[..n]);
      assert forall j :: 0 <= j < n ==> init[j] == probes[j];
      var prev := Run(init, envs[..n]).requests;
      var q := Run(probes, envs).requests;
      assert q == prev + probes[n].value.requests;
      forall j | 0 <= j < |envs|
        ensures q[4 * j..4 * j + 4] == probes[j].value.requests
      {
        if j < n {
          assert q[4 * j..4 * j + 4] == prev[4 * j..4 * j + 4];
        } else {
          assert q[4 * j..4 * j + 4] == q[|prev|..];
        }
      }
    }
  }

  /** The steps of a prefix of the list are the prefix of the steps. */
  lemma ProbeAllPrefix(s: seq<Code>, envs: seq<Environment>, chain: Chain, k: nat)
    requires WellFormed(s) && k <= |envs|
    ensures ProbeAll(s, envs, chain)[..k] == ProbeAll(s, envs[..k], chain)
  {
  }

  /** The run over a snapshot completes exactly when every listed environment passes the integrity check. */
  lemma VerifyCompletesIff(s: seq<Code>, chain: Chain, envs: seq<Environment>)
    requires WellFormed(s)
    ensures Verify(s, chain, envs).abort.None? <==> forall j :: 0 <= j < |envs| ==> Locate(s, envs[j]).Some?
  {
    RunCompletesIff(ProbeAll(s, envs, chain), envs);
  }

  /**
   * A snapshot that fails the integrity check at environment k stops the
   * run there, with the reports and the reads of the environments before k.
   */
  lemma VerifyAbortsAtFirstIncomplete(s: seq<Code>, chain: Chain, envs: seq<Environment>, k: nat)
    requires WellFormed(s)
    requires k < |envs|
    requires forall j :: 0 <= j < k ==> Locate(s, envs[j]).Some?
    requires Locate(s, envs[k]).None?
    ensures Verify(s, chain, envs[..k]).abort.None?
    ensures |Verify(s, chain, envs[..k]).requests| == 4 * k
    ensures Verify(s, chain, envs) ==
              Verification(Some(EnvironmentNotFound(envs[k])),
                           Verify(s, chain, envs[..k]).reports,
                           Verify(s, chain, envs[..k]).requests)
  {
    ProbeAllPrefix(s, envs, chain, k);
    RunAbortsAtFirst(ProbeAll(s, envs, chain), envs, k);
    VerifyReads(s, chain, envs[..k]);
  }

  /**
   * A completed run reads, for each environment in list order, the code at
   * the recorded deposit and factory addresses and then the deposit
   * contract's slots 0 and 1, all at the latest block.
   */
  lemma VerifyReads(s: seq<Code>, chain: Chain, envs: seq<Environment>)
    requires WellFormed(s)
    requires Verify(s, chain, envs).abort.None?
    ensures forall j :: 0 <= j < |envs| ==> Locate(s, envs[j]).Some?
    ensures |Verify(s, chain, envs).requests| == 4 * |envs|
    ensures forall j :: 0 <= j < |envs| ==>
              var (ex, pf) := Locate(s, envs[j]).value;
              Verify(s, chain, envs).requests[4 * j..4 * j + 4] ==
                [GetCode(ex.address, "latest"), GetCode(pf.address, "latest"),
                 GetStorageAt(ex.address, "0x0", "latest"), GetStorageAt(ex.address, "0x1", "latest")]
  {
    var probes := ProbeAll(s, envs, chain);
    RunReadsInOrder(probes, envs);
  }

  /** Some entry of the snapshot with role `name` is recorded at `a`. */
  predicate RecordedAt(s: seq<Code>, name: Contract, a: string) {
    exists c :: c in s && c.name == name && c.address == a
  }

  /**
   * A read made at the latest block and at an address the snapshot records
   * for the role it is read for; storage is read only from deposit
   * contracts, at slots 0 and 1.
   */
  predicate ReadOfRecorded(s: seq<Code>, q: Request) {
    && q.blockTag == "latest"
    && (q.GetCode? ==> RecordedAt(s, ExchangeDeposit, q.address) || RecordedAt(s, ProxyFactory, q.address))
    && (q.GetStorageAt? ==> RecordedAt(s, ExchangeDeposit, q.address) && q.slot in ["0x0", "0x1"])
  }

  /** Every read of a verification run, stopped or not, is a read of recorded state. */
  lemma VerifyReadsRecordedAddresses(s: seq<Code>, chain: Chain, envs: seq<Environment>)
    requires WellFormed(s)
    ensures forall q :: q in Verify(s, chain, envs).requests ==> ReadOfRecorded(s, q)
  {
    var probes := ProbeAll(s, envs, chain);
    forall j | 0 <= j < |envs| && probes[j].Some?
      ensures forall q :: q in probes[j].value.requests ==> ReadOfRecorded(s, q)
    {
      ProbeReadsRecorded(s, envs[j], chain);
    }
    RunCollectsFromSteps(probes, envs);
  }

  /** The reads of one environment's step are reads of recorded state. */
  lemma ProbeReadsRecorded(s: seq<Code>, env: Environment, chain: Chain)
    requires WellFormed(s)
    ensures Probe(s, env, chain).Some? ==>
              forall q :: q in Probe(s, env, chain).value.requests ==> ReadOfRecorded(s, q)
  {
    if Locate(s, env).Some? {
      var (ex, pf) := Locate(s, env).value;
      ProbeFound(s, env, chain, ex, pf);
      LocateFacts(s, env);
      assert RecordedAt(s, ExchangeDeposit, ex.address) && RecordedAt(s, ProxyFactory, pf.address);
      var q := VerifyRequests(ex, pf);
      assert ReadOfRecorded(s, q[0]) && ReadOfRecorded(s, q[1]);
      assert ReadOfRecorded(s, q[2]) && ReadOfRecorded(s, q[3]);
      assert forall r :: r in q ==> r == q[0] || r == q[1] || r == q[2] || r == q[3];
    }
  }

  /** Live state matches a located environment at every compared position. */
  predicate MatchesLive(l: Option<(Code, Code)>, chain: Chain) {
    l.Some? && StorageRecorded(l.value.0) && LiveMatches(l.value.0, l.value.1, chain)
  }

  /**
   * One environment's step reports nothing exactly when live state matches
   * its entries, and reports only under that environment's name.
   */
  lemma ProbeReports(s: seq<Code>, env: Environment, chain: Chain)
    requires WellFormed(s)
    ensures Probe(s, env, chain).Some? ==>
              && (Probe(s, env, chain).value.reports == [] <==> MatchesLive(Locate(s, env), chain))
              && forall rep :: rep in Probe(s, env, chain).value.reports ==> rep.environment == env
  {
    if Locate(s, env).Some? {
      var (ex, pf) := Locate(s, env).value;
      ProbeFound(s, env, chain, ex, pf);
    }
  }

  /**
   * Every report names a listed environment; in a completed run, every
   * environment whose live state differs from its entries is reported, and
   * there are no reports exactly when live state matches everywhere.
   */
  lemma VerifyReportsAll(s: seq<Code>, chain: Chain, envs: seq<Environment>)
    requires WellFormed(s)
    ensures forall rep :: rep in Verify(s, chain, envs).reports ==> rep.environment in envs
    ensures Verify(s, chain, envs).abort.None? ==>
              forall j :: 0 <= j < |envs| && !MatchesLive(Locate(s, envs[j]), chain) ==>
                exists rep :: rep in Verify(s, chain, envs).reports && rep.environment == envs[j]
    ensures Verify(s, chain, envs).abort.None? ==>
              (Verify(s, chain, envs).reports == [] <==>
                 forall j :: 0 <= j < |envs| ==> MatchesLive(Locate(s, envs[j]), chain))
  {
    var probes := ProbeAll(s, envs, chain);
    var r := Verify(s, chain, envs);
    forall j | 0 <= j < |envs|
      ensures probes[j].Some? ==>
                && (probes[j].value.reports == [] <==> MatchesLive(Locate(s, envs[j]), chain))
                && forall rep :: rep in probes[j].value.reports ==> rep.environment == envs[j]
    {
      ProbeReports(s, envs[j], chain);
    }
    RunCollectsFromSteps(probes, envs);
    if r.abort.None? {
      RunKeepsAllReports(probes, envs);
      forall j | 0 <= j < |envs| && !MatchesLive(Locate(s, envs[j]), chain)
        ensures exists rep :: rep in r.reports && rep.environment == envs[j]
      {
        var rep := probes[j].value.reports[0];
        assert rep in probes[j].value.reports;
      }
    }
  }

  /** Every mismatch of a located environment has its report among `reports`. */
  predicate MismatchesReported(reports: seq<Report>, env: Environment, l: Option<(Code, Code)>, chain: Chain) {
    l.Some? && StorageRecorded(l.value.0) && ReportsEveryMismatch(reports, env, l.value.0, l.value.1, chain)
  }

  /** `rep` reports a mismatch of a located environment. */
  predicate MismatchOf(rep: Report, env: Environment, l: Option<(Code, Code)>, chain: Chain) {
    l.Some? && StorageRecorded(l.value.0) && IsMismatch(rep, env, l.value.0, l.value.1, chain)
  }

  /** One environment's step reports each of its mismatches, and nothing else. */
  lemma ProbeMismatches(s: seq<Code>, env: Environment, chain: Chain)
    requires WellFormed(s)
    ensures Probe(s, env, chain).Some? ==>
              && MismatchesReported(Probe(s, env, chain).value.reports, env, Locate(s, env), chain)
              && forall rep :: rep in Probe(s, env, chain).value.reports ==> MismatchOf(rep, env, Locate(s, env), chain)
  {
    if Locate(s, env).Some? {
      var (ex, pf) := Locate(s, env).value;
      ProbeFound(s, env, chain, ex, pf);
    }
  }

  /**
   * Every report is the mismatch of some listed environment at one compared
   * position; a completed run reports every mismatch of every environment,
   * whatever else differs there or elsewhere.
   */
  lemma VerifyReportsEachMismatch(s: seq<Code>, chain: Chain, envs: seq<Environment>)
    requires WellFormed(s)
    ensures forall rep :: rep in Verify(s, chain, envs).reports ==>
              exists j :: 0 <= j < |envs| && MismatchOf(rep, envs[j], Locate(s, envs[j]), chain)
    ensures Verify(s, chain, envs).abort.None? ==>
              forall j :: 0 <= j < |envs| ==>
                MismatchesReported(Verify(s, chain, envs).reports, envs[j], Locate(s, envs[j]), chain)
  {
    var probes := ProbeAll(s, envs, chain);
    var r := Verify(s, chain, envs);
    forall j | 0 <= j < |envs|
      ensures probes[j].Some? ==>
                && MismatchesReported(probes[j].value.reports, envs[j], Locate(s, envs[j]), chain)
                && forall rep :: rep in probes[j].value.reports ==> MismatchOf(rep, envs[j], Locate(s, envs[j]), chain)
    {
      ProbeMismatches(s, envs[j], chain);
    }
    RunCollectsFromSteps(probes, envs);
    if r.abort.None? {
      RunKeepsAllReports(probes, envs);
      forall j | 0 <= j < |envs|
        ensures MismatchesReported(r.reports, envs[j], Locate(s, envs[j]), chain)
      {
        var (ex, pf) := Locate(s, envs[j]).value;
        assert ReportsEveryMismatch(probes[j].value.reports, envs[j], ex, pf, chain);
      }
    }
  }
}
