/**
 * The scenario and the per-wallet configuration that `start_client` resolves
 * before it asks the container driver for a wallet client.
 */
module Config {
  import opened Common

  /** One funding entry of a wallet: a plain amount, or an object with its own due time. */
  datatype Fund =
    | Amount(amount: int)
    | Scheduled(value: Option<int>, delayBlocks: Option<int>, delayRounds: Option<int>)

  /** A wallet of the scenario; every optional key of the source's dictionary is an Option.
      For the two tuning settings a present key may hold null (`Some(None)`), which the
      source tells apart from an absent key. */
  datatype WalletSpec = WalletSpec(
    funds: Option<seq<Fund>>,
    version: Option<string>,
    anonScoreTarget: Option<Option<int>>,
    redcoinIsolation: Option<Option<bool>>,
    delayBlocks: Option<int>,
    delayRounds: Option<int>,
    stopBlocks: Option<int>,
    stopRounds: Option<int>)

  /** The scenario: limits (0 means no limit), defaults and the wallets. */
  datatype Scenario = Scenario(
    name: string,
    rounds: int,
    blocks: int,
    defaultVersion: string,
    defaultAnonScoreTarget: Option<int>,
    defaultRedcoinIsolation: Option<bool>,
    wallets: seq<WalletSpec>)

  /** A provisioned wallet client: the identity fields fixed when it is created. */
  datatype Client = Client(
    index: nat,
    name: string,
    version: string,
    anonScoreTarget: Option<int>,
    redcoinIsolation: Option<bool>,
    delay: (int, int),
    stop: (int, int),
    hostPort: int)

  /** A due time `(block, round)`: the invoice may be paid once both counters reach it. */
  type DueTime = (int, int)

  /** A payment owed by the distributor: the payee's fresh address and the amount. */
  datatype Invoice = Invoice(address: string, value: int)

  /** What `start_client` asks the container driver for. */
  datatype ContainerRequest = ContainerRequest(
    name: string,
    image: string,
    anonScoreTargetEnv: Option<int>,
    redcoinIsolationEnv: Option<bool>,
    containerPort: int,
    hostPort: int,
    cpuTenths: nat,
    memoryMb: nat)

  /** The oldest client version that honours anon score target and red-coin isolation. */
  const MinTuningVersion: string := "2.0.3"
  /** Versions older than this one get the larger container. */
  const SmallContainerVersion: string := "2.0.4"
  const ClientNamePrefix: string := "wasabi-client-"
  const ClientRpcPort: int := 37128
  const FirstClientHostPort: int := 37129

  function FundsOf(w: WalletSpec): seq<Fund> {
    w.funds.GetOr([])
  }

  /** Python's `<` on strings: lexicographic by character, a proper prefix is smaller. */
  function LexLess(a: string, b: string): bool {
    if b == [] then false
    else if a == [] then true
    else if a[0] != b[0] then a[0] < b[0]
    else LexLess(a[1..], b[1..])
  }

  lemma {:induction false} LexLessIrreflexive(a: string)
    ensures !LexLess(a, a)
  {
    if a != [] {
      LexLessIrreflexive(a[1..]);
    }
  }

  /** `LexLess` is a strict total order: exactly one of a < b, a == b, b < a. */
  lemma {:induction false} LexLessTrichotomy(a: string, b: string)
    ensures a == b || LexLess(a, b) || LexLess(b, a)
    ensures !(LexLess(a, b) && LexLess(b, a))
  {
    if a != [] && b != [] && a[0] == b[0] {
      LexLessTrichotomy(a[1..], b[1..]);
      if a[1..] == b[1..] {
        assert a == [a[0]] + a[1..] && b == [b[0]] + b[1..];
      }
    }
  }

  lemma {:induction false} LexLessTransitive(a: string, b: string, c: string)
    requires LexLess(a, b) && LexLess(b, c)
    ensures LexLess(a, c)
  {
    if a != [] && a[0] == b[0] && b[0] == c[0] {
      LexLessTransitive(a[1..], b[1..], c[1..]);
    }
  }

  /** The gate splits versions at MinTuningVersion in string order: a version keeps its
      tuning settings exactly when it is the minimum or sorts after it, and every version
      sorting before a gated one is gated too. */
  lemma VersionGateThreshold(v: string, u: string)
    ensures !LexLess(v, MinTuningVersion) <==> (v == MinTuningVersion || LexLess(MinTuningVersion, v))
    ensures LexLess(u, v) && LexLess(v, MinTuningVersion) ==> LexLess(u, MinTuningVersion)
  {
    LexLessTrichotomy(v, MinTuningVersion);
    if v == MinTuningVersion {
      LexLessIrreflexive(v);
    }
    if LexLess(u, v) && LexLess(v, MinTuningVersion) {
      LexLessTransitive(u, v, MinTuningVersion);
    }
  }

  /** The version gate compares strings, not version numbers: "2.0.10" counts as older than "2.0.3". */
  lemma VersionGateIsLexicographic()
    ensures LexLess("2.0.2", MinTuningVersion) && !LexLess("2.0.4", MinTuningVersion)
    ensures !LexLess(MinTuningVersion, MinTuningVersion)
    ensures LexLess("2.0.10", MinTuningVersion)
  {
    assert "2.0.2"[4] < MinTuningVersion[4];
    assert "2.0.10"[4] < MinTuningVersion[4];
    LexLessIrreflexive(MinTuningVersion);
    assert "2.0.2"[..4] == MinTuningVersion[..4];
  }

  // ---------------------------------------------------------------------------
  // Client names: "wasabi-client-" followed by the index, zero-padded to width 3.

  function DigitChar(d: nat): char
    requires d < 10
  {
    (48 + d) as char
  }

  function DigitValue(c: char): int {
    c as int - 48
  }

  /** The decimal digits of `n`, no leading zeros ("0" for zero). */
  function DecimalDigits(n: nat): string
    decreases n
  {
    if n < 10 then [DigitChar(n)] else DecimalDigits(n / 10) + [DigitChar(n % 10)]
  }

  /** Python's `f"{n:03}"`: pad on the left with '0' to width 3, never truncate. */
  function ZeroPad3(n: nat): string {
    var d := DecimalDigits(n);
    if |d| >= 3 then d else seq(3 - |d|, _ => '0') + d
  }

  function ClientName(idx: nat): string {
    ClientNamePrefix + ZeroPad3(idx)
  }

  /** Reads a string of decimal digits back as a number. */
  function ParseDecimal(s: string): int {
    if s == [] then 0 else ParseDecimal(s[..|s| - 1]) * 10 + DigitValue(s[|s| - 1])
  }

  /** The index a client name carries. */
  function ClientIndexOf(name: string): int {
    if |name| < |ClientNamePrefix| then -1 else ParseDecimal(name[|ClientNamePrefix|..])
  }

  lemma {:induction false} ParseDecimalDigits(n: nat)
    ensures ParseDecimal(DecimalDigits(n)) == n
    decreases n
  {
    if n >= 10 {
      var s := DecimalDigits(n);
      assert s[..|s| - 1] == DecimalDigits(n / 10);
      ParseDecimalDigits(n / 10);
    }
  }

  lemma {:induction false} ParseDecimalZeros(k: nat)
    ensures ParseDecimal(seq(k, _ => '0')) == 0
  {
    if k > 0 {
      assert seq(k, _ => '0')[..k - 1] == seq(k - 1, _ => '0');
      ParseDecimalZeros(k - 1);
    }
  }

  /** Leading zeros do not change the value read. */
  lemma {:induction false} ParseDecimalLeadingZeros(z: nat, s: string)
    ensures ParseDecimal(seq(z, _ => '0') + s) == ParseDecimal(s)
    decreases |s|
  {
    var zs := seq(z, _ => '0');
    if s == [] {
      assert zs + s == zs;
      ParseDecimalZeros(z);
    } else {
      assert (zs + s)[..|zs + s| - 1] == zs + s[..|s| - 1];
      ParseDecimalLeadingZeros(z, s[..|s| - 1]);
    }
  }

  lemma {:induction false} DecimalDigitsLength(n: nat)
    ensures 1 <= |DecimalDigits(n)|
    ensures n < 10 ==> |DecimalDigits(n)| == 1
    ensures 10 <= n < 100 ==> |DecimalDigits(n)| == 2
    ensures 100 <= n < 1000 ==> |DecimalDigits(n)| == 3
    decreases n
  {
    if n >= 10 {
      DecimalDigitsLength(n / 10);
    }
  }

  /** The index can be read back from the client's name, so names identify clients. */
  lemma ClientNameRoundTrip(idx: nat)
    ensures ClientIndexOf(ClientName(idx)) == idx
  {
    var name := ClientName(idx);
    assert name[|ClientNamePrefix|..] == ZeroPad3(idx);
    var d := DecimalDigits(idx);
    ParseDecimalDigits(idx);
    if |d| < 3 {
      ParseDecimalLeadingZeros(3 - |d|, d);
    }
  }

  lemma ClientNamesDistinct(i: nat, j: nat)
    requires i != j
    ensures ClientName(i) != ClientName(j)
  {
    ClientNameRoundTrip(i);
    ClientNameRoundTrip(j);
  }

  /** Every character of a decimal rendering is a digit. */
  lemma {:induction false} DecimalDigitsAreDigits(n: nat)
    ensures forall i :: 0 <= i < |DecimalDigits(n)| ==> '0' <= DecimalDigits(n)[i] <= '9'
    decreases n
  {
    if n >= 10 {
      DecimalDigitsAreDigits(n / 10);
    }
  }

  /** Below 1000 the name is the prefix followed by exactly three digits. */
  lemma ClientNameWidth(idx: nat)
    requires idx < 1000
    ensures |ClientName(idx)| == |ClientNamePrefix| + 3
    ensures ClientName(idx)[..|ClientNamePrefix|] == ClientNamePrefix
    ensures forall i :: |ClientNamePrefix| <= i < |ClientName(idx)| ==> '0' <= ClientName(idx)[i] <= '9'
  {
    DecimalDigitsLength(idx);
    DecimalDigitsAreDigits(idx);
    var pad := ZeroPad3(idx);
    assert forall i :: 0 <= i < |pad| ==> '0' <= pad[i] <= '9';
  }

  // ---------------------------------------------------------------------------
  // Configuration resolution (the part of `start_client` before the driver call).

  function ResolvedVersion(w: WalletSpec, s: Scenario): string {
    w.version.GetOr(s.defaultVersion)
  }

  /** A tuning setting: the wallet's own (maybe null) if the key is present, else the
      scenario default, dropped for versions that sort before MinTuningVersion. */
  function GatedSetting<T>(own: Option<Option<T>>, default: Option<T>, version: string): Option<T> {
    var setting := if own.Some? then own.value else default;
    if setting.Some? && LexLess(version, MinTuningVersion) then None else setting
  }

  function ResolveClient(idx: nat, w: WalletSpec, s: Scenario): Client {
    var version := ResolvedVersion(w, s);
    Client(
      idx,
      ClientName(idx),
      version,
      GatedSetting(w.anonScoreTarget, s.defaultAnonScoreTarget, version),
      GatedSetting(w.redcoinIsolation, s.defaultRedcoinIsolation, version),
      (w.delayBlocks.GetOr(0), w.delayRounds.GetOr(0)),
      (w.stopBlocks.GetOr(0), w.stopRounds.GetOr(0)),
      FirstClientHostPort + idx)
  }

  /** The driver request: settings pass to the environment only when truthy in Python. */
  function ClientContainer(c: Client, imagePrefix: string): ContainerRequest {
    var small := !LexLess(c.version, SmallContainerVersion);
    ContainerRequest(
      c.name,
      imagePrefix + "wasabi-client:" + c.version,
      if c.anonScoreTarget.Some? && c.anonScoreTarget.value != 0 then c.anonScoreTarget else None,
      if c.redcoinIsolation == Some(true) then Some(true) else None,
      ClientRpcPort,
      c.hostPort,
      if small then 1 else 3,
      if small then 768 else 1024)
  }

  /** Version, anon score target and red-coin isolation come from the wallet when its key is
      present (a null value included) and from the scenario otherwise; the two settings are
      dropped exactly when the version sorts before 2.0.3. */
  lemma ResolveClientSettings(idx: nat, w: WalletSpec, s: Scenario)
    ensures var c := ResolveClient(idx, w, s);
      && c.index == idx
      && c.version == (if w.version.Some? then w.version.value else s.defaultVersion)
      && (c.anonScoreTarget.Some? <==>
            !LexLess(c.version, MinTuningVersion)
            && (if w.anonScoreTarget.Some? then w.anonScoreTarget.value.Some? else s.defaultAnonScoreTarget.Some?))
      && (c.anonScoreTarget.Some? ==>
            c.anonScoreTarget.value ==
              (if w.anonScoreTarget.Some? then w.anonScoreTarget.value.value else s.defaultAnonScoreTarget.value))
      && (c.redcoinIsolation.Some? <==>
            !LexLess(c.version, MinTuningVersion)
            && (if w.redcoinIsolation.Some? then w.redcoinIsolation.value.Some? else s.defaultRedcoinIsolation.Some?))
      && (c.redcoinIsolation.Some? ==>
            c.redcoinIsolation.value ==
              (if w.redcoinIsolation.Some? then w.redcoinIsolation.value.value else s.defaultRedcoinIsolation.value))
  {
  }

  /** A wallet key present with value null overrides the scenario default: with a default
      target of 5, a wallet whose target is null gets none, and none reaches the container. */
  lemma NullSettingOverridesDefault(idx: nat, w: WalletSpec, s: Scenario, imagePrefix: string)
    requires w.anonScoreTarget == Some(None) && w.version == Some("2.0.4")
    requires s.defaultAnonScoreTarget == Some(5)
    ensures ResolveClient(idx, w, s).anonScoreTarget == None
    ensures ClientContainer(ResolveClient(idx, w, s), imagePrefix).anonScoreTargetEnv == None
    ensures ResolveClient(idx, w.(anonScoreTarget := None), s).anonScoreTarget == Some(5)
  {
    assert !LexLess("2.0.4", MinTuningVersion) by { VersionGateIsLexicographic(); }
  }

  /** Delay and stop default each component to 0; name and host port follow the index,
      so two clients never share either. */
  lemma ResolveClientIdentity(i: nat, wi: WalletSpec, j: nat, wj: WalletSpec, s: Scenario)
    ensures var c := ResolveClient(i, wi, s);
      && c.delay.0 == (if wi.delayBlocks.Some? then wi.delayBlocks.value else 0)
      && c.delay.1 == (if wi.delayRounds.Some? then wi.delayRounds.value else 0)
      && c.stop.0 == (if wi.stopBlocks.Some? then wi.stopBlocks.value else 0)
      && c.stop.1 == (if wi.stopRounds.Some? then wi.stopRounds.value else 0)
      && ClientIndexOf(c.name) == i
      && c.hostPort == 37129 + i
    ensures i != j ==>
      ResolveClient(i, wi, s).name != ResolveClient(j, wj, s).name
      && ResolveClient(i, wi, s).hostPort != ResolveClient(j, wj, s).hostPort
  {
    ClientNameRoundTrip(i);
    if i != j {
      ClientNamesDistinct(i, j);
    }
  }

  /** The container of client `idx` maps the RPC port to its own host port; clients older
      than 2.0.4 get 0.3 CPU and 1024 MB, the others 0.1 CPU and 768 MB; a setting reaches
      the environment only when it survived the version gate and is truthy. */
  lemma ClientContainerRequest(idx: nat, w: WalletSpec, s: Scenario, imagePrefix: string)
    ensures var c := ResolveClient(idx, w, s);
      var r := ClientContainer(c, imagePrefix);
      && r.name == ClientName(idx)
      && r.image == imagePrefix + "wasabi-client:" + ResolvedVersion(w, s)
      && r.containerPort == 37128 && r.hostPort == 37129 + idx
      && (LexLess(c.version, "2.0.4") ==> r.cpuTenths == 3 && r.memoryMb == 1024)
      && (!LexLess(c.version, "2.0.4") ==> r.cpuTenths == 1 && r.memoryMb == 768)
      && (r.anonScoreTargetEnv.Some? <==> c.anonScoreTarget.Some? && c.anonScoreTarget.value != 0)
      && (r.anonScoreTargetEnv.Some? ==> r.anonScoreTargetEnv == c.anonScoreTarget)
      && (r.redcoinIsolationEnv.Some? <==> c.redcoinIsolation == Some(true))
      && (r.redcoinIsolationEnv.Some? ==> !LexLess(c.version, MinTuningVersion))
  {
  }
}
