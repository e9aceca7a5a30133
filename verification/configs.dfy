/** Which configuration applies to a request. */
module Configs {
  import opened Prelude
  import opened Claims

  /** A decoded configuration; `None` is the profile's default. */
  datatype Resolved = Resolved(requests: seq<string>, config: Option<string>)

  const DEFAULT := Resolved([], None)

  predicate Known(c: DeviceConfig) {
    c.source.FromClass? || c.source.FromClaim?
  }

  predicate IsOwn(c: DeviceConfig, driver: string) {
    c.payload.Some? && c.payload.value.driver == driver
  }

  function OfSource(configs: seq<DeviceConfig>, source: Source): seq<DeviceConfig> {
    if configs == [] then []
    else
      var last := configs[|configs| - 1];
      OfSource(configs[..|configs| - 1], source) + (if last.source == source then [last] else [])
  }

  /** Decodes the driver's own candidates in order; the first bad candidate decides the error. */
  function DecodeAll(driver: Driver, candidates: seq<DeviceConfig>): Result<seq<Resolved>, Error> {
    if candidates == [] then Ok([])
    else
      var before := DecodeAll(driver, candidates[..|candidates| - 1]);
      var c := candidates[|candidates| - 1];
      if before.Err? then before
      else if c.payload.None? then Err(NotOpaque)
      else if c.payload.value.driver != driver.name then before
      else
        var decoded := driver.decode(c.payload.value.raw);
        if decoded.None? then Err(Undecodable) else Ok(before.value + [Resolved(c.requests, decoded)])
  }

  function Collect(driver: Driver, configs: seq<DeviceConfig>): Result<seq<Resolved>, Error> {
    if exists c :: c in configs && !Known(c) then Err(InvalidSource)
    else DecodeAll(driver, OfSource(configs, FromClass) + OfSource(configs, FromClaim))
  }

  predicate Matches(c: Resolved, request: string) {
    c.requests == [] || request in c.requests
  }

  /** The highest index whose configuration matches, the front one matching everything. */
  function Lookup(configs: seq<Resolved>, request: string): (k: nat)
    requires |configs| > 0 && configs[0].requests == []
    ensures k < |configs| && Matches(configs[k], request)
    ensures forall j :: k < j < |configs| ==> !Matches(configs[j], request)
  {
    if Matches(configs[|configs| - 1], request) then |configs| - 1
    else Lookup(configs[..|configs| - 1], request)
  }

  // ---- the algorithm ----

  method GetOpaqueDeviceConfigs(driver: Driver, possibleConfigs: seq<DeviceConfig>)
      returns (r: Result<seq<Resolved>, Error>)
    ensures r == Collect(driver, possibleConfigs)
  {
    var classConfigs: seq<DeviceConfig> := [];
    var claimConfigs: seq<DeviceConfig> := [];
    for i := 0 to |possibleConfigs|
      invariant forall k :: 0 <= k < i ==> Known(possibleConfigs[k])
      invariant classConfigs == OfSource(possibleConfigs[..i], FromClass)
      invariant claimConfigs == OfSource(possibleConfigs[..i], FromClaim)
    {
      var config := possibleConfigs[i];
      assert possibleConfigs[..i + 1][..i] == possibleConfigs[..i];
      match config.source
      case FromClass => classConfigs := classConfigs + [config];
      case FromClaim => claimConfigs := claimConfigs + [config];
      case Unknown =>
        assert config in possibleConfigs && !Known(config);
        return Err(InvalidSource);
    }
    assert possibleConfigs[..|possibleConfigs|] == possibleConfigs;
    r := DecodeCandidates(driver, classConfigs + claimConfigs);
  }

  method DecodeCandidates(driver: Driver, candidateConfigs: seq<DeviceConfig>) returns (r: Result<seq<Resolved>, Error>)
    ensures r == DecodeAll(driver, candidateConfigs)
  {
    var resultConfigs: seq<Resolved> := [];
    for i := 0 to |candidateConfigs|
      invariant DecodeAll(driver, candidateConfigs[..i]) == Ok(resultConfigs)
    {
      var config := candidateConfigs[i];
      assert candidateConfigs[..i + 1][..i] == candidateConfigs[..i];
      if config.payload.None? {
        DecodeErrorSticks(driver, candidateConfigs, i + 1);
        return Err(NotOpaque);
      }
      if config.payload.value.driver != driver.name {
        continue;
      }
      var decodedConfig := driver.decode(config.payload.value.raw);
      if decodedConfig.None? {
        DecodeErrorSticks(driver, candidateConfigs, i + 1);
        return Err(Undecodable);
      }
      resultConfigs := resultConfigs + [Resolved(config.requests, decodedConfig)];
    }
    assert candidateConfigs[..|candidateConfigs|] == candidateConfigs;
    return Ok(resultConfigs);
  }

  lemma {:induction false} DecodeErrorSticks(driver: Driver, candidates: seq<DeviceConfig>, n: nat)
    requires n <= |candidates| && DecodeAll(driver, candidates[..n]).Err?
    ensures DecodeAll(driver, candidates) == DecodeAll(driver, candidates[..n])
  {
    if n == |candidates| {
      assert candidates[..n] == candidates;
    } else {
      assert candidates[..|candidates| - 1][..n] == candidates[..n];
      DecodeErrorSticks(driver, candidates[..|candidates| - 1], n);
    }
  }

  // ---- what collection achieves ----

  ghost predicate Good(driver: Driver, c: DeviceConfig) {
    c.payload.Some? && (c.payload.value.driver == driver.name ==> driver.decode(c.payload.value.raw).Some?)
  }

  /** The positions of the driver's own configurations from one source, ascending. */
  ghost function Positions(driver: string, configs: seq<DeviceConfig>, source: Source): seq<nat> {
    if configs == [] then []
    else
      var n := |configs| - 1;
      Positions(driver, configs[..n], source)
          + (if IsOwn(configs[n], driver) && configs[n].source == source then [n] else [])
  }

  /** Ascending positions of own configurations from one source. */
  ghost predicate ArePositions(driver: string, configs: seq<DeviceConfig>, source: Source, at: seq<nat>) {
    && (forall k :: 0 <= k < |at| ==> at[k] < |configs|)
    && (forall k :: 0 <= k < |at| ==> IsOwn(configs[at[k]], driver) && configs[at[k]].source == source)
    && (forall k, l :: 0 <= k < l < |at| ==> at[k] < at[l])
  }

  lemma {:induction false} PositionsBounded(driver: string, configs: seq<DeviceConfig>, source: Source)
    ensures ArePositions(driver, configs, source, Positions(driver, configs, source))
  {
    if configs != [] {
      var front := configs[..|configs| - 1];
      PositionsBounded(driver, front, source);
      var before := Positions(driver, front, source);
      assert forall k :: 0 <= k < |before| ==> configs[before[k]] == front[before[k]];
    }
  }

  lemma {:induction false} PositionsComplete(driver: string, configs: seq<DeviceConfig>, source: Source, i: nat)
    requires i < |configs| && IsOwn(configs[i], driver) && configs[i].source == source
    ensures i in Positions(driver, configs, source)
  {
    var n := |configs| - 1;
    if i < n {
      PositionsComplete(driver, configs[..n], source, i);
    }
  }

  ghost function Ranked(driver: string, configs: seq<DeviceConfig>): seq<nat> {
    Positions(driver, configs, FromClass) + Positions(driver, configs, FromClaim)
  }

  ghost function DecodedAt(driver: Driver, configs: seq<DeviceConfig>, i: nat): Resolved
    requires i < |configs| && configs[i].payload.Some?
  {
    Resolved(configs[i].requests, driver.decode(configs[i].payload.value.raw))
  }

  /** `out` is the decoded configurations at the positions `at`, in that order. */
  ghost predicate Lists(driver: Driver, configs: seq<DeviceConfig>, at: seq<nat>, out: seq<Resolved>) {
    && |out| == |at|
    && forall k ::
         0 <= k < |at| ==>
         at[k] < |configs| && configs[at[k]].payload.Some? && out[k] == DecodedAt(driver, configs, at[k])
  }

  lemma {:induction false} DecodeConcat(driver: Driver, a: seq<DeviceConfig>, b: seq<DeviceConfig>)
    ensures DecodeAll(driver, a + b) ==
              (var ra := DecodeAll(driver, a);
               var rb := DecodeAll(driver, b);
               if ra.Err? then ra else if rb.Err? then rb else Ok(ra.value + rb.value))
  {
    if b == [] {
      assert a + b == a;
      if DecodeAll(driver, a).Ok? {
        assert DecodeAll(driver, a).value + [] == DecodeAll(driver, a).value;
      }
    } else {
      var front := b[..|b| - 1];
      DecodeConcat(driver, a, front);
      assert (a + b)[..|a + b| - 1] == a + front;
      assert (a + b)[|a + b| - 1] == b[|b| - 1];
      if DecodeAll(driver, a).Ok? && DecodeAll(driver, b).Ok? {
        var before := DecodeAll(driver, front).value;
        var last := DecodeAll(driver, b).value[|before|..];
        assert DecodeAll(driver, b).value == before + last;
        assert DecodeAll(driver, a).value + (before + last) == DecodeAll(driver, a).value + before + last;
      }
    }
  }

  ghost predicate AllGood(driver: Driver, configs: seq<DeviceConfig>, source: Source) {
    forall i :: 0 <= i < |configs| && configs[i].source == source ==> Good(driver, configs[i])
  }

  /** What the last configuration adds to the decoding of one source. */
  lemma DecodeStep(driver: Driver, configs: seq<DeviceConfig>, source: Source)
    requires configs != []
    ensures var n := |configs| - 1;
            var before, after := DecodeAll(driver, OfSource(configs[..n], source)),
                DecodeAll(driver, OfSource(configs, source));
            if before.Err? || configs[n].source != source then after == before
            else if !Good(driver, configs[n]) then after.Err?
            else
              var more := if IsOwn(configs[n], driver.name) then [DecodedAt(driver, configs, n)] else [];
              after == Ok(before.value + more)
  {
    var n := |configs| - 1;
    var rest := OfSource(configs[..n], source);
    if configs[n].source == source {
      assert OfSource(configs, source)[..|rest|] == rest;
      if DecodeAll(driver, rest).Ok? {
        assert DecodeAll(driver, rest).value + [] == DecodeAll(driver, rest).value;
      }
    } else {
      assert OfSource(configs, source) == rest;
    }
  }

  lemma AllGoodStep(driver: Driver, configs: seq<DeviceConfig>, source: Source)
    requires configs != []
    ensures var n := |configs| - 1;
            AllGood(driver, configs, source) <==>
              AllGood(driver, configs[..n], source) && (configs[n].source == source ==> Good(driver, configs[n]))
  {
    var n := |configs| - 1;
    assert forall i :: 0 <= i < n ==> configs[..n][i] == configs[i];
  }

  lemma {:induction false} DecodeSucceeds(driver: Driver, configs: seq<DeviceConfig>, source: Source)
    ensures DecodeAll(driver, OfSource(configs, source)).Ok? <==> AllGood(driver, configs, source)
  {
    if configs != [] {
      var n := |configs| - 1;
      var front, last := configs[..n], configs[n];
      DecodeSucceeds(driver, front, source);
      DecodeStep(driver, configs, source);
      AllGoodStep(driver, configs, source);
    }
  }

  lemma {:induction false} DecodeLists(driver: Driver, configs: seq<DeviceConfig>, source: Source)
    requires DecodeAll(driver, OfSource(configs, source)).Ok?
    ensures Lists(driver, configs, Positions(driver.name, configs, source),
        DecodeAll(driver, OfSource(configs, source)).value)
  {
    if configs != [] {
      var n := |configs| - 1;
      var front := configs[..n];
      DecodeStep(driver, configs, source);
      DecodeLists(driver, front, source);
      ListsStep(driver, configs, Positions(driver.name, front, source),
          DecodeAll(driver, OfSource(front, source)).value);
    }
  }

  lemma ListsStep(driver: Driver, configs: seq<DeviceConfig>, at: seq<nat>, out: seq<Resolved>)
    requires configs != [] && Lists(driver, configs[..|configs| - 1], at, out)
    ensures Lists(driver, configs, at + [], out + [])
    ensures var n := |configs| - 1;
            configs[n].payload.Some? ==> Lists(driver, configs, at + [n], out + [DecodedAt(driver, configs, n)])
  {
    var n := |configs| - 1;
    ListsLonger(driver, configs, n, at, out);
    assert at + [] == at && out + [] == out;
  }

  lemma ListsLonger(driver: Driver, configs: seq<DeviceConfig>, n: nat, at: seq<nat>, out: seq<Resolved>)
    requires n <= |configs| && Lists(driver, configs[..n], at, out)
    ensures Lists(driver, configs, at, out)
  {
    forall k | 0 <= k < |at|
      ensures at[k] < |configs| && configs[at[k]].payload.Some? && out[k] == DecodedAt(driver, configs, at[k])
    {
      assert configs[at[k]] == configs[..n][at[k]];
    }
  }

  /** Exact success condition of the collection. */
  lemma CollectSucceedsIff(driver: Driver, configs: seq<DeviceConfig>)
    ensures Collect(driver, configs).Ok?
       <==> forall i :: 0 <= i < |configs| ==> Known(configs[i]) && Good(driver, configs[i])
  {
    var a, b := OfSource(configs, FromClass), OfSource(configs, FromClaim);
    DecodeConcat(driver, a, b);
    DecodeSucceeds(driver, configs, FromClass);
    DecodeSucceeds(driver, configs, FromClaim);
    assert forall i :: 0 <= i < |configs| ==> configs[i] in configs;
  }

  /** Configuration `i` has lower precedence than configuration `j`. */
  ghost predicate Below(configs: seq<DeviceConfig>, i: nat, j: nat)
    requires i < |configs| && j < |configs|
  {
    (configs[i].source.FromClass? && configs[j].source.FromClaim?) || (configs[i].source == configs[j].source && i < j)
  }

  /** `at` is exactly the positions of the own configurations, in strictly rising precedence. */
  ghost predicate IsRanking(driver: string, configs: seq<DeviceConfig>, at: seq<nat>) {
    && (forall k :: 0 <= k < |at| ==> at[k] < |configs|)
    && (forall i :: i in at <==> 0 <= i < |configs| && IsOwn(configs[i], driver))
    && (forall k, l :: 0 <= k < l < |at| ==> Below(configs, at[k], at[l]))
  }

  /** The ranked positions are exactly those of the own configurations, in strictly rising
      precedence. */
  lemma RankedIsRanked(driver: string, configs: seq<DeviceConfig>)
    requires forall i :: 0 <= i < |configs| ==> Known(configs[i])
    ensures IsRanking(driver, configs, Ranked(driver, configs))
  {
    PositionsBounded(driver, configs, FromClass);
    PositionsBounded(driver, configs, FromClaim);
    var p, q := Positions(driver, configs, FromClass), Positions(driver, configs, FromClaim);
    forall k | 0 <= k < |p + q|
      ensures (p + q)[k] < |configs| && IsOwn(configs[(p + q)[k]], driver)
    {
      assert k >= |p| ==> (p + q)[k] == q[k - |p|];
    }
    forall k, l | 0 <= k < l < |p + q|
      ensures Below(configs, (p + q)[k], (p + q)[l])
    {
      assert k >= |p| ==> (p + q)[k] == q[k - |p|];
      assert l >= |p| ==> (p + q)[l] == q[l - |p|];
    }
    forall i | 0 <= i < |configs| && IsOwn(configs[i], driver)
      ensures i in Ranked(driver, configs)
    {
      PositionsComplete(driver, configs, configs[i].source, i);
    }
  }

  /** On success the output is exactly the own configurations, each decoded, in strictly
      rising precedence. */
  lemma CollectIsRanked(driver: Driver, configs: seq<DeviceConfig>)
    requires Collect(driver, configs).Ok?
    ensures IsRanking(driver.name, configs, Ranked(driver.name, configs))
    ensures Lists(driver, configs, Ranked(driver.name, configs), Collect(driver, configs).value)
  {
    var a, b := OfSource(configs, FromClass), OfSource(configs, FromClaim);
    DecodeConcat(driver, a, b);
    DecodeLists(driver, configs, FromClass);
    DecodeLists(driver, configs, FromClaim);
    ListsConcat(driver, configs, Positions(driver.name, configs, FromClass), Positions(driver.name, configs, FromClaim),
                DecodeAll(driver, a).value, DecodeAll(driver, b).value);
    assert forall i :: 0 <= i < |configs| ==> configs[i] in configs;
    RankedIsRanked(driver.name, configs);
  }

  lemma ListsConcat(driver: Driver, configs: seq<DeviceConfig>, p: seq<nat>, q: seq<nat>, out: seq<Resolved>,
      out': seq<Resolved>)
    requires Lists(driver, configs, p, out) && Lists(driver, configs, q, out')
    ensures Lists(driver, configs, p + q, out + out')
  {
    forall k | 0 <= k < |p + q|
      ensures (p + q)[k] < |configs| && configs[(p + q)[k]].payload.Some?
          && (out + out')[k] == DecodedAt(driver, configs, (p + q)[k])
    {
      if k >= |p| {
        assert (p + q)[k] == q[k - |p|] && (out + out')[k] == out'[k - |p|];
      }
    }
  }

  /** An unknown source anywhere decides the error. */
  lemma CollectRejectsUnknown(driver: Driver, configs: seq<DeviceConfig>)
    ensures Collect(driver, configs) == Err(InvalidSource) <==> exists c :: c in configs && !Known(c)
  {
    DecodeError(driver, OfSource(configs, FromClass) + OfSource(configs, FromClaim));
  }

  /** Otherwise the first bad candidate does. */
  lemma {:induction false} DecodeError(driver: Driver, candidates: seq<DeviceConfig>)
    ensures DecodeAll(driver, candidates).Err? ==>
              exists i :: 0 <= i < |candidates| && IsFirstBad(driver, candidates, i)
                && DecodeAll(driver, candidates).error == if candidates[i].payload.None? then NotOpaque else Undecodable
  {
    if candidates != [] {
      var n := |candidates| - 1;
      DecodeError(driver, candidates[..n]);
      if DecodeAll(driver, candidates[..n]).Err? {
        var i :| 0 <= i < n && IsFirstBad(driver, candidates[..n], i)
          && DecodeAll(driver, candidates[..n]).error == if candidates[..n][i].payload.None? then NotOpaque
               else Undecodable;
        assert IsFirstBad(driver, candidates, i);
      } else if DecodeAll(driver, candidates).Err? {
        DecodedAreGood(driver, candidates[..n]);
        assert IsFirstBad(driver, candidates, n);
      }
    }
  }

  ghost predicate IsFirstBad(driver: Driver, candidates: seq<DeviceConfig>, i: nat) {
    i < |candidates| && !Good(driver, candidates[i]) && forall j :: 0 <= j < i ==> Good(driver, candidates[j])
  }

  lemma {:induction false} DecodedAreGood(driver: Driver, candidates: seq<DeviceConfig>)
    requires DecodeAll(driver, candidates).Ok?
    ensures forall j :: 0 <= j < |candidates| ==> Good(driver, candidates[j])
  {
    if candidates != [] {
      DecodedAreGood(driver, candidates[..|candidates| - 1]);
    }
  }

  // ---- precedence ----

  ghost predicate Applies(configs: seq<DeviceConfig>, driver: string, request: string, i: nat) {
    i < |configs| && IsOwn(configs[i], driver) && (configs[i].requests == [] || request in configs[i].requests)
  }

  /** `i` applies and every other configuration that applies has lower precedence. */
  ghost predicate Wins(configs: seq<DeviceConfig>, driver: string, request: string, i: nat) {
    && Applies(configs, driver, request, i)
    && forall j :: Applies(configs, driver, request, j) && j != i ==> Below(configs, j, i)
  }

  /** The documented meaning: the winner's decoded configuration, or the default. */
  ghost function Winner(driver: Driver, configs: seq<DeviceConfig>, request: string): Option<string> {
    if i: nat :| Wins(configs, driver.name, request, i) then driver.decode(configs[i].payload.value.raw) else None
  }

  lemma WinnerIs(driver: Driver, configs: seq<DeviceConfig>, request: string, i: nat)
    requires Wins(configs, driver.name, request, i)
    ensures Winner(driver, configs, request) == driver.decode(configs[i].payload.value.raw)
  {
    forall j: nat | Wins(configs, driver.name, request, j)
      ensures j == i
    {
      assert j != i ==> Below(configs, j, i) && Below(configs, i, j);
    }
  }

  lemma ScanCovers(driver: Driver, configs: seq<DeviceConfig>, request: string, i: nat) returns (l: nat)
    requires Collect(driver, configs).Ok? && Applies(configs, driver.name, request, i)
    ensures l < |Ranked(driver.name, configs)| && Ranked(driver.name, configs)[l] == i
    ensures l < Lookup([DEFAULT] + Collect(driver, configs).value, request)
  {
    CollectIsRanked(driver, configs);
    var at := Ranked(driver.name, configs);
    assert i in at;
    l :| 0 <= l < |at| && at[l] == i;
    var all := [DEFAULT] + Collect(driver, configs).value;
    assert Matches(all[l + 1], request);
  }

  lemma ScanHitWins(driver: Driver, configs: seq<DeviceConfig>, request: string) returns (i: nat)
    requires Collect(driver, configs).Ok?
    requires Lookup([DEFAULT] + Collect(driver, configs).value, request) > 0
    ensures var all := [DEFAULT] + Collect(driver, configs).value;
            Wins(configs, driver.name, request, i) && all[Lookup(all, request)] == DecodedAt(driver, configs, i)
  {
    CollectIsRanked(driver, configs);
    var at := Ranked(driver.name, configs);
    var k := Lookup([DEFAULT] + Collect(driver, configs).value, request);
    i := at[k - 1];
    assert i in at;
    assert Applies(configs, driver.name, request, i);
    forall j: nat | Applies(configs, driver.name, request, j) && j != i
      ensures Below(configs, j, i)
    {
      var l := ScanCovers(driver, configs, request, j);
    }
  }

  /** The scan from the back through the default and the collected configurations finds the
      winner, and the default if and only if no configuration applies. */
  lemma ScanFindsWinner(driver: Driver, configs: seq<DeviceConfig>, request: string)
    requires Collect(driver, configs).Ok?
    ensures var all := [DEFAULT] + Collect(driver, configs).value;
            && all[Lookup(all, request)].config == Winner(driver, configs, request)
            && (Lookup(all, request) == 0 <==> !exists i: nat :: Applies(configs, driver.name, request, i))
  {
    var k := Lookup([DEFAULT] + Collect(driver, configs).value, request);
    if k > 0 {
      var i := ScanHitWins(driver, configs, request);
      WinnerIs(driver, configs, request, i);
    }
    if i: nat :| Applies(configs, driver.name, request, i) {
      var l := ScanCovers(driver, configs, request, i);
    }
  }
}
