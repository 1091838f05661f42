/** Start-up (`Program.Main`): the tile plans and the server configurations
    are checked in order, the first failing check stops the start-up, and
    the accepted configurations become the server list. */
module Startup {
  import opened Wrappers
  import opened Numeric
  import opened DynamicProcessor
  import opened AIServers
  import opened AIServerLists

  // ---------------------------------------------------------------------------
  // Tile plans.

  /** The checks on a plan, in the order they run: two on the plan, then
      seven on each row. */
  datatype PlanCheck =
    | ImageWidthExpected | ImageHeightExpected
    | XEndPercent | XStartPercent | XStartNotBeforeEnd
    | RowHeight | RowWidth | OverlapFactor | ScaleWidth

  /** Why the start-up stops: a plan (by name) or a server (by name) failed a check. */
  datatype ConfigError =
    | PlanRejected(planName: string, planCheck: PlanCheck)
    | ServerRejected(serverName: string, serverCheck: ServerCheck)

  /** The row checks in source order. */
  const RowChecks: seq<PlanCheck> :=
    [XEndPercent, XStartPercent, XStartNotBeforeEnd, RowHeight, RowWidth, OverlapFactor, ScaleWidth]

  /** Row fails check c; the comparisons on an absent percentage are false. */
  predicate RowFails(row: TilePlan, c: PlanCheck) {
    match c
    case XEndPercent => row.xEndPercent.Some? && (row.xEndPercent.value > 1.0 || row.xEndPercent.value <= 0.0)
    case XStartPercent => row.xStartPercent.Some? && (row.xStartPercent.value >= 1.0 || row.xStartPercent.value < 0.0)
    case XStartNotBeforeEnd =>
      row.xStartPercent.Some? && row.xEndPercent.Some? && row.xStartPercent.value >= row.xEndPercent.value
    case RowHeight => row.height <= 0
    case RowWidth => row.width <= 0
    case OverlapFactor => row.overlapFactor < 0.0 || row.overlapFactor >= 0.5
    case ScaleWidth => row.scaleWidth <= 0
    case _ => false
  }

  /** The guards of the row loop, as written: the check that throws, if any. */
  function RowCheck(row: TilePlan): Option<PlanCheck> {
    if row.xEndPercent.Some? && (row.xEndPercent.value > 1.0 || row.xEndPercent.value <= 0.0) then Some(XEndPercent)
    else if row.xStartPercent.Some? && (row.xStartPercent.value >= 1.0 || row.xStartPercent.value < 0.0) then
      Some(XStartPercent)
    else if row.xStartPercent.Some? && row.xEndPercent.Some? && row.xStartPercent.value >= row.xEndPercent.value then
      Some(XStartNotBeforeEnd)
    else if row.height <= 0 then Some(RowHeight)
    else if row.width <= 0 then Some(RowWidth)
    else if row.overlapFactor < 0.0 || row.overlapFactor >= 0.5 then Some(OverlapFactor)
    else if row.scaleWidth <= 0 then Some(ScaleWidth)
    else None
  }

  /** The reported check is the first failing one in source order, and a row
      passes exactly when it fails none. */
  lemma RowCheckIsFirstFailing(row: TilePlan)
    ensures RowCheck(row).None? <==> forall j :: 0 <= j < |RowChecks| ==> !RowFails(row, RowChecks[j])
    ensures RowCheck(row).Some? ==>
              exists j :: 0 <= j < |RowChecks| && RowChecks[j] == RowCheck(row).value && RowFails(row, RowChecks[j]) &&
                          forall i :: 0 <= i < j ==> !RowFails(row, RowChecks[i])
  {
    if RowCheck(row).Some? {
      var c := RowCheck(row).value;
      var j := if c == XEndPercent then 0 else if c == XStartPercent then 1
               else if c == XStartNotBeforeEnd then 2 else if c == RowHeight then 3
               else if c == RowWidth then 4 else if c == OverlapFactor then 5 else 6;
      assert RowChecks[j] == c;
      assert RowFails(row, RowChecks[j]);
      assert forall i :: 0 <= i < j ==> !RowFails(row, RowChecks[i]);
    }
  }

  /** A row the validator accepts: percentages, when present, within range and
      ordered; positive height, width and scale width; overlap in [0, 0.5). */
  predicate RowValid(row: TilePlan) {
    (row.xEndPercent.Some? ==> 0.0 < row.xEndPercent.value <= 1.0) &&
    (row.xStartPercent.Some? ==> 0.0 <= row.xStartPercent.value < 1.0) &&
    (row.xStartPercent.Some? && row.xEndPercent.Some? ==> row.xStartPercent.value < row.xEndPercent.value) &&
    row.height > 0 && row.width > 0 && 0.0 <= row.overlapFactor < 0.5 && row.scaleWidth > 0
  }

  lemma RowCheckAccepts(row: TilePlan)
    ensures RowCheck(row).None? <==> RowValid(row)
  {
  }

  /** The first row that fails a check, with its check. */
  function RowsCheck(rows: seq<TilePlan>): (r: Option<PlanCheck>)
    ensures r.None? <==> forall i :: 0 <= i < |rows| ==> RowCheck(rows[i]).None?
  {
    if rows == [] then None
    else if RowCheck(rows[0]).Some? then RowCheck(rows[0])
    else
      assert forall i :: 1 <= i < |rows| ==> rows[i] == rows[1..][i - 1];
      RowsCheck(rows[1..])
  }

  /** The first failing row decides the check reported. */
  lemma {:induction false} RowsCheckAt(rows: seq<TilePlan>, i: nat)
    requires i < |rows| && RowCheck(rows[i]).Some?
    requires forall k :: 0 <= k < i ==> RowCheck(rows[k]).None?
    ensures RowsCheck(rows) == RowCheck(rows[i])
  {
    if i > 0 {
      assert RowCheck(rows[0]).None?;
      assert forall k :: 0 <= k < i - 1 ==> rows[1..][k] == rows[k + 1];
      RowsCheckAt(rows[1..], i - 1);
    }
  }

  /** The plan's own checks, then its rows in order. */
  function PlanCheckOf(plan: DynamicTilePlan): (r: Option<PlanCheck>)
    ensures r.None? <==> plan.imageWidthExpected > 0 && plan.imageHeightExpected > 0 &&
                         forall i :: 0 <= i < |plan.tilePlans| ==> RowValid(plan.tilePlans[i])
  {
    forall i | 0 <= i < |plan.tilePlans| ensures RowCheck(plan.tilePlans[i]).None? <==> RowValid(plan.tilePlans[i]) {
      RowCheckAccepts(plan.tilePlans[i]);
    }
    if plan.imageWidthExpected <= 0 then Some(ImageWidthExpected)
    else if plan.imageHeightExpected <= 0 then Some(ImageHeightExpected)
    else RowsCheck(plan.tilePlans)
  }

  /** The error of the first plan that fails a check. */
  function FirstPlanError(plans: seq<DynamicTilePlan>): (r: Option<ConfigError>)
    ensures r.None? <==> forall i :: 0 <= i < |plans| ==> PlanCheckOf(plans[i]).None?
  {
    if plans == [] then None
    else if PlanCheckOf(plans[0]).Some? then Some(PlanRejected(plans[0].tilePlanName, PlanCheckOf(plans[0]).value))
    else
      assert forall i :: 1 <= i < |plans| ==> plans[i] == plans[1..][i - 1];
      FirstPlanError(plans[1..])
  }

  /** The rows of one plan, checked in order. */
  method ValidateRows(rows: seq<TilePlan>) returns (failed: Option<PlanCheck>)
    ensures failed == RowsCheck(rows)
  {
    for j := 0 to |rows|
      invariant forall k :: 0 <= k < j ==> RowCheck(rows[k]).None?
    {
      var row := rows[j];
      if row.xEndPercent.Some? && (row.xEndPercent.value > 1.0 || row.xEndPercent.value <= 0.0) {
        RowsCheckAt(rows, j);
        return Some(XEndPercent);
      }
      if row.xStartPercent.Some? && (row.xStartPercent.value >= 1.0 || row.xStartPercent.value < 0.0) {
        RowsCheckAt(rows, j);
        return Some(XStartPercent);
      }
      if row.xStartPercent.Some? && row.xEndPercent.Some? && row.xStartPercent.value >= row.xEndPercent.value {
        RowsCheckAt(rows, j);
        return Some(XStartNotBeforeEnd);
      }
      if row.height <= 0 {
        RowsCheckAt(rows, j);
        return Some(RowHeight);
      }
      if row.width <= 0 {
        RowsCheckAt(rows, j);
        return Some(RowWidth);
      }
      if row.overlapFactor < 0.0 || row.overlapFactor >= 0.5 {
        RowsCheckAt(rows, j);
        return Some(OverlapFactor);
      }
      if row.scaleWidth <= 0 {
        RowsCheckAt(rows, j);
        return Some(ScaleWidth);
      }
    }
    return None;
  }

  /** The plan loop of `Main`: the first plan failing a check is reported. */
  method ValidatePlans(plans: seq<DynamicTilePlan>) returns (error: Option<ConfigError>)
    ensures error == FirstPlanError(plans)
  {
    for i := 0 to |plans|
      invariant forall k :: 0 <= k < i ==> PlanCheckOf(plans[k]).None?
    {
      var plan := plans[i];
      if plan.imageWidthExpected <= 0 {
        FirstPlanErrorAt(plans, i);
        return Some(PlanRejected(plan.tilePlanName, ImageWidthExpected));
      }
      if plan.imageHeightExpected <= 0 {
        FirstPlanErrorAt(plans, i);
        return Some(PlanRejected(plan.tilePlanName, ImageHeightExpected));
      }
      var failed := ValidateRows(plan.tilePlans);
      if failed.Some? {
        FirstPlanErrorAt(plans, i);
        return Some(PlanRejected(plan.tilePlanName, failed.value));
      }
    }
    return None;
  }

  /** The first failing plan decides the error. */
  lemma {:induction false} FirstPlanErrorAt(plans: seq<DynamicTilePlan>, i: nat)
    requires i < |plans| && PlanCheckOf(plans[i]).Some?
    requires forall k :: 0 <= k < i ==> PlanCheckOf(plans[k]).None?
    ensures FirstPlanError(plans) == Some(PlanRejected(plans[i].tilePlanName, PlanCheckOf(plans[i]).value))
  {
    if i > 0 {
      assert PlanCheckOf(plans[0]).None?;
      assert forall k :: 0 <= k < i - 1 ==> plans[1..][k] == plans[k + 1];
      FirstPlanErrorAt(plans[1..], i - 1);
    }
  }

  /** An accepted plan can be split and mapped once every row's loop ends:
      its rows have positive widths and scale widths, and a non-negative
      step, so only a zero step with a first tile that fits can stall. */
  lemma AcceptedPlanTileable(imageWidth: int, imageHeight: int, plan: DynamicTilePlan)
    requires PlanCheckOf(plan).None?
    requires forall i :: 0 <= i < |plan.tilePlans| ==>
               var row := plan.tilePlans[i];
               row.width != 0 &&
               Halts(imageWidth, imageHeight, row.width, row.y, row.height, RowScale(row), row.overlapFactor)
    ensures RowsSplittable(imageWidth, imageHeight, plan.tilePlans)
    ensures forall i :: 0 <= i < |plan.tilePlans| ==>
              plan.tilePlans[i].width > 0 && plan.tilePlans[i].scaleWidth > 0 &&
              Step(plan.tilePlans[i].width, plan.tilePlans[i].overlapFactor) >= 0
  {
    forall i | 0 <= i < |plan.tilePlans|
      ensures Step(plan.tilePlans[i].width, plan.tilePlans[i].overlapFactor) >= 0
    {
      assert RowValid(plan.tilePlans[i]);
      StepNonNegative(plan.tilePlans[i].width, plan.tilePlans[i].overlapFactor);
    }
  }

  /** The checks do not guarantee termination: a plan with a one-pixel row and
      overlap 0.25 is accepted, and on a 1 x 100 image its row loop never ends. */
  lemma AcceptedPlanMayStall()
    ensures var row := TilePlan(0, 10, 1, 0.25, 1, None, None);
            var plan := DynamicTilePlan(1, "narrow", 100, 100, [row]);
            PlanCheckOf(plan).None? && !Halts(1, 100, row.width, row.y, row.height, RowScale(row), row.overlapFactor)
  {
    var row := TilePlan(0, 10, 1, 0.25, 1, None, None);
    assert RowValid(row);
    assert Trunc(1.0 * (1.0 - 2.0 * 0.25)) == 0;
    assert Trunc(1.0 * 0.25) == 0;
  }

  // ---------------------------------------------------------------------------
  // Server configurations.

  /** The checks on a server configuration, in the order they run. */
  datatype ServerCheck = MovingAverageAlpha | TimeoutInSeconds | Port | UnknownType

  /** An `AIServerConfig` entry; `serverType` is its `Type`. */
  datatype ServerConfig = ServerConfig(
    endpoint: string,
    serverName: string,
    port: int,
    name: string,
    serverType: string,
    timeoutInSeconds: int,
    maxBatchSize: int,
    labels: seq<string>,
    isSSL: bool,
    movingAverageAlpha: real)

  /** The backend a configuration builds; a tensor backend keeps its labels. */
  datatype ServerKind = CodeProjectAI | Tensor(labels: seq<string>)

  /** The guards of the configuration loop, as written: the check that throws, if any. */
  function ServerCheckOf(cfg: ServerConfig): Option<ServerCheck> {
    if cfg.movingAverageAlpha <= 0.0 || cfg.movingAverageAlpha > 1.0 then Some(MovingAverageAlpha)
    else if cfg.timeoutInSeconds <= 0 then Some(TimeoutInSeconds)
    else if cfg.port < 0 || cfg.port > 65535 then Some(Port)
    else if cfg.serverType != "CodeProjectAI" && cfg.serverType != "Tensor" then Some(UnknownType)
    else None
  }

  /** A configuration is accepted exactly when its weight is in (0, 1], its
      timeout positive, its port in [0, 65535] and its type one of the two
      known ones; each failure names the first failing check. */
  lemma ServerCheckAccepts(cfg: ServerConfig)
    ensures ServerCheckOf(cfg).None? <==>
              0.0 < cfg.movingAverageAlpha <= 1.0 && cfg.timeoutInSeconds > 0 && 0 <= cfg.port <= 65535 &&
              cfg.serverType in {"CodeProjectAI", "Tensor"}
    ensures ServerCheckOf(cfg) == Some(TimeoutInSeconds) ==> 0.0 < cfg.movingAverageAlpha <= 1.0
    ensures ServerCheckOf(cfg) == Some(Port) ==> 0.0 < cfg.movingAverageAlpha <= 1.0 && cfg.timeoutInSeconds > 0
    ensures ServerCheckOf(cfg) == Some(UnknownType) ==>
              0.0 < cfg.movingAverageAlpha <= 1.0 && cfg.timeoutInSeconds > 0 && 0 <= cfg.port <= 65535
  {
  }

  /** The kind the type dispatch picks. */
  function KindOf(cfg: ServerConfig): ServerKind
    requires cfg.serverType in {"CodeProjectAI", "Tensor"}
  {
    if cfg.serverType == "CodeProjectAI" then CodeProjectAI else Tensor(cfg.labels)
  }

  /** The settings of the server built from an accepted configuration; only a
      tensor backend has a maximum batch size. */
  function SettingsOf(cfg: ServerConfig): (c: Config)
    requires cfg.serverType in {"CodeProjectAI", "Tensor"}
    ensures c.name == cfg.name && c.movingAverageAlpha == cfg.movingAverageAlpha
    ensures c.maxBatchSize.Some? <==> cfg.serverType == "Tensor"
  {
    Config(cfg.serverName, cfg.port, cfg.endpoint, cfg.isSSL, cfg.name, cfg.timeoutInSeconds,
           cfg.movingAverageAlpha, if cfg.serverType == "Tensor" then Some(cfg.maxBatchSize) else None, 0, 0)
  }

  /** The error of the first configuration that fails a check. */
  function FirstServerError(configs: seq<ServerConfig>): (r: Option<ConfigError>)
    ensures r.None? <==> forall i :: 0 <= i < |configs| ==> ServerCheckOf(configs[i]).None?
  {
    if configs == [] then None
    else if ServerCheckOf(configs[0]).Some? then Some(ServerRejected(configs[0].name, ServerCheckOf(configs[0]).value))
    else
      assert forall i :: 1 <= i < |configs| ==> configs[i] == configs[1..][i - 1];
      FirstServerError(configs[1..])
  }

  lemma {:induction false} FirstServerErrorAt(configs: seq<ServerConfig>, i: nat)
    requires i < |configs| && ServerCheckOf(configs[i]).Some?
    requires forall k :: 0 <= k < i ==> ServerCheckOf(configs[k]).None?
    ensures FirstServerError(configs) == Some(ServerRejected(configs[i].name, ServerCheckOf(configs[i]).value))
  {
    if i > 0 {
      assert ServerCheckOf(configs[0]).None?;
      assert forall k :: 0 <= k < i - 1 ==> configs[1..][k] == configs[k + 1];
      FirstServerErrorAt(configs[1..], i - 1);
    }
  }

  /** The configuration loop of `Main`: each accepted configuration adds a
      new server of its kind, in configuration order; the first failing check
      stops the loop with its error. */
  method BuildServers(configs: seq<ServerConfig>)
    returns (servers: seq<AIServer>, kinds: seq<ServerKind>, error: Option<ConfigError>)
    ensures error == FirstServerError(configs)
    ensures error.None? ==>
              |servers| == |configs| && |kinds| == |configs| &&
              (forall i, j :: 0 <= i < j < |servers| ==> servers[i] != servers[j]) &&
              forall i :: 0 <= i < |configs| ==>
                fresh(servers[i]) && ServerCheckOf(configs[i]).None? &&
                kinds[i] == KindOf(configs[i]) &&
                servers[i].State() == Stats(0, 0, 0, 0, true, None) &&
                servers[i].Settings() == SettingsOf(configs[i])
  {
    servers, kinds := [], [];
    for i := 0 to |configs|
      invariant |servers| == i && |kinds| == i
      invariant forall a, b :: 0 <= a < b < i ==> servers[a] != servers[b]
      invariant forall k :: 0 <= k < i ==>
                  fresh(servers[k]) && ServerCheckOf(configs[k]).None? &&
                  kinds[k] == KindOf(configs[k]) &&
                  servers[k].State() == Stats(0, 0, 0, 0, true, None) &&
                  servers[k].Settings() == SettingsOf(configs[k])
    {
      var cfg := configs[i];
      if cfg.movingAverageAlpha <= 0.0 || cfg.movingAverageAlpha > 1.0 {
        FirstServerErrorAt(configs, i);
        return servers, kinds, Some(ServerRejected(cfg.name, MovingAverageAlpha));
      }
      if cfg.timeoutInSeconds <= 0 {
        FirstServerErrorAt(configs, i);
        return servers, kinds, Some(ServerRejected(cfg.name, TimeoutInSeconds));
      }
      if cfg.port < 0 || cfg.port > 65535 {
        FirstServerErrorAt(configs, i);
        return servers, kinds, Some(ServerRejected(cfg.name, Port));
      }
      var server := new AIServer(cfg.serverName, cfg.port, cfg.endpoint, cfg.isSSL, cfg.name,
                                 cfg.timeoutInSeconds, cfg.movingAverageAlpha);
      if cfg.serverType == "CodeProjectAI" {
        kinds := kinds + [CodeProjectAI];
      } else if cfg.serverType == "Tensor" {
        server.maxBatchSize := Some(cfg.maxBatchSize);
        kinds := kinds + [Tensor(cfg.labels)];
      } else {
        FirstServerErrorAt(configs, i);
        return servers, kinds, Some(ServerRejected(cfg.name, UnknownType));
      }
      servers := servers + [server];
    }
    error := None;
  }

  /** What start-up ends with: the server list and the kind of each server, or
      the error that stopped it. */
  datatype Started = Running(list: AIServerList, kinds: seq<ServerKind>) | Stopped(error: ConfigError)

  /** `Main` from reading the configuration to registering the server list:
      plans are checked before servers, and the first failing check stops the
      start-up; otherwise the list holds one fresh, active, idle server per
      configuration, in order. */
  method Start(plans: seq<DynamicTilePlan>, configs: seq<ServerConfig>, inactiveServerCheckTimeout: int)
    returns (r: Started)
    ensures r.Stopped? <==> FirstPlanError(plans).Some? || FirstServerError(configs).Some?
    ensures r.Stopped? ==>
              r.error == if FirstPlanError(plans).Some? then FirstPlanError(plans).value
                         else FirstServerError(configs).value
    ensures r.Running? ==>
              fresh(r.list) && r.list.Distinct() && |r.list.servers| == |configs| && |r.kinds| == |configs| &&
              r.list.inactiveServerCheckInterval == inactiveServerCheckTimeout &&
              forall i :: 0 <= i < |configs| ==>
                fresh(r.list.servers[i]) && r.kinds[i] == KindOf(configs[i]) &&
                r.list.servers[i].State() == Stats(0, 0, 0, 0, true, None) &&
                r.list.servers[i].Settings() == SettingsOf(configs[i])
  {
    var planError := ValidatePlans(plans);
    if planError.Some? {
      return Stopped(planError.value);
    }
    var servers, kinds, serverError := BuildServers(configs);
    if serverError.Some? {
      return Stopped(serverError.value);
    }
    var list := new AIServerList(servers, inactiveServerCheckTimeout);
    r := Running(list, kinds);
  }
}
