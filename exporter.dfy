/**
 * Metrics exporters attached to targets (services/config-server/internal/domain/exporter.go):
 * the type check, validation with its defaults, the default ports and the scrape endpoint.
 * `Validate` fills defaults into the exporter it checks, so an exporter is an object here.
 */
module Exporter {
  import opened Wrappers
  import opened Values
  import opened GoStrings
  import opened DomainErrors

  const NodeExporter := "node_exporter"
  const DcgmExporter := "dcgm_exporter"
  const AllSmi := "all_smi"
  const Custom := "custom"

  /** `ExporterType.IsValid`: one of the four known types. */
  predicate IsValidType(t: string)
    ensures IsValidType(t) <==> t in {NodeExporter, DcgmExporter, AllSmi, Custom}
  {
    t == NodeExporter || t == DcgmExporter || t == AllSmi || t == Custom
  }

  /** `DefaultPortForType`: 9100, 9400, 9401 and 9090, and 9090 for any other type. */
  function DefaultPortForType(t: string): (port: int)
    ensures 1 <= port <= 65535
    ensures !IsValidType(t) ==> port == 9090
  {
    match t
    case "node_exporter" => 9100
    case "dcgm_exporter" => 9400
    case "all_smi" => 9401
    case "custom" => 9090
    case _ => 9090
  }

  /** The known types have pairwise different default ports. */
  lemma DefaultPortsDistinct(t: string, u: string)
    requires IsValidType(t) && IsValidType(u) && t != u
    ensures DefaultPortForType(t) != DefaultPortForType(u)
  {
  }

  /** `ExporterConfig`: the type-specific settings. */
  datatype ExporterConfig = ExporterConfig(
    enabledCollectors: seq<string>,
    disabledCollectors: seq<string>,
    fields: seq<string>,
    deviceIds: seq<string>,
    customParams: Config)

  predicate ValidPort(port: int) { 0 < port <= 65535 }

  /** A field filled with its default when empty. */
  function OrDefault(s: string, default: string): (r: string)
    ensures r != "" || default == ""
    ensures s != "" ==> r == s
  {
    if s == "" then default else s
  }

  class Exporter {
    var id: string
    var targetId: string
    var exporterType: string
    var port: int
    var enabled: bool
    var metricsPath: string
    var scrapeInterval: string
    var scrapeTimeout: string
    var config: ExporterConfig

    constructor (targetId: string, exporterType: string, port: int, metricsPath: string,
                 scrapeInterval: string, scrapeTimeout: string)
      ensures this.targetId == targetId && this.exporterType == exporterType && this.port == port
      ensures this.metricsPath == metricsPath && this.scrapeInterval == scrapeInterval
      ensures this.scrapeTimeout == scrapeTimeout && id == "" && enabled
    {
      this.id := "";
      this.targetId := targetId;
      this.exporterType := exporterType;
      this.port := port;
      this.enabled := true;
      this.metricsPath := metricsPath;
      this.scrapeInterval := scrapeInterval;
      this.scrapeTimeout := scrapeTimeout;
      this.config := ExporterConfig([], [], [], [], map[]);
    }

    /** The exporter passes the checks of `Validate`. */
    predicate Checks()
      reads this
    {
      IsValidType(exporterType) && ValidPort(port)
    }

    /** Every field `Validate` defaults is set. */
    predicate Defaulted()
      reads this
    {
      metricsPath != "" && scrapeInterval != "" && scrapeTimeout != ""
    }

    /**
     * `Validate`: an unknown type or a port outside 1..65535 is reported and nothing changes;
     * otherwise the empty path, interval and timeout become "/metrics", "15s" and "10s".
     */
    method Validate() returns (err: Option<ValidationError>)
      modifies this
      ensures !IsValidType(old(exporterType)) ==>
        err == Some(ValidationError("type", "invalid exporter type: " + old(exporterType)))
      ensures IsValidType(old(exporterType)) && !ValidPort(old(port)) ==>
        err == Some(ValidationError("port", "invalid port: " + IntToString(old(port))))
      ensures err.None? <==> old(Checks())
      ensures err.Some? ==> (metricsPath == old(metricsPath) && scrapeInterval == old(scrapeInterval)
        && scrapeTimeout == old(scrapeTimeout))
      ensures err.None? ==> (metricsPath == OrDefault(old(metricsPath), "/metrics")
        && scrapeInterval == OrDefault(old(scrapeInterval), "15s")
        && scrapeTimeout == OrDefault(old(scrapeTimeout), "10s")
        && Defaulted())
      ensures id == old(id) && targetId == old(targetId) && exporterType == old(exporterType)
      ensures port == old(port) && enabled == old(enabled) && config == old(config)
    {
      if !IsValidType(exporterType) {
        return Some(ValidationError("type", "invalid exporter type: " + exporterType));
      }
      if port <= 0 || port > 65535 {
        return Some(ValidationError("port", "invalid port: " + IntToString(port)));
      }
      if metricsPath == "" {
        metricsPath := "/metrics";
      }
      if scrapeInterval == "" {
        scrapeInterval := "15s";
      }
      if scrapeTimeout == "" {
        scrapeTimeout := "10s";
      }
      return None;
    }

    /** `GetEndpoint`: the scrape URL on the target's address. */
    function Endpoint(ipAddress: string): (url: string)
      reads this
    {
      "http://" + ipAddress + ":" + IntToString(port) + metricsPath
    }
  }

  /** Validating twice is validating once: the second call accepts and changes nothing. */
  method ValidateTwice(e: Exporter) returns (first: Option<ValidationError>, second: Option<ValidationError>)
    modifies e
    ensures second == first
    ensures first.None? ==> e.Defaulted() && e.metricsPath == OrDefault(old(e.metricsPath), "/metrics")
  {
    first := e.Validate();
    ghost var path, interval, timeout := e.metricsPath, e.scrapeInterval, e.scrapeTimeout;
    second := e.Validate();
    assert e.metricsPath == path && e.scrapeInterval == interval && e.scrapeTimeout == timeout;
  }

  /**
   * On one address, the endpoint of an exporter with a valid port and a path starting with
   * '/' gives back its port and its path.
   */
  lemma EndpointDetermines(e: Exporter, f: Exporter, ip: string)
    requires ValidPort(e.port) && ValidPort(f.port)
    requires e.metricsPath != "" && e.metricsPath[0] == '/' && f.metricsPath != "" && f.metricsPath[0] == '/'
    requires e.Endpoint(ip) == f.Endpoint(ip)
    ensures e.port == f.port && e.metricsPath == f.metricsPath
  {
    var pre := "http://" + ip + ":";
    var pe, pf := IntToString(e.port), IntToString(f.port);
    assert e.Endpoint(ip) == pre + (pe + e.metricsPath);
    assert f.Endpoint(ip) == pre + (pf + f.metricsPath);
    assert pe + e.metricsPath == f.Endpoint(ip)[|pre|..];
    assert pf + f.metricsPath == f.Endpoint(ip)[|pre|..];
    assert pe == NatToString(e.port) && pf == NatToString(f.port);
    LeadingDigitsOf(pe, e.metricsPath);
    LeadingDigitsOf(pf, f.metricsPath);
    assert pe == pf;
    assert e.metricsPath == (pe + e.metricsPath)[|pe|..];
  }
}
