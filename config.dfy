/**
 * The server configuration (im-server/configs/config.go): its defaults and the load-or-fall-back
 * decision. Reading the file and YAML decoding are abstract outcomes handed in by the caller.
 */
module Configs {
  import opened Wrappers
  import Text

  /** A snapshot of every field of a Config, in the order the struct declares them. */
  datatype ConfigValues = ConfigValues(
    serverToken: string,
    wsEnabled: bool, wsIP: string, wsPort: int,
    grpcBrowser: bool, grpcEnabled: bool, grpcIP: string, grpcPort: int,
    logFormat: string, logLevel: string, logDir: string, logFile: string)

  /** The zero value of a Config. */
  const ZeroValues := ConfigValues("", false, "", 0, false, false, "", 0, "", "", "", "")

  const DefaultLogFormat := "{time:YYYY-MM-DD HH:mm:ss} - {level} - {message}"

  /** What setDefaults leaves in every field. */
  const DefaultValues := ConfigValues(
    "your_token",
    true, "0.0.0.0", 9000,
    true, true, "0.0.0.0", 9001,
    DefaultLogFormat, "INFO", "logs", "im-server.log")

  class Config {
    var serverToken: string
    var wsEnabled: bool
    var wsIP: string
    var wsPort: int
    var grpcBrowser: bool
    var grpcEnabled: bool
    var grpcIP: string
    var grpcPort: int
    var logFormat: string
    var logLevel: string
    var logDir: string
    var logFile: string

    function Values(): ConfigValues
      reads this
    {
      ConfigValues(serverToken, wsEnabled, wsIP, wsPort, grpcBrowser, grpcEnabled, grpcIP, grpcPort,
                   logFormat, logLevel, logDir, logFile)
    }

    /** &Config{}: every field at its zero value. */
    constructor ()
      ensures Values() == ZeroValues
    {
      serverToken := "";
      wsEnabled, wsIP, wsPort := false, "", 0;
      grpcBrowser, grpcEnabled, grpcIP, grpcPort := false, false, "", 0;
      logFormat, logLevel, logDir, logFile := "", "", "", "";
    }

    /** Overwrites the fields of a Config with the given snapshot (what decoding leaves behind). */
    method Assign(v: ConfigValues)
      modifies this
      ensures Values() == v
    {
      serverToken := v.serverToken;
      wsEnabled, wsIP, wsPort := v.wsEnabled, v.wsIP, v.wsPort;
      grpcBrowser, grpcEnabled, grpcIP, grpcPort := v.grpcBrowser, v.grpcEnabled, v.grpcIP, v.grpcPort;
      logFormat, logLevel, logDir, logFile := v.logFormat, v.logLevel, v.logDir, v.logFile;
    }

    /**
     * setDefaults assigns every field, so the result does not depend on what the Config held:
     * applying it twice is the same as applying it once.
     */
    method SetDefaults()
      modifies this
      ensures Values() == DefaultValues
    {
      wsEnabled := true;
      wsIP := "0.0.0.0";
      wsPort := 9000;

      grpcEnabled := true;
      grpcBrowser := true;
      grpcIP := "0.0.0.0";
      grpcPort := 9001;

      serverToken := "your_token";

      logDir := "logs";
      logLevel := "INFO";
      logFormat := DefaultLogFormat;
      logFile := "im-server.log";
    }
  }

  /** The outcome of reading config.yaml. */
  datatype ReadOutcome = ReadFailed | ReadOk(data: string)

  /**
   * The outcome of decoding YAML into a zero Config: the field values it left (a failed decode
   * may have set some fields before stopping) and whether it reported an error.
   */
  datatype YamlOutcome = YamlOutcome(decoded: ConfigValues, failed: bool)

  /** The path LoadConfig reads and returns. */
  const ConfigPath := "config.yaml"

  /** What LoadConfig's config holds: the defaults unless the file was read and decoded without error. */
  function LoadedValues(read: ReadOutcome, yaml: string -> YamlOutcome): (v: ConfigValues)
    ensures read.ReadFailed? ==> v == DefaultValues
    ensures read.ReadOk? && yaml(read.data).failed ==> v == DefaultValues
    ensures read.ReadOk? && !yaml(read.data).failed ==> v == yaml(read.data).decoded
  {
    match read
    case ReadFailed => DefaultValues
    case ReadOk(data) => if yaml(data).failed then DefaultValues else yaml(data).decoded
  }

  /** The package-level state of the configs package: the global Cfg. */
  class ConfigsPackage {
    var cfg: Config?

    constructor ()
      ensures cfg == null
    {
      cfg := null;
    }

    /**
     * LoadConfig: never returns an error, always returns "config.yaml", and sets Cfg to the
     * freshly built config it returns. `yaml(data)` is what decoding `data` into a zero Config gives.
     */
    method LoadConfig(read: ReadOutcome, yaml: string -> YamlOutcome)
      returns (config: Config, path: string, err: Option<string>)
      modifies this
      ensures fresh(config)
      ensures config.Values() == LoadedValues(read, yaml)
      ensures path == ConfigPath && err.None?
      ensures cfg == config
    {
      config := new Config();
      path := ConfigPath;
      match read {
        case ReadFailed =>
          config.SetDefaults();
        case ReadOk(data) =>
          var outcome := yaml(data);
          config.Assign(outcome.decoded);
          if outcome.failed {
            config.SetDefaults();
          }
      }
      cfg := config;
      err := None;
    }
  }

  /** The "%s:%d" listen address: the port reads back from what follows the IP and its colon. */
  function ListenAddress(ip: string, port: int): (a: string)
    ensures Text.HasPrefix(a, ip + ":")
    ensures Text.IsIntText(a[|ip| + 1..]) && Text.ParseInt(a[|ip| + 1..]) == port
  {
    Text.ParseIntToString(port);
    assert (ip + ":" + Text.IntToString(port))[|ip| + 1..] == Text.IntToString(port);
    assert (ip + ":" + Text.IntToString(port))[..|ip| + 1] == ip + ":";
    ip + ":" + Text.IntToString(port)
  }
}
