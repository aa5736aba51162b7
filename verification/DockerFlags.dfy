/**
  The options that Docker's command line knows for exec, run and create (version 29.8.0),
  by what they are for. A short option is the shorthand of a long one.
 */
module DockerFlags {
  import opened Outcomes

  /** `Create` is run and create, which know the same options. */
  datatype Command = Exec | Create
  datatype Arity = Boolean | Value

  const TARGET: set<string> := {"context", "host", "config"}

  const GLOBAL_SWITCH: set<string> := {"debug", "help", "version"}

  const EXEC_SWITCH: set<string> := {"detach", "interactive", "privileged", "tty"}

  const EXEC_VALUE: set<string> := {"detach-keys", "env", "env-file", "user", "workdir"}

  const CREATE_SWITCH: set<string> := {
    "disable-content-trust", "init", "no-healthcheck", "oom-kill-disable", "publish-all", "quiet", "read-only",
    "rm", "sig-proxy", "use-api-socket"
  }

  const CONTAINER: set<string> := {
    "annotation", "attach", "cidfile", "domainname", "entrypoint", "group-add", "hostname", "label", "label-file",
    "name", "platform", "pull", "restart", "runtime", "stop-signal", "stop-timeout"
  }

  const LIMITS: set<string> := {
    "blkio-weight", "blkio-weight-device", "cgroup-parent", "cpu-count", "cpu-percent", "cpu-period", "cpu-quota",
    "cpu-rt-period", "cpu-rt-runtime", "cpu-shares", "cpus", "cpuset-cpus", "cpuset-mems", "io-maxbandwidth",
    "io-maxiops", "memory", "memory-reservation", "memory-swap", "memory-swappiness", "oom-score-adj", "pids-limit",
    "ulimit"
  }

  const DEVICES: set<string> := {
    "device", "device-cgroup-rule", "device-read-bps", "device-read-iops", "device-write-bps", "device-write-iops",
    "gpus"
  }

  const ISOLATION: set<string> := {
    "cap-add", "cap-drop", "cgroupns", "ipc", "isolation", "pid", "security-opt", "sysctl", "userns", "uts"
  }

  const NETWORK: set<string> := {
    "add-host", "dns", "dns-option", "dns-search", "expose", "ip", "ip6", "link", "link-local-ip", "mac-address",
    "network", "network-alias", "publish"
  }

  const STORAGE: set<string> := {
    "mount", "shm-size", "storage-opt", "tmpfs", "volume", "volume-driver", "volumes-from"
  }

  const HEALTH_AND_LOGS: set<string> := {
    "health-cmd", "health-interval", "health-retries", "health-start-interval", "health-start-period",
    "health-timeout", "log-driver", "log-opt"
  }

  predicate IsCreateValue(name: string) {
    || name in CONTAINER || name in LIMITS || name in DEVICES || name in ISOLATION || name in NETWORK
    || name in STORAGE || name in HEALTH_AND_LOGS
  }

  /** What Docker does with a long option. */
  function LongFlag(name: string, command: Command): Option<Arity> {
    if name in TARGET || name == "log-level" || name in EXEC_VALUE then Some(Value)
    else if name in GLOBAL_SWITCH || name in EXEC_SWITCH then Some(Boolean)
    else if command == Exec then None
    else if name in CREATE_SWITCH then Some(Boolean)
    else if IsCreateValue(name) then Some(Value)
    else None
  }

  /** The long option that a letter stands for. */
  function Shorthand(c: char, command: Command): Option<string> {
    match c
    case 'd' => Some("detach")
    case 'i' => Some("interactive")
    case 't' => Some("tty")
    case 'e' => Some("env")
    case 'u' => Some("user")
    case 'w' => Some("workdir")
    case 'D' => Some("debug")
    case 'H' => Some("host")
    case 'c' => Some(if command == Exec then "context" else "cpu-shares")
    case 'h' => Some(if command == Exec then "help" else "hostname")
    case 'l' => Some(if command == Exec then "log-level" else "label")
    case 'v' => Some(if command == Exec then "version" else "volume")
    case 'a' => if command == Exec then None else Some("attach")
    case 'm' => if command == Exec then None else Some("memory")
    case 'p' => if command == Exec then None else Some("publish")
    case 'P' => if command == Exec then None else Some("publish-all")
    case 'q' => if command == Exec then None else Some("quiet")
    case _ => None
  }

  function ShortFlag(c: char, command: Command): Option<Arity> {
    var name := Shorthand(c, command);
    if name.None? then None else LongFlag(name.value, command)
  }
}
