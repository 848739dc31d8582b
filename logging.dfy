/**
 * The sink table behind `log` and the older `logger`: constructing the
 * logging class adds a file sink, and the class is meant to be constructed
 * once, through a singleton registry. Only what `configure` and
 * `init_logger` do to the sinks, the registry and the log file is modelled.
 */
module Logging {
  import opened Exceptions
  import opened Singletons

  /** The level names `configure` accepts. */
  datatype Level = DEBUG | INFO | WARNING | ERROR | CRITICAL

  /** The arguments of `configure(...)` and `init_logger(...)`. */
  datatype Config = Config(path: string, format: string, rotation: string, level: Level,
                           serialize: bool, hasToDeleteOld: bool)

  /** A file sink as the constructor adds it, always with zip compression. */
  datatype Sink = Sink(path: string, format: string, level: Level, compression: string,
                       rotation: string, serialize: bool)

  function SinkOf(c: Config): Sink {
    Sink(c.path, c.format, c.level, "zip", c.rotation, c.serialize)
  }

  /** The sinks added so far, the files on disk, and a registry's entries. */
  datatype LogState = LogState(sinks: seq<Sink>, files: set<string>, instances: map<ClassId, Obj>)

  /** `if has_to_delete_old and os.path.isfile(path): os.remove(path)`. */
  function DeleteOld(files: set<string>, c: Config): (r: set<string>)
    ensures r <= files
    ensures r == files - {c.path} || r == files
    ensures c.path in r <==> c.path in files && !c.hasToDeleteOld
  {
    if c.hasToDeleteOld && c.path in files then files - {c.path} else files
  }

  const LogClass: ClassId := "warepy.log.log"
  const LoggerClass: ClassId := "warepy.core.logger.logger"

  /**
   * Deleting the old file, then `cls(path, ...)` through the registry: only
   * the call that constructs the class runs `create_logger` and adds a sink.
   */
  function ConfigureSpec(s: LogState, cls: ClassId, c: Config, identity: nat): LogState {
    var called := CallSpec(s.instances, cls, Ok(identity));
    LogState(if cls in s.instances then s.sinks else s.sinks + [SinkOf(c)], DeleteOld(s.files, c), called.instances)
  }

  /** The first configuration adds its sink; once the class is registered, nothing is added. */
  lemma ConfigureOnce(s: LogState, cls: ClassId, c: Config, identity: nat)
    ensures var t := ConfigureSpec(s, cls, c, identity);
            && cls in t.instances
            && (cls in s.instances ==> t.sinks == s.sinks && t.instances == s.instances)
            && (cls !in s.instances ==> t.sinks == s.sinks + [SinkOf(c)] && t.instances == s.instances[cls := Obj(cls, identity)])
            && t.files == DeleteOld(s.files, c)
  {
  }

  /** A run of configurations, each with the identity its construction would give. */
  function ConfigureAll(s: LogState, cls: ClassId, cs: seq<Config>, ids: seq<nat>): LogState
    requires |cs| == |ids|
    decreases |cs|
  {
    if |cs| == 0 then s else ConfigureAll(ConfigureSpec(s, cls, cs[0], ids[0]), cls, cs[1..], ids[1..])
  }

  /**
   * However often the class is configured, exactly one sink is added, the
   * one of the first configuration, and the registered instance stays.
   */
  lemma {:induction false} SinkAddedOnce(s: LogState, cls: ClassId, cs: seq<Config>, ids: seq<nat>)
    requires |cs| == |ids| && |cs| > 0
    ensures var t := ConfigureAll(s, cls, cs, ids);
            && cls in t.instances
            && t.sinks == (if cls in s.instances then s.sinks else s.sinks + [SinkOf(cs[0])])
            && t.instances[cls] == (if cls in s.instances then s.instances[cls] else Obj(cls, ids[0]))
    decreases |cs|
  {
    var next := ConfigureSpec(s, cls, cs[0], ids[0]);
    if |cs| > 1 {
      SinkAddedOnce(next, cls, cs[1..], ids[1..]);
    }
  }

  /** The error of `cls(path, ...)` when `cls` subclasses the metaclass and so is itself a metaclass. */
  const TypeNewError := Error("TypeError", "type.__new__() takes exactly 3 arguments (1 given)")

  /**
   * `init_logger` as written: the old file is deleted, then the call of the
   * class fails in `type.__new__` before any sink is added or anything is
   * registered.
   */
  function InitLoggerAsWrittenSpec(s: LogState, c: Config): (Outcome<()>, LogState) {
    (Raised(TypeNewError), LogState(s.sinks, DeleteOld(s.files, c), s.instances))
  }

  /** As written, no run of `init_logger` calls adds a sink. */
  lemma {:induction false} InitLoggerNeverAddsSink(s: LogState, cs: seq<Config>)
    ensures var t := InitLoggerAllAsWritten(s, cs);
            t.sinks == s.sinks && t.instances == s.instances && t.files <= s.files
    decreases |cs|
  {
    if |cs| > 0 {
      InitLoggerNeverAddsSink(InitLoggerAsWrittenSpec(s, cs[0]).1, cs[1..]);
    }
  }

  function InitLoggerAllAsWritten(s: LogState, cs: seq<Config>): LogState
    decreases |cs|
  {
    if |cs| == 0 then s else InitLoggerAllAsWritten(InitLoggerAsWrittenSpec(s, cs[0]).1, cs[1..])
  }

  /**
   * The sink table of the logging library, the files on disk, and the two
   * registries: `SingletonMeta.instances` behind `log`, and the older
   * `Singleton.instances` that `logger` was meant to go through.
   */
  class LogSystem {
    var sinks: seq<Sink>
    var files: set<string>
    const logRegistry: Registry
    const coreRegistry: Registry

    constructor (files: set<string>, logRegistry: Registry, coreRegistry: Registry)
      ensures this.files == files && sinks == []
      ensures this.logRegistry == logRegistry && this.coreRegistry == coreRegistry
    {
      this.files := files;
      sinks := [];
      this.logRegistry := logRegistry;
      this.coreRegistry := coreRegistry;
    }

    function State(registry: Registry): LogState
      reads this, registry
    {
      LogState(sinks, files, registry.instances)
    }

    /** Deleting the old file when asked and present. */
    method DeleteOldFile(c: Config)
      modifies this
      ensures files == DeleteOld(old(files), c) && sinks == old(sinks)
    {
      if c.hasToDeleteOld && c.path in files {
        files := files - {c.path};
      }
    }

    /** `cls(path, ...)` through `registry`; its constructor runs `create_logger`. */
    method Construct(registry: Registry, cls: ClassId, c: Config, identity: nat)
      requires registry.Valid()
      modifies this, registry
      ensures registry.Valid()
      ensures State(registry) == LogState(if cls in old(registry.instances) then old(sinks) else old(sinks) + [SinkOf(c)],
                                          old(files), CallSpec(old(registry.instances), cls, Ok(identity)).instances)
    {
      var r, constructed := registry.Call(cls, Ok(identity));
      if constructed {
        sinks := sinks + [SinkOf(c)];
      }
    }

    /** `log.configure(...)`. */
    method Configure(c: Config, identity: nat)
      requires logRegistry.Valid()
      modifies this, logRegistry
      ensures logRegistry.Valid()
      ensures State(logRegistry) == ConfigureSpec(old(State(logRegistry)), LogClass, c, identity)
    {
      DeleteOldFile(c);
      Construct(logRegistry, LogClass, c, identity);
    }

    /** `logger.init_logger(...)` as written: the class call raises and adds nothing. */
    method InitLoggerAsWritten(c: Config) returns (r: Outcome<()>)
      modifies this
      ensures (r, State(coreRegistry)) == InitLoggerAsWrittenSpec(old(State(coreRegistry)), c)
    {
      DeleteOldFile(c);
      r := Raised(TypeNewError);
    }

    /** `logger.init_logger(...)` with `logger` using the metaclass, as its documentation intends. */
    method InitLogger(c: Config, identity: nat)
      requires coreRegistry.Valid()
      modifies this, coreRegistry
      ensures coreRegistry.Valid()
      ensures State(coreRegistry) == ConfigureSpec(old(State(coreRegistry)), LoggerClass, c, identity)
    {
      DeleteOldFile(c);
      Construct(coreRegistry, LoggerClass, c, identity);
    }
  }
}
