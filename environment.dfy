/** What the monitor reads from its surroundings: the parsed `config.json`,
    the truthiness of the JSON values found there and in request bodies, and
    the global slots where the chat bot publishes its messaging API. */
module Environment {
  import opened Wrappers

  /** A JSON value as a handler sees it after parsing; `Undefined` stands for
      a property that is not there, `Structured` for any object or array.
      `printable` tells whether converting it to a string succeeds. The
      conversion throws a `TypeError` for an object with its own `toString`
      key (`{"toString": 1}`): parsed JSON never holds a function, so that
      `toString` cannot be called, and the inherited `valueOf` returns the
      object itself rather than a primitive. It throws as well for an array
      holding such an object, directly or in a nested array. */
  datatype JsonValue = Undefined | Null | Boolean(b: bool) | Number(n: real) | Text(s: string) | Structured(printable: bool)

  /** JavaScript truthiness: `undefined`, `null`, `false`, `0` and `""` are
      falsy, everything else is truthy. */
  predicate Truthy(v: JsonValue)
  {
    match v
    case Undefined => false
    case Null => false
    case Boolean(b) => b
    case Number(n) => n != 0.0
    case Text(s) => s != []
    case Structured(_) => true
  }

  /** Whether `${v}` in a template literal yields a string rather than throwing;
      only objects and arrays can fail. */
  predicate Printable(v: JsonValue)
  {
    !v.Structured? || v.printable
  }

  /** The `uptimeMonitor` object of `config.json`. */
  datatype MonitorSection = MonitorSection(enable: JsonValue)

  /** The parts of `config.json` the monitor reads: the owner ids
      (`adminBot`, None when absent or null) and the `uptimeMonitor` section. */
  datatype Config = Config(adminBot: Option<seq<string>>, uptimeMonitor: Option<MonitorSection>)

  /** The outcome of `require('./config.json')`: a parsed file, or the error
      the call throws. */
  datatype ConfigFile = Unreadable(message: string) | Loaded(config: Config)

  /** The owner ids of a readable configuration; none otherwise. */
  function Owners(file: ConfigFile): seq<string>
  {
    if file.Loaded? && file.config.adminBot.Some? then file.config.adminBot.value else []
  }

  /** An object found in one of the global API slots; `canSend` tells whether
      its `sendMessage` property is a function. */
  datatype Api = Api(name: string, canSend: bool)

  /** The global slots where the chat bot may publish its API:
      `global.GoatBot.api`, `global.utils.api` and `global.api` (None when the
      slot, or the object holding it, is missing). */
  datatype Globals = Globals(goatBotApi: Option<Api>, utilsApi: Option<Api>, globalApi: Option<Api>)
}
