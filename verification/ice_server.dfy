// The decision logic of the Ice application wrapper `Server`: where the
// configuration comes from, namespaced parameter lookup, how many times a
// service is waited for, and the order in which adapters are created,
// services bound and adapters activated. Ice calls are outcomes given to
// the model; sleeping, logging and printing are not modelled.

module IceServer {
  import opened Common

  /** The constructor's state that the logic depends on. */
  datatype Server = Server(serviceKey: string, retries: int, monitoring: bool, configurable: bool)

  /** `Server(comm, fcmkey='', retries=-1)`: monitoring off, configurable on. */
  function NewServer(fcmkey: string, retries: int): (s: Server)
    ensures s.serviceKey == fcmkey && s.retries == retries && !s.monitoring && s.configurable
  {
    Server(fcmkey, retries, false, true)
  }

  // --------------------------------------------------------- get_config

  const ConfigKey := "--config="

  /** Where `get_config` takes the parameters from. */
  datatype ConfigSource =
    | NotConfigurable
    | FromFile(path: string)
    | FromFcm
    | UnpackError(arg: string)   // `k, v = arg.split("=")` with a second '='

  /** The index of the first argument starting with `key`, from `i` on. */
  function FirstWithPrefix(argv: seq<string>, key: string, i: nat): (r: Option<nat>)
    requires i <= |argv|
    ensures r.None? <==> forall j :: i <= j < |argv| ==> !StartsWith(argv[j], key)
    ensures r.Some? ==> i <= r.value < |argv| && StartsWith(argv[r.value], key)
                        && forall j :: i <= j < r.value ==> !StartsWith(argv[j], key)
    decreases |argv| - i
  {
    if i == |argv| then None
    else if StartsWith(argv[i], key) then Some(i)
    else FirstWithPrefix(argv, key, i + 1)
  }

  /**
   * `get_config`: nothing when the server is not configurable; otherwise
   * the first argument (the program name included) that starts with
   * `--config=` names the file and the FCM is not asked; only without such
   * an argument is the FCM asked. The split into exactly two parts fails
   * when the value holds another '='.
   */
  function GetConfig(s: Server, argv: seq<string>): (r: ConfigSource)
    ensures !s.configurable ==> r == NotConfigurable
    ensures s.configurable && (forall j :: 0 <= j < |argv| ==> !StartsWith(argv[j], ConfigKey)) ==> r == FromFcm
    ensures r.FromFile? || r.UnpackError? ==>
              exists i :: 0 <= i < |argv| && StartsWith(argv[i], ConfigKey)
                          && (forall j :: 0 <= j < i ==> !StartsWith(argv[j], ConfigKey))
                          && (r.FromFile? ==> argv[i] == ConfigKey + r.path && '=' !in r.path)
                          && (r.UnpackError? ==> r.arg == argv[i] && '=' in argv[i][|ConfigKey|..])
    ensures s.configurable && (exists j :: 0 <= j < |argv| && StartsWith(argv[j], ConfigKey)) ==> r.FromFile? || r.UnpackError?
    ensures s.configurable ==>
              forall i :: 0 <= i < |argv| && StartsWith(argv[i], ConfigKey)
                          && (forall j :: 0 <= j < i ==> !StartsWith(argv[j], ConfigKey)) ==>
                            (r.UnpackError? <==> '=' in argv[i][|ConfigKey|..])
                            && (r.UnpackError? ==> r.arg == argv[i])
                            && (r.FromFile? ==> r.path == argv[i][|ConfigKey|..])
  {
    if !s.configurable then NotConfigurable
    else
      match FirstWithPrefix(argv, ConfigKey, 0)
      case None => FromFcm
      case Some(i) =>
        var value := argv[i][|ConfigKey|..];
        assert argv[i] == ConfigKey + value;
        if '=' in value then UnpackError(argv[i]) else FromFile(value)
  }

  /** A `--config=<path>` argument after arguments that are not one names the file, whatever follows it; a path holding '=' fails the unpacking. */
  lemma ConfigArgumentWins(s: Server, before: seq<string>, path: string, after: seq<string>)
    requires s.configurable
    requires forall j :: 0 <= j < |before| ==> !StartsWith(before[j], ConfigKey)
    ensures var argv := before + [ConfigKey + path] + after;
            GetConfig(s, argv) == if '=' in path then UnpackError(ConfigKey + path) else FromFile(path)
  {
    var argv := before + [ConfigKey + path] + after;
    var i := |before|;
    assert argv[i] == ConfigKey + path && argv[i][|ConfigKey|..] == path;
    assert StartsWith(argv[i], ConfigKey);
    assert forall j :: 0 <= j < i ==> argv[j] == before[j];
  }

  // ------------------------------------------------------ get_parameter

  const NoParameters := "'NoneType' object has no attribute 'get'"

  /** `".".join((service_key, key))`. */
  function Namespaced(serviceKey: string, key: string): string
  {
    serviceKey + "." + key
  }

  /**
   * `get_parameter(key, default)`: the value under `<service_key>.<key>`,
   * or the default when that key is absent. Before any configuration the
   * parameters are `None` and the lookup fails.
   */
  function GetParameter(s: Server, parameters: Option<map<string, string>>, key: string, default: Option<string>): (r: Result<Option<string>>)
    ensures parameters.None? <==> r.Err?
    ensures parameters.Some? && Namespaced(s.serviceKey, key) in parameters.value ==>
              r == Ok(Some(parameters.value[Namespaced(s.serviceKey, key)]))
    ensures parameters.Some? && Namespaced(s.serviceKey, key) !in parameters.value ==> r == Ok(default)
  {
    match parameters
    case None => Err(NoParameters)
    case Some(p) =>
      var full := Namespaced(s.serviceKey, key);
      Ok(if full in p then Some(p[full]) else default)
  }

  /** Keys of another namespace never answer a lookup, whatever their text. */
  lemma OtherNamespaceIgnored(s: Server, p: map<string, string>, k: string, v: string, key: string, default: Option<string>)
    requires k != Namespaced(s.serviceKey, key)
    ensures GetParameter(s, Some(p[k := v]), key, default) == GetParameter(s, Some(p - {k}), key, default)
  {
  }

  // --------------------------------------------------- wait_for_service

  /** What one call of the callback does. */
  datatype Attempt<T> =
    | Success(value: T)
    | Retryable        // one of the five connectivity exceptions
    | Fatal(error: string)

  /** How `wait_for_service` ends; `Pending` means the given attempts ran out while still waiting. */
  datatype Waited<T> =
    | Returned(value: T, attempts: nat)
    | TimedOut(error: string, attempts: nat)
    | Raised(error: string, attempts: nat)
    | Pending(attempts: nat)

  function TimeoutMessage(servicename: string): string
  {
    "Couldn't connect to " + servicename + ": "
  }

  predicate AllRetryable<T>(outcomes: seq<Attempt<T>>, n: nat)
  {
    n <= |outcomes| && forall i :: 0 <= i < n ==> outcomes[i].Retryable?
  }

  /**
   * The retry loop from attempt number `count` on: a success returns the
   * callback's value, any other exception propagates at once, and a
   * connectivity exception gives up when a non-negative retry budget equals
   * the number of failures so far.
   */
  function WaitFrom<T>(servicename: string, outcomes: seq<Attempt<T>>, retries: int, count: nat): (r: Waited<T>)
    ensures r.attempts >= count
    ensures !r.Pending? ==> r.attempts > count && AllRetryable(outcomes, r.attempts - count - 1)
    ensures r.Pending? ==> AllRetryable(outcomes, |outcomes|)
    ensures r.Returned? ==> r.attempts <= count + |outcomes| && outcomes[r.attempts - count - 1] == Success(r.value)
    ensures r.Raised? ==> r.attempts <= count + |outcomes| && outcomes[r.attempts - count - 1] == Fatal(r.error)
    ensures r.TimedOut? ==> retries >= count && r.attempts == retries + 1 && AllRetryable(outcomes, r.attempts - count)
                            && r.error == TimeoutMessage(servicename)
    ensures r.Pending? ==> r.attempts == count + |outcomes| && (retries < count || retries >= count + |outcomes|)
    decreases |outcomes|
  {
    if |outcomes| == 0 then Pending(count)
    else
      match outcomes[0]
      case Success(v) => Returned(v, count + 1)
      case Fatal(e) => Raised(e, count + 1)
      case Retryable =>
        if retries > -1 && retries == count then TimedOut(TimeoutMessage(servicename), count + 1)
        else
          var r := WaitFrom(servicename, outcomes[1..], retries, count + 1);
          assert forall i :: 1 <= i < |outcomes| ==> outcomes[1..][i - 1] == outcomes[i];
          r
  }

  /** `wait_for_service`, from the first attempt. */
  function Wait<T>(servicename: string, outcomes: seq<Attempt<T>>, retries: int): (r: Waited<T>)
    ensures r.TimedOut? ==> retries >= 0 && r.attempts == retries + 1 && AllRetryable(outcomes, r.attempts)
    ensures r.Returned? ==> 0 < r.attempts <= |outcomes| && outcomes[r.attempts - 1] == Success(r.value)
                            && AllRetryable(outcomes, r.attempts - 1)
  {
    WaitFrom(servicename, outcomes, retries, 0)
  }

  /** With a budget of N >= 0, N + 1 connectivity failures in a row end the wait with a timeout at exactly that attempt. */
  lemma {:induction false} TimeoutAfterBudget<T>(servicename: string, outcomes: seq<Attempt<T>>, retries: nat, count: nat)
    requires count <= retries && AllRetryable(outcomes, retries + 1 - count)
    ensures WaitFrom(servicename, outcomes, retries, count) == TimedOut(TimeoutMessage(servicename), retries + 1)
    decreases |outcomes|
  {
    if count < retries {
      assert AllRetryable(outcomes[1..], retries + 1 - (count + 1)) by {
        forall i | 0 <= i < retries - count ensures outcomes[1..][i].Retryable? {
          assert outcomes[1..][i] == outcomes[i + 1];
        }
      }
      TimeoutAfterBudget(servicename, outcomes[1..], retries, count + 1);
    }
  }

  /** With the default budget of -1 (or any negative one) the wait never times out. */
  lemma {:induction false} UnboundedNeverTimesOut<T>(servicename: string, outcomes: seq<Attempt<T>>, retries: int, count: nat)
    requires retries < 0
    ensures !WaitFrom(servicename, outcomes, retries, count).TimedOut?
    decreases |outcomes|
  {
    if |outcomes| > 0 && outcomes[0].Retryable? {
      UnboundedNeverTimesOut(servicename, outcomes[1..], retries, count + 1);
    }
  }

  /** An exception outside the five connectivity types propagates on the first attempt. */
  lemma FatalFirst<T>(servicename: string, outcomes: seq<Attempt<T>>, retries: int, e: string)
    requires |outcomes| > 0 && outcomes[0] == Fatal(e)
    ensures Wait(servicename, outcomes, retries) == Raised(e, 1)
  {
  }

  // -------------------------------------------------- setup_services

  /** A service registered with `add_service`. */
  datatype Service = Service(name: string, value: string)

  /** `add_service`: appended in call order. */
  function AddService(services: seq<Service>, name: string, value: string): (r: seq<Service>)
    ensures |r| == |services| + 1 && r[..|services|] == services && r[|services|] == Service(name, value)
  {
    services + [Service(name, value)]
  }

  /** What `setup_services` does, in order. */
  datatype Event =
    | CreateAdapter(name: string)
    | ReadConfig(source: ConfigSource)
    | AddMonitoringProvider(identity: string)
    | ActivateMonitoring
    | InitialiseServices
    | Bind(identity: string)
    | ActivateMain

  const MonitoringIdentity := "MonitoringService"

  function Binds(services: seq<Service>): (r: seq<Event>)
    ensures |r| == |services| && forall k :: 0 <= k < |services| ==> r[k] == Bind(services[k].name)
  {
    if |services| == 0 then [] else Binds(services[..|services| - 1]) + [Bind(services[|services| - 1].name)]
  }

  /** The events up to and including the subclass set-up. */
  function Prologue(s: Server, className: string, config: ConfigSource): (r: seq<Event>)
    requires !config.UnpackError?
    ensures |r| == (if s.monitoring then 6 else 3)
    ensures r[0] == CreateAdapter(className + "Adapter") && r[1] == ReadConfig(config)
    ensures s.monitoring ==> r[3] == AddMonitoringProvider(MonitoringIdentity) && r[4] == ActivateMonitoring
    ensures r[|r| - 1] == InitialiseServices
    ensures ActivateMain !in r
  {
    var head := [CreateAdapter(className + "Adapter"), ReadConfig(config)];
    var monitoring := if s.monitoring then [CreateAdapter(className + "MonitoringAdapter"), AddMonitoringProvider(MonitoringIdentity), ActivateMonitoring] else [];
    head + monitoring + [InitialiseServices]
  }

  /** How one step of the set-up ends: it returns, it raises, or it is still waiting when the given attempts run out. */
  datatype Outcome = Done | Fails(error: string) | Hangs

  /** A `wait_for_service` as a step of the set-up. */
  function OutcomeOf<T>(w: Waited<T>): Outcome
  {
    match w
    case Returned(_, _) => Done
    case TimedOut(e, _) => Fails(e)
    case Raised(e, _) => Fails(e)
    case Pending(_) => Hangs
  }

  /** An `_adapter.add` that raises: the position of its service among those added, and the error. */
  datatype AddFailure = AddFailure(index: nat, error: string)

  /**
   * What the calls `setup_services` makes answer: reading the parameters
   * (opening and parsing the file, or finding and asking the FCM), the
   * `wait_for_service` that activates the monitoring adapter,
   * `initialize_services` and the services it added, the first
   * `_adapter.add` that raises if any, and the `wait_for_service` that
   * activates the main adapter.
   */
  datatype Calls = Calls(load: Outcome, monitor: Waited<()>, init: Outcome, added: seq<Service>,
                         addFailure: Option<AddFailure>, activate: Waited<()>)

  /** The calls a set-up made, in order, and how it ended. */
  datatype Run = Run(events: seq<Event>, ending: Outcome)

  /** Python 2's error for `k, v = arg.split("=")` with more than two parts. */
  const UnpackMessage := "too many values to unpack"

  /** How `get_config` ends: nothing is read when the server is not configurable, and a failed split raises before any read. */
  function ConfigOutcome(config: ConfigSource, load: Outcome): Outcome
  {
    match config
    case NotConfigurable => Done
    case UnpackError(_) => Fails(UnpackMessage)
    case FromFile(_) => load
    case FromFcm => load
  }

  /** Every `_adapter.add` returns. */
  predicate AddsSucceed(c: Calls)
  {
    c.addFailure.None? || c.addFailure.value.index >= |c.added|
  }

  /** The number of `_adapter.add` calls made: all of them, or up to and including the one that raises. */
  function AddsMade(c: Calls): nat
  {
    if AddsSucceed(c) then |c.added| else c.addFailure.value.index + 1
  }

  /**
   * `setup_services` for a class name, the configuration source and what
   * the calls it makes answer: the main adapter, the configuration, the
   * monitoring adapter when enabled (activated through the registry), the
   * subclass set-up, one binding per added service in order, and the
   * activation of the main adapter. The first step that raises, or that is
   * still waiting, ends the run there.
   */
  function SetupServices(s: Server, className: string, config: ConfigSource, c: Calls): (r: Run)
    ensures |r.events| >= 2 && r.events[0] == CreateAdapter(className + "Adapter") && r.events[1] == ReadConfig(config)
    ensures config.UnpackError? ==> |r.events| == 2 && r.ending == Fails(UnpackMessage)
    ensures (config.FromFile? || config.FromFcm?) && !c.load.Done? ==> |r.events| == 2 && r.ending == c.load
    ensures InitialiseServices in r.events <==>
              ConfigOutcome(config, c.load).Done? && (s.monitoring ==> c.monitor.Returned?)
    ensures s.monitoring && ConfigOutcome(config, c.load).Done? && !c.monitor.Returned? ==>
              r.events[|r.events| - 1] == ActivateMonitoring && r.ending == OutcomeOf(c.monitor)
    ensures InitialiseServices in r.events && !c.init.Done? ==>
              r.events[|r.events| - 1] == InitialiseServices && r.ending == c.init
    ensures ActivateMain in r.events <==> InitialiseServices in r.events && c.init.Done? && AddsSucceed(c)
    ensures InitialiseServices in r.events && c.init.Done? && !AddsSucceed(c) ==>
              r.events[|r.events| - 1] == Bind(c.added[c.addFailure.value.index].name)
              && r.ending == Fails(c.addFailure.value.error)
    ensures ActivateMain in r.events ==> r.ending == OutcomeOf(c.activate)
    ensures r.ending.Done? <==> ActivateMain in r.events && c.activate.Returned?
  {
    var head := [CreateAdapter(className + "Adapter"), ReadConfig(config)];
    var configured := ConfigOutcome(config, c.load);
    if !configured.Done? then Run(head, configured)
    else
      var p := Prologue(s, className, config);
      var monitored := if s.monitoring then OutcomeOf(c.monitor) else Done;
      if !monitored.Done? then
        assert InitialiseServices !in p[..|p| - 1];
        Run(p[..|p| - 1], monitored)
      else if !c.init.Done? then Run(p, c.init)
      else AfterSubclass(p, c)
  }

  /** A run that reaches the main adapter's activation is the prologue, the bindings and that activation. */
  lemma ActivationRun(s: Server, className: string, config: ConfigSource, c: Calls)
    requires ActivateMain in SetupServices(s, className, config, c).events
    ensures !config.UnpackError?
    ensures SetupServices(s, className, config, c).events == Prologue(s, className, config) + Binds(c.added) + [ActivateMain]
  {
  }

  /** The bindings and the main adapter's activation, after the run `p` up to a subclass set-up that returned. */
  function AfterSubclass(p: seq<Event>, c: Calls): (r: Run)
    requires |p| >= 2 && InitialiseServices in p && ActivateMain !in p
    ensures |r.events| > |p| && r.events[0] == p[0] && r.events[1] == p[1]
    ensures InitialiseServices in r.events
    ensures ActivateMain in r.events <==> AddsSucceed(c)
    ensures !AddsSucceed(c) ==> r.events[|r.events| - 1] == Bind(c.added[c.addFailure.value.index].name)
                                && r.ending == Fails(c.addFailure.value.error)
    ensures AddsSucceed(c) ==> r.events == p + Binds(c.added) + [ActivateMain] && r.ending == OutcomeOf(c.activate)
  {
    var binds := Binds(c.added[..AddsMade(c)]);
    assert ActivateMain !in binds;
    if !AddsSucceed(c) then Run(p + binds, Fails(c.addFailure.value.error))
    else
      assert c.added[..AddsMade(c)] == c.added;
      Run(p + binds + [ActivateMain], OutcomeOf(c.activate))
  }

  /**
   * In a run that reaches the main adapter's activation: the main adapter
   * exists before the configuration is read; the monitoring adapter is
   * activated before the subclass set-up; every service is bound after the
   * set-up, in the order added, and the main adapter is activated last and
   * only then.
   */
  lemma SetupOrder(s: Server, className: string, config: ConfigSource, c: Calls)
    requires ActivateMain in SetupServices(s, className, config, c).events
    ensures var r := SetupServices(s, className, config, c).events;
            var m := if s.monitoring then 3 else 0;
            r[0] == CreateAdapter(className + "Adapter") && r[1] == ReadConfig(config)
            && (s.monitoring ==> r[3] == AddMonitoringProvider(MonitoringIdentity) && r[4] == ActivateMonitoring)
            && r[2 + m] == InitialiseServices
            && |r| == 2 + m + 1 + |c.added| + 1
            && (forall k :: 0 <= k < |c.added| ==> r[2 + m + 1 + k] == Bind(c.added[k].name))
            && r[|r| - 1] == ActivateMain
            && ActivateMain !in r[..|r| - 1]
  {
    ActivationRun(s, className, config, c);
    CompleteRunOrder(s, className, config, c.added);
  }

  /** The order of the events of a run that reaches the main adapter's activation. */
  lemma CompleteRunOrder(s: Server, className: string, config: ConfigSource, added: seq<Service>)
    requires !config.UnpackError?
    ensures var r := Prologue(s, className, config) + Binds(added) + [ActivateMain];
            var m := if s.monitoring then 3 else 0;
            r[0] == CreateAdapter(className + "Adapter") && r[1] == ReadConfig(config)
            && (s.monitoring ==> r[3] == AddMonitoringProvider(MonitoringIdentity) && r[4] == ActivateMonitoring)
            && r[2 + m] == InitialiseServices
            && |r| == 2 + m + 1 + |added| + 1
            && (forall k :: 0 <= k < |added| ==> r[2 + m + 1 + k] == Bind(added[k].name))
            && r[|r| - 1] == ActivateMain
            && ActivateMain !in r[..|r| - 1]
  {
    var p, b := Prologue(s, className, config), Binds(added);
    assert ActivateMain !in b;
    ActivatedLast(p, b);
  }

  /** Events before a final activation keep their places, and the activation occurs only at the end. */
  lemma ActivatedLast(p: seq<Event>, b: seq<Event>)
    requires ActivateMain !in p && ActivateMain !in b
    ensures var r := p + b + [ActivateMain];
            |r| == |p| + |b| + 1
            && (forall k :: 0 <= k < |p| ==> r[k] == p[k])
            && (forall k :: 0 <= k < |b| ==> r[|p| + k] == b[k])
            && r[|r| - 1] == ActivateMain && ActivateMain !in r[..|r| - 1]
  {
    var r := p + b + [ActivateMain];
    assert r[..|r| - 1] == p + b;
  }
}
