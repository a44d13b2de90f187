// `IngestManager`, the central-processor ingest service: it registers the
// observation service, then gets or creates the "sbstatechange" IceStorm
// topic and subscribes a state-change monitor to it. The topic manager is a
// set of topic names; calls to it are made one after another.

module IngestServer {
  import opened Common
  import opened IceServer

  const FcmKey := "cp.ingest"
  const ObsServiceName := "CentralProcessorService"
  const TopicName := "sbstatechange"
  const AdapterFailed := "ICE adapter initialisation failed"

  /** `IngestManager(comm)`: the `Server` with key 'cp.ingest', the default retry budget and monitoring on. */
  function IngestManager(): (s: Server)
    ensures s.serviceKey == FcmKey && s.monitoring && s.configurable && s.retries == -1
  {
    NewServer(FcmKey, -1).(monitoring := true)
  }

  /** The topic manager waits for IceStorm with the default budget, so it never times out. */
  lemma ManagerWaitNeverTimesOut<T>(outcomes: seq<Attempt<T>>)
    ensures !Wait("IceStorm", outcomes, IngestManager().retries).TimedOut?
  {
    UnboundedNeverTimesOut("IceStorm", outcomes, IngestManager().retries, 0);
  }

  // ------------------------------------------------------ get or create

  datatype TopicCall = Retrieve(name: string) | Create(name: string)

  /** The topics that exist afterwards and the calls made, in order. */
  datatype TopicOutcome = TopicOutcome(topics: set<string>, calls: seq<TopicCall>)

  /**
   * The get-or-create sequence: retrieve; on NoSuchTopic create; on
   * TopicExists from the create, retrieve again. `createdMeanwhile` says
   * whether another client created the topic between the first retrieve and
   * the create, which is what makes the create report TopicExists.
   */
  function GetOrCreate(topics: set<string>, name: string, createdMeanwhile: bool): (r: TopicOutcome)
    ensures name in topics ==> r.calls == [Retrieve(name)] && r.topics == topics
    ensures name !in topics ==> |r.calls| >= 2 && r.calls[0] == Retrieve(name) && r.calls[1] == Create(name)
    ensures name !in topics ==> (|r.calls| == 3 <==> createdMeanwhile)
  {
    if name in topics then TopicOutcome(topics, [Retrieve(name)])
    else
      var seen := if createdMeanwhile then topics + {name} else topics;
      if name in seen then TopicOutcome(seen, [Retrieve(name), Create(name), Retrieve(name)])
      else TopicOutcome(seen + {name}, [Retrieve(name), Create(name)])
  }

  /** Afterwards the topic exists and nothing else was added; there is at most one create and at most two retrieves, and none when the topic already existed. */
  lemma GetOrCreateBounds(topics: set<string>, name: string, createdMeanwhile: bool)
    ensures var r := GetOrCreate(topics, name, createdMeanwhile);
            name in r.topics && r.topics == topics + {name}
            && multiset(r.calls)[Create(name)] <= 1
            && multiset(r.calls)[Retrieve(name)] <= 2
            && (name in topics ==> multiset(r.calls)[Create(name)] == 0)
            && (forall k :: 0 <= k < |r.calls| ==> r.calls[k].name == name)
  {
    var r := GetOrCreate(topics, name, createdMeanwhile);
    assert Retrieve(name) != Create(name);
    if name in topics {
      assert r.calls == [Retrieve(name)];
    } else if |r.calls| == 2 {
      assert r.calls == [Retrieve(name)] + [Create(name)];
    } else {
      assert r.calls == [Retrieve(name)] + [Create(name)] + [Retrieve(name)];
    }
  }

  // -------------------------------------------------------- subscription

  /** The subscription made: the QoS filter passed and the topic. */
  datatype Subscription = Subscription(filter: map<string, string>, topic: string)

  /** The four adapter and subscription calls, each either succeeding or raising. */
  datatype AdapterCalls = AdapterCalls(createAdapter: bool, addSubscriber: bool, activate: bool, subscribe: bool)

  /**
   * The subscription block: every call must succeed; whatever any of them
   * raises is replaced by a RuntimeError with one fixed message.
   */
  function Subscribe(calls: AdapterCalls, topic: string): (r: Result<Subscription>)
    ensures r.Ok? <==> calls.createAdapter && calls.addSubscriber && calls.activate && calls.subscribe
    ensures r.Err? ==> r.error == AdapterFailed
    ensures r.Ok? ==> r.value.filter == map[] && r.value.topic == topic
  {
    if !calls.createAdapter || !calls.addSubscriber || !calls.activate || !calls.subscribe then Err(AdapterFailed)
    else Ok(Subscription(map[], topic))
  }

  // ------------------------------------------------- initialize_services

  /** What `initialize_services` does, in order. */
  datatype Step =
    | Register(name: string)
    | StartMonitor
    | ConnectManager
    | Topic(call: TopicCall)
    | Subscribed(sub: Subscription)

  /** How `initialize_services` ends: set up, failed with an error, or still waiting for IceStorm. */
  datatype Init =
    | Ready(steps: seq<Step>, services: seq<Service>, topics: set<string>)
    | Failed(steps: seq<Step>, services: seq<Service>, error: string)
    | Waiting(steps: seq<Step>, services: seq<Service>)

  function TopicSteps(calls: seq<TopicCall>): (r: seq<Step>)
    ensures |r| == |calls| && forall k :: 0 <= k < |calls| ==> r[k] == Topic(calls[k])
  {
    if |calls| == 0 then [] else TopicSteps(calls[..|calls| - 1]) + [Topic(calls[|calls| - 1])]
  }

  /**
   * `initialize_services`: register the observation service and start the
   * monitor, wait for the topic manager (`managerWait` are its attempts),
   * get or create the topic and subscribe. `services` are those added
   * before; the observation service's construction is not modelled.
   */
  function InitializeServices(services: seq<Service>, managerWait: seq<Attempt<bool>>, topics: set<string>,
                              createdMeanwhile: bool, adapter: AdapterCalls): (r: Init)
    ensures |r.steps| >= 2 && r.steps[0] == Register(ObsServiceName) && r.steps[1] == StartMonitor
    ensures r.services == AddService(services, ObsServiceName, "CPObsServiceImp")
    ensures forall k :: 0 <= k < 2 ==> !r.steps[k].Topic?
    ensures r.Ready? <==> Wait("IceStorm", managerWait, -1).Returned? && Subscribe(adapter, TopicName).Ok?
    ensures r.Ready? ==> TopicName in r.topics && r.topics == topics + {TopicName}
    ensures r.Waiting? <==> Wait("IceStorm", managerWait, -1).Pending?
  {
    var registered := AddService(services, ObsServiceName, "CPObsServiceImp");
    var start := [Register(ObsServiceName), StartMonitor];
    ManagerWaitNeverTimesOut(managerWait);
    match Wait("IceStorm", managerWait, -1)
    case Pending(_) => Waiting(start, registered)
    case Raised(e, _) => Failed(start, registered, e)
    case TimedOut(e, _) => Failed(start, registered, e)
    case Returned(_, _) =>
      var got := GetOrCreate(topics, TopicName, createdMeanwhile);
      GetOrCreateBounds(topics, TopicName, createdMeanwhile);
      var steps := start + [ConnectManager] + TopicSteps(got.calls);
      match Subscribe(adapter, TopicName)
      case Err(e) => Failed(steps, registered, e)
      case Ok(sub) => Ready(steps + [Subscribed(sub)], registered, got.topics)
  }

  /**
   * The attributes and methods an `IngestManager` has by the time
   * `initialize_services` runs: those of `Server.__init__`, of
   * `setup_services` and of its own constructor, and the methods of both
   * classes. `_config_from_fcm` binds the FCM proxy only to a local name.
   */
  const ManagerAttributes: set<string> := {
    "parameters", "_comm", "_adapter", "_mon_adapter", "_services", "_retries", "service_key",
    "logger", "monitoring", "configurable", "_monitor",
    "set_retries", "get_config", "_config_from_fcm", "get_parameter", "wait_for_service",
    "setup_services", "run", "wait", "add_service", "initialize_services"}

  /** Python's message for reading an attribute an object does not have. */
  function NoAttribute(owner: string, name: string): string
  {
    "'" + owner + "' object has no attribute '" + name + "'"
  }

  /**
   * `initialize_services` as written: its first statement passes
   * `self.fcm` to the observation service, so when the object has no such
   * attribute it raises before anything is registered, started or asked of
   * IceStorm; with the attribute it would go on as `InitializeServices`.
   */
  function InitializeServicesAsWritten(attrs: set<string>, services: seq<Service>,
                                       managerWait: seq<Attempt<bool>>, topics: set<string>,
                                       createdMeanwhile: bool, adapter: AdapterCalls): (r: Init)
    ensures "fcm" !in attrs ==> r.Failed? && r.steps == [] && r.services == services
                                && r.error == NoAttribute("IngestManager", "fcm")
    ensures "fcm" in attrs ==> r == InitializeServices(services, managerWait, topics, createdMeanwhile, adapter)
  {
    if "fcm" !in attrs then Failed([], services, NoAttribute("IngestManager", "fcm"))
    else InitializeServices(services, managerWait, topics, createdMeanwhile, adapter)
  }

  /**
   * With the attributes the manager actually has, set-up as written never
   * completes and never registers the observation service, whatever
   * IceStorm and the adapter do; the corrected set-up registers it always
   * and completes once the manager is found and the subscription succeeds.
   */
  lemma FcmMissingStopsSetup(services: seq<Service>, managerWait: seq<Attempt<bool>>, topics: set<string>,
                             createdMeanwhile: bool, adapter: AdapterCalls)
    ensures var w := InitializeServicesAsWritten(ManagerAttributes, services, managerWait, topics,
                                                 createdMeanwhile, adapter);
            var c := InitializeServices(services, managerWait, topics, createdMeanwhile, adapter);
            !w.Ready? && w.services == services && w.steps == []
            && c.services[|services|] == Service(ObsServiceName, "CPObsServiceImp")
    ensures InitializeServices([], [Success(true)], {}, false, AdapterCalls(true, true, true, true)).Ready?
  {
    assert "fcm" !in ManagerAttributes;
  }

  /** `initialize_services` as a step of the server's set-up. */
  function InitOutcome(i: Init): Outcome
  {
    match i
    case Ready(_, _, _) => Done
    case Failed(_, _, e) => Fails(e)
    case Waiting(_, _) => Hangs
  }

  /**
   * With the set-up as written, the ingest manager never binds its services
   * or activates its main adapter: whatever the configuration and the
   * registry answer, it stops before the subclass set-up or raises the
   * AttributeError there.
   */
  lemma ManagerNeverActivates(config: ConfigSource, c: Calls, services: seq<Service>, managerWait: seq<Attempt<bool>>,
                              topics: set<string>, createdMeanwhile: bool, adapter: AdapterCalls)
    requires c.init == InitOutcome(InitializeServicesAsWritten(ManagerAttributes, services, managerWait, topics,
                                                               createdMeanwhile, adapter))
    ensures var r := SetupServices(IngestManager(), "IngestManager", config, c);
            ActivateMain !in r.events && !r.ending.Done?
            && (InitialiseServices in r.events ==> r.ending == Fails(NoAttribute("IngestManager", "fcm")))
  {
    assert "fcm" !in ManagerAttributes;
  }

  /** When set-up succeeds, the observation service is the first step, every topic call follows the connection to the manager, and the last step is a subscription with an empty filter. */
  lemma RegisteredBeforeTopics(services: seq<Service>, managerWait: seq<Attempt<bool>>, topics: set<string>,
                               createdMeanwhile: bool, adapter: AdapterCalls)
    ensures var r := InitializeServices(services, managerWait, topics, createdMeanwhile, adapter);
            r.Ready? ==> r.steps[0] == Register(ObsServiceName) && r.steps[2] == ConnectManager
                         && (forall k :: 0 <= k < 3 ==> !r.steps[k].Topic?)
                         && r.steps[|r.steps| - 1] == Subscribed(Subscription(map[], TopicName))
  {
  }
}
