/**
 * `DeepRAGService`: the lifecycle wrapper the HTTP layer talks to. It builds the
 * system once, reports whether it is ready, and answers questions, optionally
 * overriding the step budget for one call by editing the configuration it shares
 * with the system and restoring it afterwards. One instance is shared by every
 * caller.
 */
module Service {
  import opened Wrappers
  import opened DeepRag
  import opened Answering
  import Streaming

  const InitFailurePrefix := "Failed to initialize Deep RAG service: "

  /** What `get_system_info` reports. */
  datatype SystemInfo = SystemInfo(initialized: bool, embeddingsLoaded: bool, vectorStoreReady: bool, error: Option<string>)

  /** A call on the service: refused with `ServiceNotReadyException`, or served. */
  datatype ServiceReply<T> = NotReady | Served(value: T)

  function Abs(x: int): nat {
    if x < 0 then -x else x
  }

  /**
   * The override moves the budget by more than two steps, so a recompile is asked
   * for: exactly when the override lies outside `[original - 2, original + 2]`.
   */
  predicate RecompileRequested(maxSteps: int, original: int): (r: bool)
    ensures r <==> maxSteps < original - 2 || original + 2 < maxSteps
  {
    Abs(maxSteps - original) > 2
  }

  /** The step budget a call runs with: the override when given, the configured one otherwise. */
  function Budget(maxSteps: Option<int>, configured: int): (b: int)
    ensures maxSteps.None? ==> b == configured
    ensures maxSteps.Some? ==> b == maxSteps.value
  {
    maxSteps.GetOr(configured)
  }

  class DeepRagService {
    var system: DeepRagSystem?
    var settings: Settings?
    var initialized: bool
    var initializationError: Option<string>

    /**
     * A system exists exactly when the service is initialised; it was compiled
     * when built and shares the service's configuration object.
     */
    ghost predicate Valid()
      reads this, system
    {
      && (initialized <==> system != null)
      && (system != null ==> settings != null && system.settings == settings && system.compiled)
    }

    constructor()
      ensures Valid()
      ensures system == null && settings == null && !initialized && initializationError == None
    {
      system := null;
      settings := null;
      initialized := false;
      initializationError := None;
    }

    /** `is_ready`. */
    predicate IsReady()
      reads this
    {
      initialized && system != null
    }

    /** Under the service invariant, `is_ready` is the initialised flag that `get_system_info` reports. */
    lemma ReadyIsInitialized()
      requires Valid()
      ensures IsReady() <==> initialized
      ensures IsReady() <==> Info().initialized
    {
    }

    /** `get_system_info`: every readiness flag mirrors `initialized`. */
    function Info(): (r: SystemInfo)
      reads this
      ensures r.initialized == initialized && r.embeddingsLoaded == initialized && r.vectorStoreReady == initialized
      ensures r.error == initializationError
    {
      SystemInfo(initialized, initialized, initialized, initializationError)
    }

    /**
     * `initialize`. `config` is what `get_config` yields (its step budget) and
     * `setup` the outcome of loading embeddings, documents and the embedding
     * function, or the message of the exception one of them raised. Once
     * initialised, a call changes nothing. A failure records the prefixed message,
     * leaves the service uninitialised and is returned as the exception raised.
     */
    method Initialize(config: int, setup: Result<Env, string>) returns (err: Option<string>)
      requires Valid()
      modifies this
      ensures Valid()
      ensures old(initialized) ==>
        && err == None && initialized
        && system == old(system) && settings == old(settings) && initializationError == old(initializationError)
      ensures !old(initialized) ==> settings != null && fresh(settings) && settings.maxReasoningIterations == config
      ensures !old(initialized) && setup.Ok? ==>
        && err == None && initialized && initializationError == None && IsReady()
        && fresh(system) && system.env == setup.value
        && system.compileCalls == 1 && system.compilations == 1
      ensures !old(initialized) && setup.Err? ==>
        && err == Some(InitFailurePrefix + setup.error) && initializationError == err
        && !initialized && system == null && !IsReady()
    {
      if initialized {
        return None;
      }
      settings := new Settings(config);
      match setup
      case Err(msg) =>
        err := Some(InitFailurePrefix + msg);
        initializationError := err;
        initialized := false;
      case Ok(env) =>
        var s := new DeepRagSystem(env, settings);
        s.Compile();
        system := s;
        initialized := true;
        initializationError := None;
        err := None;
    }

    /** The `config` property: loaded on first use (from `config`), the same object afterwards. */
    method Config(config: int) returns (s: Settings)
      modifies this
      ensures old(settings) != null ==> s == old(settings) && s.maxReasoningIterations == old(settings.maxReasoningIterations)
      ensures old(settings) == null ==> fresh(s) && s.maxReasoningIterations == config
      ensures settings == s
      ensures system == old(system) && initialized == old(initialized) && initializationError == old(initializationError)
    {
      if settings == null {
        settings := new Settings(config);
      }
      s := settings;
    }

    /** The `deep_rag` property: the system, or `ServiceNotReadyException`. */
    method System() returns (r: ServiceReply<DeepRagSystem>)
      ensures r.NotReady? <==> !IsReady()
      ensures r.Served? ==> r.value == system
    {
      if !IsReady() {
        return NotReady;
      }
      r := Served(system);
    }

    /**
     * `answer`. When not ready it refuses before touching the configuration.
     * Otherwise the system answers with the overridden budget, the configured
     * budget is restored afterwards however the answer ended, a recompile is asked
     * for only when the override moves the budget by more than two, and it builds
     * nothing since the system is already compiled.
     */
    method Answer(question: string, maxSteps: Option<int>) returns (r: ServiceReply<AnswerOutcome>)
      requires Valid()
      modifies settings, system
      ensures Valid()
      ensures !old(IsReady()) ==> r == NotReady
      ensures old(IsReady()) ==>
        && r == Served(AnswerSpec(system.env,
             Run(system.env, question, Budget(maxSteps, old(settings.maxReasoningIterations)), RecursionLimitDefault)))
        && system.compilations == old(system.compilations)
        && system.compileCalls ==
             old(system.compileCalls) + if maxSteps.Some? && RecompileRequested(maxSteps.value, old(settings.maxReasoningIterations)) then 1 else 0
      ensures settings != null ==> settings.maxReasoningIterations == old(settings.maxReasoningIterations)
      ensures unchanged(this)
    {
      if !IsReady() {
        return NotReady;
      }
      var original := settings.maxReasoningIterations;
      if maxSteps.Some? {
        settings.maxReasoningIterations := maxSteps.value;
        if RecompileRequested(maxSteps.value, original) {
          system.Compile();
        }
      }
      var out := system.Answer(question);
      if maxSteps.Some? {
        settings.maxReasoningIterations := original;
      }
      r := Served(out);
    }

    /**
     * `stream_answer`: the same override, recompile request and restore around
     * `stream_deep_rag_response`, whose events are the result.
     */
    method StreamAnswer(question: string, maxSteps: Option<int>) returns (r: ServiceReply<seq<Streaming.Event>>)
      requires Valid()
      modifies settings, system
      ensures Valid()
      ensures !old(IsReady()) ==> r == NotReady
      ensures old(IsReady()) ==>
        && r == Served(Streaming.StreamEvents(
             Run(system.env, question, Budget(maxSteps, old(settings.maxReasoningIterations)), RecursionLimitDefault)))
        && system.compilations == old(system.compilations)
        && system.compileCalls ==
             old(system.compileCalls) + if maxSteps.Some? && RecompileRequested(maxSteps.value, old(settings.maxReasoningIterations)) then 1 else 0
      ensures settings != null ==> settings.maxReasoningIterations == old(settings.maxReasoningIterations)
      ensures unchanged(this)
    {
      if !IsReady() {
        return NotReady;
      }
      var original := settings.maxReasoningIterations;
      if maxSteps.Some? {
        settings.maxReasoningIterations := maxSteps.value;
        if RecompileRequested(maxSteps.value, original) {
          system.Compile();
        }
      }
      var events := Streaming.StreamDeepRagResponse(system, question);
      if maxSteps.Some? {
        settings.maxReasoningIterations := original;
      }
      r := Served(events);
    }
  }

  /** The module-global `_service_instance` and `get_service`. */
  class Registry {
    var instance: DeepRagService?

    constructor()
      ensures instance == null
    {
      instance := null;
    }

    /** The first call creates an uninitialised service; every call returns that same one. */
    method GetService() returns (s: DeepRagService)
      modifies this
      ensures old(instance) != null ==> s == old(instance)
      ensures old(instance) == null ==> fresh(s) && !s.initialized && s.system == null && s.Valid()
      ensures instance == s
    {
      if instance == null {
        instance := new DeepRagService();
      }
      s := instance;
    }
  }
}
