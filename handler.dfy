/** `generate` (src/main.rs): the request handler. It parses the spec token into an
    `ImageSpec`, percent-decodes the URL, retrieves the source bytes through the cache,
    builds an image engine from them, applies the whole step list, encodes the result as
    JPEG of quality 85 and answers it with `content-type: image/jpeg`. Each step before the
    engine work exits early with an HTTP status.

    The spec codec, the percent-decoder and the image engine are not modelled: they are
    black boxes gathered in an `Env`, with the cache's hasher and network. The handler is a
    pure function over them and over the abstract cache state; it also returns the list of
    effects it performed, in order, so that the order of the steps can be stated. */
module Handler {
  import opened Wrappers
  import opened FetchCache

  /** HTTP status codes, as numbers. */
  type StatusCode = nat

  const BadRequest: StatusCode := 400
  const InternalServerError: StatusCode := 500

  /** The JPEG quality of every response. */
  const JpegQuality: nat := 85

  /** The output encodings the handler asks the engine for. */
  datatype OutputFormat = Jpeg(quality: nat)

  /** A decoded spec token: the ordered list of transformation steps. */
  datatype ImageSpec<Step> = ImageSpec(specs: seq<Step>)

  datatype Response = Response(headers: map<string, string>, body: Bytes)

  /** The effects of one request, in the order they happen. */
  datatype Effect<Step> =
    | RetrieveCalled(url: string)  // `retrieve_image` is entered
    | NetworkFetch(url: string)    // it went to the network
    | EngineBuilt                  // the engine was built from the bytes
    | StepsApplied(specs: seq<Step>)
    | Encoded(format: OutputFormat)

  /** The collaborators of the handler: the spec parser (`ImageSpec::try_from`), the URL
      percent-decoder, the cache's hasher and network, and the engine (`Photon::try_from`,
      `apply`, `generate`). */
  datatype Env<!Step, !Engine> = Env(
    parseSpec: string -> Option<ImageSpec<Step>>,
    percentDecode: string -> string,
    hasher: Hasher,
    network: Network,
    newEngine: Bytes -> Option<Engine>,
    apply: (Engine, seq<Step>) -> Engine,
    encode: (Engine, OutputFormat) -> Bytes)

  /** The result of one request: the reply (a response or a status), the cache afterwards,
      and the effects performed. */
  datatype Outcome<Step> = Outcome(reply: Result<Response, StatusCode>, cache: CacheState, effects: seq<Effect<Step>>)

  /** The effects of the cache step of a request for `url`. */
  function RetrieveEffects<Step>(url: string, got: Retrieval): seq<Effect<Step>> {
    [RetrieveCalled(url)] + (if got.fetched then [NetworkFetch(url)] else [])
  }

  /** The URL that is fetched: the percent-decoded path segment. */
  function SourceUrl<Step, Engine>(url: string, env: Env<Step, Engine>): string {
    env.percentDecode(url)
  }

  /** `generate(spec, url)` against cache state `cache`. */
  function Generate<Step, Engine>(spec: string, url: string, cache: CacheState, env: Env<Step, Engine>): (out: Outcome<Step>)
    requires WellFormed(cache)
    ensures WellFormed(out.cache)
    // the only statuses are 400 and 500
    ensures out.reply.Err? ==> out.reply.error == BadRequest || out.reply.error == InternalServerError
    // 400 exactly when the spec does not parse or the source cannot be retrieved
    ensures out.reply == Err(BadRequest) <==>
      env.parseSpec(spec).None? ||
      Retrieve(cache, SourceUrl(url, env), env.hasher, env.network).result.Err?
    // 500 exactly when both succeed and the engine cannot be built from the bytes
    ensures out.reply == Err(InternalServerError) <==>
      env.parseSpec(spec).Some? &&
      Retrieve(cache, SourceUrl(url, env), env.hasher, env.network).result.Ok? &&
      env.newEngine(Retrieve(cache, SourceUrl(url, env), env.hasher, env.network).result.value).None?
    // a spec that does not parse leaves the cache alone
    ensures env.parseSpec(spec).None? ==> out.cache == cache && out.effects == []
    // otherwise the cache changes as one retrieve_image call changes it
    ensures env.parseSpec(spec).Some? ==>
      out.cache == Retrieve(cache, SourceUrl(url, env), env.hasher, env.network).cache
  {
    match env.parseSpec(spec)
    case None => Outcome(Err(BadRequest), cache, [])
    case Some(imageSpec) =>
      var source := SourceUrl(url, env);
      var got := Retrieve(cache, source, env.hasher, env.network);
      var trace := RetrieveEffects(source, got);
      match got.result
      case Err(_) => Outcome(Err(BadRequest), got.cache, trace)
      case Ok(data) =>
        match env.newEngine(data)
        case None => Outcome(Err(InternalServerError), got.cache, trace)
        case Some(engine) =>
          var image := env.encode(env.apply(engine, imageSpec.specs), Jpeg(JpegQuality));
          var headers := map["content-type" := "image/jpeg"];
          Outcome(Ok(Response(headers, image)), got.cache,
                  ServedEffects(trace, imageSpec.specs))
  }

  /** Whether a list of effects goes to the network. */
  predicate Fetches<Step>(effects: seq<Effect<Step>>) {
    exists i :: 0 <= i < |effects| && effects[i].NetworkFetch?
  }

  /** A failed retrieval is answered 400 right after the cache step: its effects are that
      step's alone (entering `retrieve_image`, then the fetch), so no engine is built, no
      step applied and nothing encoded, and the cache is left as it was. */
  lemma FetchFailureIs400<Step, Engine>(spec: string, url: string, cache: CacheState, env: Env<Step, Engine>)
    requires WellFormed(cache)
    requires env.parseSpec(spec).Some?
    requires Retrieve(cache, SourceUrl(url, env), env.hasher, env.network).result.Err?
    ensures var out := Generate(spec, url, cache, env);
            var source := SourceUrl(url, env);
            && out.reply == Err(BadRequest)
            && out.cache == cache
            && out.effects == [RetrieveCalled(source), NetworkFetch(source)]
            && Fetches(out.effects)
            && forall i :: 0 <= i < |out.effects| ==>
                 !out.effects[i].EngineBuilt? && !out.effects[i].StepsApplied? && !out.effects[i].Encoded?
  {
    var out := Generate(spec, url, cache, env);
    assert out.effects[1].NetworkFetch?;
  }

  /** Bytes from which no engine can be built are answered 500 after the cache step alone:
      no engine, no steps applied, no encode; the request went to the network exactly when
      its retrieval did. */
  lemma EngineFailureIs500<Step, Engine>(spec: string, url: string, cache: CacheState, env: Env<Step, Engine>)
    requires WellFormed(cache)
    requires Generate(spec, url, cache, env).reply == Err(InternalServerError)
    ensures var out := Generate(spec, url, cache, env);
            var got := Retrieve(cache, SourceUrl(url, env), env.hasher, env.network);
            && out.cache == got.cache
            && (Fetches(out.effects) <==> got.fetched)
            && forall i :: 0 <= i < |out.effects| ==>
                 !out.effects[i].EngineBuilt? && !out.effects[i].StepsApplied? && !out.effects[i].Encoded?
  {
    var source := SourceUrl(url, env);
    var got := Retrieve(cache, source, env.hasher, env.network);
    var trace: seq<Effect<Step>> := RetrieveEffects(source, got);
    assert Generate(spec, url, cache, env) == Outcome(Err(InternalServerError), got.cache, trace);
    if got.fetched {
      assert trace[1].NetworkFetch?;
    }
  }

  /** The effects of a request that got its bytes: the cache step, then engine, steps and
      encode, one each. */
  function ServedEffects<Step>(trace: seq<Effect<Step>>, steps: seq<Step>): seq<Effect<Step>> {
    trace + [EngineBuilt, StepsApplied(steps), Encoded(Jpeg(JpegQuality))]
  }

  /** In a served request the steps are applied once and encoded once, at the end. */
  lemma ServedEffectsOrder<Step>(source: string, got: Retrieval, steps: seq<Step>)
    ensures var effects := ServedEffects(RetrieveEffects(source, got), steps);
            && |effects| >= 4
            && effects[|effects| - 3] == EngineBuilt
            && effects[|effects| - 2] == StepsApplied(steps)
            && effects[|effects| - 1] == Encoded(Jpeg(JpegQuality))
            && (forall i :: 0 <= i < |effects| - 2 ==> !effects[i].StepsApplied? && !effects[i].Encoded?)
            && (Fetches(effects) <==> got.fetched)
  {
    var trace: seq<Effect<Step>> := RetrieveEffects(source, got);
    var effects := ServedEffects(trace, steps);
    assert forall i :: 0 <= i < |trace| ==> effects[i] == trace[i];
    if Fetches(effects) {
      var i :| 0 <= i < |effects| && effects[i].NetworkFetch?;
      assert i == 1;
    }
    if got.fetched {
      assert effects[1].NetworkFetch?;
    }
  }

  /** On success the response carries the single header `content-type: image/jpeg`, the body
      is the engine's JPEG (quality 85) of the image after the whole step list, and the list
      is applied exactly once, after the engine is built and before the one encode, which
      is the last effect. */
  lemma SuccessAppliesAllStepsOnce<Step, Engine>(spec: string, url: string, cache: CacheState, env: Env<Step, Engine>)
    requires WellFormed(cache)
    requires Generate(spec, url, cache, env).reply.Ok?
    ensures env.parseSpec(spec).Some?
    ensures var out := Generate(spec, url, cache, env);
            var steps := env.parseSpec(spec).value.specs;
            var data := Retrieve(cache, SourceUrl(url, env), env.hasher, env.network).result.value;
            && env.newEngine(data).Some?
            && out.reply.value.headers == map["content-type" := "image/jpeg"]
            && out.reply.value.body == env.encode(env.apply(env.newEngine(data).value, steps), Jpeg(JpegQuality))
            && |out.effects| >= 4
            && out.effects[|out.effects| - 3] == EngineBuilt
            && out.effects[|out.effects| - 2] == StepsApplied(steps)
            && out.effects[|out.effects| - 1] == Encoded(Jpeg(JpegQuality))
            && (forall i :: 0 <= i < |out.effects| - 2 ==> !out.effects[i].StepsApplied? && !out.effects[i].Encoded?)
  {
    var source := SourceUrl(url, env);
    var got := Retrieve(cache, source, env.hasher, env.network);
    var steps := env.parseSpec(spec).value.specs;
    var engine := env.newEngine(got.result.value).value;
    var image := env.encode(env.apply(engine, steps), Jpeg(JpegQuality));
    assert Generate(spec, url, cache, env) ==
      Outcome(Ok(Response(map["content-type" := "image/jpeg"], image)), got.cache, ServedEffects(RetrieveEffects(source, got), steps));
    ServedEffectsOrder(source, got, steps);
  }

  /** Repeating a request that succeeded does not fetch again, and with the same engine
      gives the same reply. */
  lemma RepeatRequestIsServedFromCache<Step, Engine>(spec: string, url: string, cache: CacheState, env: Env<Step, Engine>)
    requires WellFormed(cache)
    requires Generate(spec, url, cache, env).reply.Ok?
    ensures var first := Generate(spec, url, cache, env);
            var second := Generate(spec, url, first.cache, env);
            second.reply == first.reply && second.cache == first.cache && !Fetches(second.effects)
  {
    var source := SourceUrl(url, env);
    var got := Retrieve(cache, source, env.hasher, env.network);
    RepeatIsHit(cache, source, env.hasher, env.network, env.network);
    var again := Retrieve(got.cache, source, env.hasher, env.network);
    ServedEffectsOrder(source, again, env.parseSpec(spec).value.specs);
  }
}
