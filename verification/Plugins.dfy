/** The plugin system (src/plugin/mod.rs) and the stack it is installed in (src/api/mod.rs,
    src/server.rs, src/security/headers.rs), for arbitrary layers, filters and handlers. */
module Plugins {
  import opened Common
  import Paths

  type Headers = map<string, seq<string>>

  datatype Response = Response(status: nat, headers: Headers, body: string)

  datatype Request = Request(verb: string, path: Paths.Bytes, query: Option<Paths.Bytes>, headers: Headers)

  /** A handler or a layer may panic instead of answering. */
  datatype Outcome = Answer(response: Response) | Panicked

  type Service = Request -> Outcome

  datatype Layer = Layer(wrap: Service -> Service)

  /** What a pre-routing check says. */
  datatype Verdict = Accept | Reject(response: Response) | Crash

  datatype Filter = Filter(check: Request -> Verdict)

  // ----- the headers on every response

  const STRICT_TRANSPORT_SECURITY := "max-age=31536000; includeSubDomains; preload"
  const PERMISSIONS_POLICY :=
    "accelerometer=(), camera=(), geolocation=(), gyroscope=(), magnetometer=(), microphone=(), payment=(), usb=()"
  const API_POLICY := "default-src 'none'; frame-ancestors 'none'; base-uri 'none'; form-action 'none'; sandbox"
  const NO_STORE := "no-store, no-cache, must-revalidate"

  const ALWAYS: seq<(string, string)> := [
    ("strict-transport-security", STRICT_TRANSPORT_SECURITY),
    ("x-content-type-options", "nosniff"),
    ("x-frame-options", "DENY"),
    ("referrer-policy", "no-referrer"),
    ("permissions-policy", PERMISSIONS_POLICY),
    ("cross-origin-resource-policy", "same-origin"),
    ("cross-origin-opener-policy", "same-origin")
  ]

  predicate Carries(headers: Headers) {
    forall k | 0 <= k < |ALWAYS| :: ALWAYS[k].0 in headers && headers[ALWAYS[k].0] == [ALWAYS[k].1]
  }

  function Names(): set<string> {
    set k | 0 <= k < |ALWAYS| :: ALWAYS[k].0
  }

  function Insert(headers: Headers, from: nat): Headers
    requires from <= |ALWAYS|
    decreases |ALWAYS| - from
  {
    if from == |ALWAYS| then headers else Insert(headers[ALWAYS[from].0 := [ALWAYS[from].1]], from + 1)
  }

  function Hardened(response: Response): Response {
    response.(headers := Insert(response.headers, 0))
  }

  method Harden(response: Response) returns (hardened: Response)
    ensures hardened == Hardened(response)
  {
    var headers := response.headers;
    for k := 0 to |ALWAYS|
      invariant Insert(response.headers, 0) == Insert(headers, k)
    {
      var (name, value) := ALWAYS[k];
      headers := headers[name := [value]];
    }
    return response.(headers := headers);
  }

  lemma NamesAreDistinct(j: nat, k: nat)
    requires j < k < |ALWAYS|
    ensures ALWAYS[j].0 != ALWAYS[k].0
  {
    assert ALWAYS[0].0[0] == 's' && ALWAYS[1].0[2] == 'c' && ALWAYS[2].0[2] == 'f' && ALWAYS[3].0[0] == 'r'
      && ALWAYS[4].0[0] == 'p';
    assert ALWAYS[1].0[0] == 'x' && ALWAYS[2].0[0] == 'x' && ALWAYS[5].0[0] == 'c' && ALWAYS[6].0[0] == 'c';
    assert ALWAYS[5].0[13] == 'r' && ALWAYS[6].0[13] == 'o';
  }

  lemma {:induction false} InsertOverrides(headers: Headers, from: nat)
    requires from <= |ALWAYS|
    requires forall k | 0 <= k < from :: ALWAYS[k].0 in headers && headers[ALWAYS[k].0] == [ALWAYS[k].1]
    ensures Carries(Insert(headers, from))
    ensures forall name | name !in Names() ::
      (name in Insert(headers, from) <==> name in headers)
        && (name in headers ==> Insert(headers, from)[name] == headers[name])
    decreases |ALWAYS| - from
  {
    if from < |ALWAYS| {
      forall k | 0 <= k < from ensures ALWAYS[k].0 != ALWAYS[from].0 {
        NamesAreDistinct(k, from);
      }
      assert ALWAYS[from].0 in Names();
      InsertOverrides(headers[ALWAYS[from].0 := [ALWAYS[from].1]], from + 1);
    }
  }

  lemma {:induction false} InsertedAlready(headers: Headers, from: nat)
    requires from <= |ALWAYS| && Carries(headers)
    ensures Insert(headers, from) == headers
    decreases |ALWAYS| - from
  {
    if from < |ALWAYS| {
      assert headers[ALWAYS[from].0 := [ALWAYS[from].1]] == headers;
      InsertedAlready(headers, from + 1);
    }
  }

  /** Hardening overrides whatever a response said, touches no other header, status or body, and
      doing it again changes nothing. */
  lemma HardeningOverrides(response: Response)
    ensures Carries(Hardened(response).headers)
    ensures Hardened(response).status == response.status && Hardened(response).body == response.body
    ensures forall name | name !in Names() ::
      (name in Hardened(response).headers <==> name in response.headers)
      && (name in response.headers ==> Hardened(response).headers[name] == response.headers[name])
    ensures Hardened(Hardened(response)) == Hardened(response)
  {
    InsertOverrides(response.headers, 0);
    InsertedAlready(Hardened(response).headers, 0);
  }

  function Hardening(inner: Service): Service {
    (request: Request) => match inner(request)
      case Answer(response) => Answer(Hardened(response))
      case Panicked => Panicked
  }

  const INTERNAL_ERROR: Response := Response(500, map[], "internal server error")
  const NOT_FOUND: Response := Response(404, map[], "not found")

  function CatchPanic(inner: Service): Service {
    (request: Request) => if inner(request).Panicked? then Answer(INTERNAL_ERROR) else inner(request)
  }

  function Overriding(name: string, value: string, inner: Service): Service {
    (request: Request) => match inner(request)
      case Answer(response) => Answer(response.(headers := response.headers[name := [value]]))
      case Panicked => Panicked
  }

  // ----- resolving a registry

  datatype Stage = Outer | Api | Credentials | Page

  function StageIndex(stage: Stage): nat {
    match stage
    case Outer => 0
    case Api => 1
    case Credentials => 2
    case Page => 3
  }

  /** A plugin as its configuration makes it: what it contributes, or why it refuses. */
  datatype Plugin = Plugin(name: string, stage: Stage, layer: Result<Option<Layer>, string>,
    filter: Result<Option<Filter>, string>)

  datatype Plugins = Plugins(stages: seq<seq<Layer>>, filters: seq<Filter>, enabled: seq<string>)

  predicate Refuses(plugin: Plugin) {
    plugin.layer.Err? || plugin.filter.Err?
  }

  function Refusal(plugin: Plugin): string
    requires Refuses(plugin)
  {
    if plugin.layer.Err? then plugin.layer.error else plugin.filter.error
  }

  function LayerIn(plugin: Plugin, stage: Stage): seq<Layer> {
    if plugin.stage == stage && plugin.layer.Ok? && plugin.layer.value.Some? then [plugin.layer.value.value] else []
  }

  function FilterOf(plugin: Plugin): seq<Filter> {
    if plugin.filter.Ok? && plugin.filter.value.Some? then [plugin.filter.value.value] else []
  }

  function NameOf(plugin: Plugin): seq<string> {
    if LayerIn(plugin, plugin.stage) != [] || FilterOf(plugin) != [] then [plugin.name] else []
  }

  function LayersOf(plugins: seq<Plugin>, stage: Stage): seq<Layer> {
    if plugins == [] then [] else LayersOf(plugins[..|plugins| - 1], stage) + LayerIn(plugins[|plugins| - 1], stage)
  }

  function FiltersOf(plugins: seq<Plugin>): seq<Filter> {
    if plugins == [] then [] else FiltersOf(plugins[..|plugins| - 1]) + FilterOf(plugins[|plugins| - 1])
  }

  function NamesOf(plugins: seq<Plugin>): seq<string> {
    if plugins == [] then [] else NamesOf(plugins[..|plugins| - 1]) + NameOf(plugins[|plugins| - 1])
  }

  function At(stages: map<nat, seq<Layer>>, stage: Stage): seq<Layer> {
    if StageIndex(stage) in stages then stages[StageIndex(stage)] else []
  }

  /** What has been gathered from the first i plugins. */
  ghost predicate Gathered(plugins: seq<Plugin>, i: nat, stages: map<nat, seq<Layer>>, filters: seq<Filter>,
      enabled: seq<string>)
    requires i <= |plugins|
  {
    && (forall stage: Stage :: At(stages, stage) == LayersOf(plugins[..i], stage))
    && filters == FiltersOf(plugins[..i]) && enabled == NamesOf(plugins[..i])
    && (forall j | 0 <= j < i :: !Refuses(plugins[j]))
  }

  lemma OneMore(plugins: seq<Plugin>, i: nat)
    requires i < |plugins|
    ensures forall stage: Stage ::
      LayersOf(plugins[..i + 1], stage) == LayersOf(plugins[..i], stage) + LayerIn(plugins[i], stage)
    ensures FiltersOf(plugins[..i + 1]) == FiltersOf(plugins[..i]) + FilterOf(plugins[i])
    ensures NamesOf(plugins[..i + 1]) == NamesOf(plugins[..i]) + NameOf(plugins[i])
  {
    assert plugins[..i + 1][..i] == plugins[..i];
  }

  function PushLayer(stages: map<nat, seq<Layer>>, p: Plugin): map<nat, seq<Layer>>
    requires !Refuses(p)
  {
    if p.layer.value.Some? then stages[StageIndex(p.stage) := At(stages, p.stage) + [p.layer.value.value]] else stages
  }

  lemma GatherOne(plugins: seq<Plugin>, i: nat, stages: map<nat, seq<Layer>>, filters: seq<Filter>,
      enabled: seq<string>)
    requires i < |plugins| && !Refuses(plugins[i]) && Gathered(plugins, i, stages, filters, enabled)
    ensures var p := plugins[i];
      Gathered(plugins, i + 1, PushLayer(stages, p), filters + FilterOf(p), enabled + NameOf(p))
  {
    OneMore(plugins, i);
    var p := plugins[i];
    forall stage: Stage ensures At(PushLayer(stages, p), stage) == At(stages, stage) + LayerIn(p, stage) {
    }
  }

  /** The answer of resolve: the first refusal, or everything the plugins contribute, in the order
      of registration. */
  ghost predicate Resolved(plugins: seq<Plugin>, answer: Result<Plugins, string>) {
    match answer
    case Ok(r) =>
      && (forall j | 0 <= j < |plugins| :: !Refuses(plugins[j]))
      && |r.stages| == 4 && (forall stage: Stage :: r.stages[StageIndex(stage)] == LayersOf(plugins, stage))
      && r.filters == FiltersOf(plugins) && r.enabled == NamesOf(plugins)
    case Err(e) => exists k :: FirstRefusal(plugins, k, e)
  }

  ghost predicate FirstRefusal(plugins: seq<Plugin>, k: int, error: string) {
    0 <= k < |plugins| && Refuses(plugins[k]) && error == Refusal(plugins[k])
    && forall j | 0 <= j < k :: !Refuses(plugins[j])
  }

  lemma AllGathered(plugins: seq<Plugin>, stages: map<nat, seq<Layer>>, filters: seq<Filter>, enabled: seq<string>)
    requires Gathered(plugins, |plugins|, stages, filters, enabled)
    ensures Resolved(plugins,
      Ok(Plugins([At(stages, Outer), At(stages, Api), At(stages, Credentials), At(stages, Page)], filters, enabled)))
  {
    assert plugins[..|plugins|] == plugins;
    var r := [At(stages, Outer), At(stages, Api), At(stages, Credentials), At(stages, Page)];
    forall stage: Stage ensures r[StageIndex(stage)] == At(stages, stage) {}
  }

  /** One turn of resolve's loop. */
  method Gather(plugin: Plugin, stages: map<nat, seq<Layer>>, filters: seq<Filter>, enabled: seq<string>)
    returns (refusal: Option<string>, stages1: map<nat, seq<Layer>>, filters1: seq<Filter>, enabled1: seq<string>)
    ensures refusal == if Refuses(plugin) then Some(Refusal(plugin)) else None
    ensures !Refuses(plugin) ==> stages1 == PushLayer(stages, plugin)
                                 && filters1 == filters + FilterOf(plugin) && enabled1 == enabled + NameOf(plugin)
  {
    refusal, stages1, filters1, enabled1 := None, stages, filters, enabled;
    var contributed := false;
    if plugin.layer.Err? {
      refusal := Some(plugin.layer.error);
      return;
    }
    if plugin.layer.value.Some? {
      stages1 := stages[StageIndex(plugin.stage) := At(stages, plugin.stage) + [plugin.layer.value.value]];
      contributed := true;
    }
    if plugin.filter.Err? {
      refusal := Some(plugin.filter.error);
      return;
    }
    if plugin.filter.value.Some? {
      filters1 := filters + [plugin.filter.value.value];
      contributed := true;
    }
    if contributed {
      enabled1 := enabled + [plugin.name];
    }
  }

  /** Registry::resolve. */
  method Resolve(plugins: seq<Plugin>) returns (answer: Result<Plugins, string>)
    ensures Resolved(plugins, answer)
    ensures answer.Ok? <==> forall p <- plugins :: p.layer.Ok? && p.filter.Ok?
  {
    var stages: map<nat, seq<Layer>> := map[];
    var filters: seq<Filter> := [];
    var enabled: seq<string> := [];
    for i := 0 to |plugins|
      invariant Gathered(plugins, i, stages, filters, enabled)
    {
      var refusal, stages1, filters1, enabled1 := Gather(plugins[i], stages, filters, enabled);
      if refusal.Some? {
        assert FirstRefusal(plugins, i, refusal.value);
        return Err(refusal.value);
      }
      GatherOne(plugins, i, stages, filters, enabled);
      stages, filters, enabled := stages1, filters1, enabled1;
    }
    AllGathered(plugins, stages, filters, enabled);
    return Ok(Plugins([At(stages, Outer), At(stages, Api), At(stages, Credentials), At(stages, Page)], filters,
      enabled));
  }

  // ----- applying a stage

  /** The parts of the router that routing can lead to. Layers are added to each of them, after
      the route is known. */
  datatype Area = Health | CredentialRoutes | ApiRoutes | UnknownApi | Pages

  type Router = Area -> Service

  /** The meaning of a list of layers: the first is outermost. */
  function Compose(layers: seq<Layer>, inner: Service): Service {
    if layers == [] then inner else layers[0].wrap(Compose(layers[1..], inner))
  }

  function Layered(layer: Layer, router: Router): Router {
    (area: Area) => layer.wrap(router(area))
  }

  /** Plugins::apply: wraps from the last layer to the first. */
  method Apply(layers: seq<Layer>, router: Router) returns (wrapped: Router)
    ensures forall area :: wrapped(area) == Compose(layers, router(area))
  {
    wrapped := router;
    var i := |layers|;
    while i > 0
      invariant 0 <= i <= |layers|
      invariant forall area :: wrapped(area) == Compose(layers[i..], router(area))
    {
      i := i - 1;
      assert layers[i..][0] == layers[i] && layers[i..][1..] == layers[i + 1..];
      wrapped := Layered(layers[i], wrapped);
    }
  }

  /** Registering more plugins after some puts their layers inside. */
  lemma {:induction false} LaterIsInner(first: seq<Layer>, later: seq<Layer>, inner: Service)
    ensures Compose(first + later, inner) == Compose(first, Compose(later, inner))
    ensures |first| == 1 ==> Compose(first, inner) == first[0].wrap(inner)
  {
    if first == [] {
      assert first + later == later;
    } else {
      assert (first + later)[1..] == first[1..] + later;
      LaterIsInner(first[1..], later, inner);
    }
  }

  lemma {:induction false} LayersInOrder(a: seq<Plugin>, b: seq<Plugin>, stage: Stage)
    ensures LayersOf(a + b, stage) == LayersOf(a, stage) + LayersOf(b, stage)
    decreases |b|
  {
    if b == [] {
      assert a + b == a;
    } else {
      assert (a + b)[..|a + b| - 1] == a + b[..|b| - 1];
      LayersInOrder(a, b[..|b| - 1], stage);
    }
  }

  lemma {:induction false} FiltersInOrder(a: seq<Plugin>, b: seq<Plugin>)
    ensures FiltersOf(a + b) == FiltersOf(a) + FiltersOf(b)
    decreases |b|
  {
    if b == [] {
      assert a + b == a;
    } else {
      assert (a + b)[..|a + b| - 1] == a + b[..|b| - 1];
      FiltersInOrder(a, b[..|b| - 1]);
    }
  }

  lemma {:induction false} NamesInOrder(a: seq<Plugin>, b: seq<Plugin>)
    ensures NamesOf(a + b) == NamesOf(a) + NamesOf(b)
    decreases |b|
  {
    if b == [] {
      assert a + b == a;
    } else {
      assert (a + b)[..|a + b| - 1] == a + b[..|b| - 1];
      NamesInOrder(a, b[..|b| - 1]);
    }
  }

  lemma OneContributes(p: Plugin, stage: Stage, layer: Layer, filter: Filter)
    ensures p.layer == Ok(Some(layer)) ==> LayersOf([p], stage) == if p.stage == stage then [layer] else []
    ensures p.filter == Ok(Some(filter)) ==> FiltersOf([p]) == [filter]
    ensures p.layer == Ok(Some(layer)) || p.filter == Ok(Some(filter)) ==> NamesOf([p]) == [p.name]
    ensures p.layer == Ok(None) && p.filter == Ok(None) ==> NamesOf([p]) == []
  {
    assert [p][..0] == [];
    assert LayersOf([p], stage) == LayersOf([], stage) + LayerIn(p, stage);
    assert FiltersOf([p]) == FiltersOf([]) + FilterOf(p);
    assert NamesOf([p]) == NamesOf([]) + NameOf(p);
  }

  /** Plugins registered later only append to what is there. */
  lemma RegistrationOrder(a: seq<Plugin>, b: seq<Plugin>, stage: Stage)
    ensures LayersOf(a + b, stage) == LayersOf(a, stage) + LayersOf(b, stage)
    ensures FiltersOf(a + b) == FiltersOf(a) + FiltersOf(b)
    ensures NamesOf(a + b) == NamesOf(a) + NamesOf(b)
  {
    LayersInOrder(a, b, stage);
    FiltersInOrder(a, b);
    NamesInOrder(a, b);
  }

  // ----- the whole stack

  /** The parts plugins have no say in: the routing table, the handlers, whether pages are served,
      and the availability controls, which may answer on their own. */
  datatype App = App(area: Paths.Bytes -> Area, handler: Area -> Service, servesPages: bool, controls: Layer)

  function NotFound(): Service {
    (request: Request) => Answer(NOT_FOUND)
  }

  function StageOf(area: Area): Option<Stage> {
    match area
    case CredentialRoutes => Some(Credentials)
    case ApiRoutes => Some(Api)
    case Pages => Some(Page)
    case Health => None
    case UnknownApi => None
  }

  function InStage(plugins: Plugins, stage: Stage): seq<Layer>
    requires |plugins.stages| == 4
  {
    plugins.stages[StageIndex(stage)]
  }

  /** One part of the router with the stage that belongs to it, and the API's own headers. */
  function Branch(app: App, plugins: Plugins, area: Area): Service
    requires |plugins.stages| == 4
  {
    match area
    case Pages => if app.servesPages then Compose(InStage(plugins, Page), app.handler(Pages)) else NotFound()
    case Health => ApiHeaders(app.handler(Health))
    case UnknownApi => ApiHeaders(NotFound())
    case CredentialRoutes => ApiHeaders(Compose(InStage(plugins, Credentials), app.handler(CredentialRoutes)))
    case ApiRoutes => ApiHeaders(Compose(InStage(plugins, Api), app.handler(ApiRoutes)))
  }

  function ApiHeaders(inner: Service): Service {
    Overriding("content-security-policy", API_POLICY, Overriding("cache-control", NO_STORE, inner))
  }

  function HardenedPart(inner: Service): Service {
    Hardening(CatchPanic(inner))
  }

  /** build_router: what serves a request once its area is known. */
  function BuildRouter(app: App, plugins: Plugins): Router
    requires |plugins.stages| == 4
  {
    (area: Area) => HardenedPart(Compose(InStage(plugins, Outer), app.controls.wrap(Branch(app, plugins, area))))
  }

  function Routed(app: App, router: Router): Service {
    (request: Request) => router(app.area(request.path))(request)
  }

  function CanonicalPath(inner: Service): Service {
    (request: Request) =>
      if Paths.HasEmptySegment(request.path) then Answer(NOT_FOUND)
      else inner(request.(path := Paths.Canonical(request.path)))
  }

  /** The first filter that does not accept decides. */
  function FirstVerdict(filters: seq<Filter>, request: Request): Verdict {
    if filters == [] then Accept
    else if filters[0].check(request) != Accept then filters[0].check(request)
    else FirstVerdict(filters[1..], request)
  }

  method RunFilters(filters: seq<Filter>, request: Request) returns (verdict: Verdict)
    ensures verdict == FirstVerdict(filters, request)
  {
    for i := 0 to |filters|
      invariant FirstVerdict(filters, request) == FirstVerdict(filters[i..], request)
    {
      verdict := filters[i].check(request);
      assert filters[i..][1..] == filters[i + 1..];
      if verdict != Accept {
        return;
      }
    }
    verdict := Accept;
  }

  function Filtered(filters: seq<Filter>, inner: Service): Service {
    (request: Request) => match FirstVerdict(filters, request)
      case Accept => inner(request)
      case Reject(response) => Answer(response)
      case Crash => Panicked
  }

  function Stack(filters: seq<Filter>, inner: Service): Service {
    Hardening(Filtered(filters, CanonicalPath(inner)))
  }

  function Serve(app: App, plugins: Plugins): Service
    requires |plugins.stages| == 4
  {
    Stack(plugins.filters, Routed(app, BuildRouter(app, plugins)))
  }

  // ----- what no plugin can undo

  /** The router on its own answers every request, panics included, with the seven headers. */
  lemma RouterAlwaysAnswersHardened(app: App, plugins: Plugins, area: Area, request: Request)
    requires |plugins.stages| == 4
    ensures var outcome := BuildRouter(app, plugins)(area)(request);
      outcome.Answer? && Carries(outcome.response.headers)
  {
    var inner := CatchPanic(Compose(InStage(plugins, Outer), app.controls.wrap(Branch(app, plugins, area))));
    HardeningOverrides(inner(request).response);
  }

  ghost predicate Passes(filters: seq<Filter>, request: Request) {
    forall f <- filters :: f.check(request) == Accept
  }

  lemma {:induction false} PassesIffAllAccept(filters: seq<Filter>, request: Request)
    ensures FirstVerdict(filters, request) == Accept <==> Passes(filters, request)
  {
    if filters != [] {
      PassesIffAllAccept(filters[1..], request);
      assert filters == [filters[0]] + filters[1..];
    }
  }

  /** Every answer that leaves the server carries the seven headers, whoever made it; and there is
      an answer unless a filter itself panics. */
  lemma EveryAnswerIsHardened(app: App, plugins: Plugins, request: Request)
    requires |plugins.stages| == 4
    ensures var outcome := Serve(app, plugins)(request);
      && (outcome.Answer? ==> Carries(outcome.response.headers))
      && (outcome.Answer? <==> FirstVerdict(plugins.filters, request) != Crash)
  {
    var routed := Routed(app, BuildRouter(app, plugins));
    var outcome := Filtered(plugins.filters, CanonicalPath(routed))(request);
    if outcome.Answer? {
      HardeningOverrides(outcome.response);
    }
    var canonical := request.(path := Paths.Canonical(request.path));
    RouterAlwaysAnswersHardened(app, plugins, app.area(canonical.path), canonical);
  }

  /** Routing happens exactly when every filter accepts and the path has no "//": then the answer
      is the router's own, to the same request at its canonical path; otherwise no router, however
      it behaves, has any say in the answer. */
  lemma ReachesRoutingIff(filters: seq<Filter>, request: Request, router: Service, other: Service)
    requires forall r: Request :: router(r).Answer? ==> Carries(router(r).response.headers)
    ensures var canonical := request.(path := Paths.Canonical(request.path));
      if Passes(filters, request) && !Paths.HasEmptySegment(request.path)
      then Stack(filters, router)(request) == router(canonical)
      else Stack(filters, router)(request) == Stack(filters, other)(request)
  {
    PassesIffAllAccept(filters, request);
    var canonical := request.(path := Paths.Canonical(request.path));
    if Passes(filters, request) && !Paths.HasEmptySegment(request.path) && router(canonical).Answer? {
      InsertedAlready(router(canonical).response.headers, 0);
      assert Stack(filters, router)(request) == Answer(Hardened(router(canonical).response));
    }
  }

  /** One more filter, wherever it is registered, only takes requests away: what still passes is
      answered as before, and what did not pass before does not pass now. */
  lemma AFilterOnlyShrinks(before: seq<Filter>, added: Filter, later: seq<Filter>, router: Service, request: Request)
    ensures Passes(before + [added] + later, request)
      <==> Passes(before + later, request) && added.check(request) == Accept
    ensures added.check(request) == Accept
      ==> Stack(before + [added] + later, router)(request) == Stack(before + later, router)(request)
  {
    FirstVerdictAppends(before, later, request);
    FirstVerdictAppends(before + [added], later, request);
    FirstVerdictAppends(before, [added], request);
  }

  lemma {:induction false} FirstVerdictAppends(a: seq<Filter>, b: seq<Filter>, request: Request)
    ensures FirstVerdict(a + b, request)
      == if FirstVerdict(a, request) == Accept then FirstVerdict(b, request) else FirstVerdict(a, request)
  {
    if a == [] {
      assert a + b == b;
    } else {
      assert (a + b)[1..] == a[1..] + b;
      FirstVerdictAppends(a[1..], b, request);
    }
  }

  // ----- who answers a request

  /** The layer answers this request itself, whatever is inside it. */
  ghost predicate Answers(layer: Layer, request: Request, response: Response) {
    forall inner: Service :: layer.wrap(inner)(request) == Answer(response)
  }

  ghost predicate LetsThrough(layer: Layer, request: Request) {
    forall inner: Service :: layer.wrap(inner)(request) == inner(request)
  }

  ghost predicate AllLetThrough(layers: seq<Layer>, request: Request) {
    forall k | 0 <= k < |layers| :: LetsThrough(layers[k], request)
  }

  /** Of a list of layers the first that answers is heard; if all let the request through, what they wrap is. */
  lemma {:induction false} FirstLayerIsHeard(layers: seq<Layer>, inner: Service, request: Request, k: nat)
    requires k <= |layers| && AllLetThrough(layers[..k], request)
    ensures k == |layers| ==> Compose(layers, inner)(request) == inner(request)
    ensures forall response | k < |layers| && Answers(layers[k], request, response) ::
      Compose(layers, inner)(request) == Answer(response)
  {
    if k > 0 {
      var front := layers[..k];
      assert LetsThrough(front[0], request) && front[0] == layers[0];
      assert layers[1..][..k - 1] == front[1..];
      FirstLayerIsHeard(layers[1..], inner, request, k - 1);
      var rest := Compose(layers[1..], inner);
      assert layers[0].wrap(rest)(request) == rest(request);
      assert k < |layers| ==> layers[1..][k - 1] == layers[k];
    }
  }

  /** An outer layer is heard before the controls, in every area, and leaves hardened. */
  lemma AnOuterLayerIsHeard(app: App, plugins: Plugins, area: Area, request: Request, k: nat, response: Response)
    requires |plugins.stages| == 4 && k < |plugins.stages[0]|
    requires AllLetThrough(plugins.stages[0][..k], request) && Answers(plugins.stages[0][k], request, response)
    ensures BuildRouter(app, plugins)(area)(request) == Answer(Hardened(response))
  {
    FirstLayerIsHeard(plugins.stages[0], app.controls.wrap(Branch(app, plugins, area)), request, k);
  }

  /** The controls are heard next, before any plugin of the area. */
  lemma ThenTheControls(app: App, plugins: Plugins, area: Area, request: Request, response: Response)
    requires |plugins.stages| == 4 && AllLetThrough(plugins.stages[0], request)
    requires Answers(app.controls, request, response)
    ensures BuildRouter(app, plugins)(area)(request) == Answer(Hardened(response))
  {
    assert plugins.stages[0][..|plugins.stages[0]|] == plugins.stages[0];
    FirstLayerIsHeard(plugins.stages[0], app.controls.wrap(Branch(app, plugins, area)), request, |plugins.stages[0]|);
  }

  /** What the area's own part makes of an outcome: a panic is a 500, and an answer of the API is given the
      API's headers. Both leave hardened. */
  function Leaves(area: Area, outcome: Outcome): Outcome {
    match outcome
    case Panicked => Answer(Hardened(Response(500, map[], "internal server error")))
    case Answer(r) => Answer(Hardened(if area == Pages then r else r.(headers :=
      r.headers["cache-control" := [NO_STORE]]["content-security-policy" := [API_POLICY]])))
  }

  /** Then the plugins of the stage that belongs to the area, in their order, and last the handler. Where
      there is none, unknown routes and pages that are not served, the answer is a 404. */
  lemma ThenTheStage(app: App, plugins: Plugins, area: Area, request: Request, k: nat)
    requires |plugins.stages| == 4 && AllLetThrough(plugins.stages[0], request) && LetsThrough(app.controls, request)
    ensures var layers := match area
        case ApiRoutes => plugins.stages[1]
        case CredentialRoutes => plugins.stages[2]
        case Pages => if app.servesPages then plugins.stages[3] else []
        case _ => [];
      var handled := if area == UnknownApi || (area == Pages && !app.servesPages) then
        Answer(Response(404, map[], "not found")) else app.handler(area)(request);
      k <= |layers| && AllLetThrough(layers[..k], request) ==>
        && (k == |layers| ==> BuildRouter(app, plugins)(area)(request) == Leaves(area, handled))
        && (forall response | k < |layers| && Answers(layers[k], request, response) ::
              BuildRouter(app, plugins)(area)(request) == Leaves(area, Answer(response)))
  {
    assert plugins.stages[0][..|plugins.stages[0]|] == plugins.stages[0];
    FirstLayerIsHeard(plugins.stages[0], app.controls.wrap(Branch(app, plugins, area)), request, |plugins.stages[0]|);
    forall stage: Stage | k <= |InStage(plugins, stage)| && AllLetThrough(InStage(plugins, stage)[..k], request) {
      FirstLayerIsHeard(InStage(plugins, stage), app.handler(area), request, k);
    }
  }

  /** A filter is heard before all of them: the response of the first that refuses leaves hardened, and no
      later filter, router or handler has any say in it. */
  lemma AFilterIsHeardFirst(filters: seq<Filter>, k: nat, request: Request, router: Service)
    requires k < |filters| && Passes(filters[..k], request) && filters[k].check(request) != Accept
    ensures Stack(filters, router)(request) == match filters[k].check(request)
                                               case Reject(response) => Answer(Hardened(response))
                                               case _ => Panicked
  {
    var rest := filters[k..];
    assert filters == filters[..k] + rest && rest[0] == filters[k];
    PassesIffAllAccept(filters[..k], request);
    FirstVerdictAppends(filters[..k], rest, request);
  }

  ghost predicate SameFor(p: Plugins, q: Plugins, stage: Stage)
    requires |p.stages| == 4 && |q.stages| == 4
  {
    InStage(p, stage) == InStage(q, stage)
  }

  /** The plugins of a stage touch no request outside it. */
  lemma AStageIsLocal(app: App, p: Plugins, q: Plugins, request: Request)
    requires |p.stages| == 4 && |q.stages| == 4 && p.filters == q.filters && SameFor(p, q, Outer)
    requires var stage := StageOf(app.area(Paths.Canonical(request.path))); stage.Some? ==> SameFor(p, q, stage.value)
    ensures Serve(app, p)(request) == Serve(app, q)(request)
  {
    assert Branch(app, p, app.area(Paths.Canonical(request.path)))
      == Branch(app, q, app.area(Paths.Canonical(request.path)));
  }

  // ----- when an API answer leaves with the API's own headers

  /** The answer carries the API's content security policy and may not be cached. */
  predicate ApiHeaded(outcome: Outcome) {
    && outcome.Answer?
    && "content-security-policy" in outcome.response.headers
      && outcome.response.headers["content-security-policy"] == [API_POLICY]
    && "cache-control" in outcome.response.headers && outcome.response.headers["cache-control"] == [NO_STORE]
  }

  lemma ApiNamesAreNotAlways()
    ensures "content-security-policy" !in Names() && "cache-control" !in Names()
      && "content-security-policy" != "cache-control"
  {
    assert "content-security-policy"[0] == 'c' && "content-security-policy"[1] == 'o' && "cache-control"[0] == 'c'
      && "cache-control"[1] == 'a';
    assert ALWAYS[0].0[0] == 's' && ALWAYS[1].0[0] == 'x' && ALWAYS[2].0[0] == 'x' && ALWAYS[3].0[0] == 'r'
      && ALWAYS[4].0[0] == 'p';
    assert ALWAYS[5].0[1] == 'r' && ALWAYS[6].0[1] == 'r';
  }

  /** The outermost layers neither add the API's headers nor take them away; a panic loses them. */
  lemma HardenedPartKeepsApiHeaders(inner: Service, request: Request)
    ensures ApiHeaded(HardenedPart(inner)(request)) <==> ApiHeaded(inner(request))
  {
    ApiNamesAreNotAlways();
    HardeningOverrides(CatchPanic(inner)(request).response);
  }

  /** Where the API's headers are written they are there, unless the handler or its stage panics;
      and they are there already if they were. */
  lemma ApiHeadersWritten(inner: Service, request: Request)
    ensures ApiHeaded(ApiHeaders(inner)(request)) <==> inner(request).Answer?
    ensures ApiHeaded(inner(request)) ==> ApiHeaders(inner)(request) == inner(request)
  {
    ApiNamesAreNotAlways();
    if ApiHeaded(inner(request)) {
      var h := inner(request).response.headers;
      assert h["cache-control" := [NO_STORE]]["content-security-policy" := [API_POLICY]] == h;
    }
  }

  /** No plugin at the API or credential stage can loosen the API's policy or let its answers be
      cached. */
  lemma ApiPolicyStands(app: App, plugins: Plugins, area: Area, request: Request)
    requires |plugins.stages| == 4 && area != Pages
    ensures ApiHeaded(Branch(app, plugins, area)(request)) <==> Branch(app, plugins, area)(request).Answer?
  {
    match area
    case Health => ApiHeadersWritten(app.handler(Health), request);
    case UnknownApi => ApiHeadersWritten(NotFound(), request);
    case CredentialRoutes =>
      ApiHeadersWritten(Compose(InStage(plugins, Credentials), app.handler(CredentialRoutes)), request);
    case ApiRoutes => ApiHeadersWritten(Compose(InStage(plugins, Api), app.handler(ApiRoutes)), request);
  }

  /** The availability controls: they admit a request or answer it themselves, with a 503 when
      shedding, a 408 when it takes too long or a 413 when it is too large. */
  function Controls(refuses: Request -> Option<nat>): Layer {
    Layer((inner: Service) => (request: Request) =>
      if refuses(request).Some? then Answer(Response(refuses(request).value, map[], "")) else inner(request))
  }

  /** Without outer plugins: an API answer leaves with the API's headers exactly when the controls
      admit the request and neither its handler nor a plugin of its stage panics. */
  lemma ApiPolicyIff(app: App, refuses: Request -> Option<nat>, plugins: Plugins, area: Area, request: Request)
    requires |plugins.stages| == 4 && area != Pages && InStage(plugins, Outer) == []
    ensures ApiHeaded(BuildRouter(app.(controls := Controls(refuses)), plugins)(area)(request))
      <==> refuses(request).None? && Branch(app, plugins, area)(request).Answer?
  {
    var app1 := app.(controls := Controls(refuses));
    var branch := Branch(app1, plugins, area);
    assert branch == Branch(app, plugins, area);
    var inner := Compose([], Controls(refuses).wrap(branch));
    HardenedPartKeepsApiHeaders(inner, request);
    ApiPolicyStands(app, plugins, area, request);
  }

  /** What the server sends for a request that every filter accepts. */
  lemma ServedAsRouted(app: App, plugins: Plugins, request: Request)
    requires |plugins.stages| == 4 && Passes(plugins.filters, request)
    ensures var canonical := request.(path := Paths.Canonical(request.path));
      Serve(app, plugins)(request)
        == if Paths.HasEmptySegment(request.path) then Answer(Hardened(NOT_FOUND))
           else BuildRouter(app, plugins)(app.area(canonical.path))(canonical)
  {
    var router := Routed(app, BuildRouter(app, plugins));
    var canonical := request.(path := Paths.Canonical(request.path));
    PassesIffAllAccept(plugins.filters, request);
    if !Paths.HasEmptySegment(request.path) {
      var outcome := BuildRouter(app, plugins)(app.area(canonical.path))(canonical);
      RouterAlwaysAnswersHardened(app, plugins, app.area(canonical.path), canonical);
      InsertedAlready(outcome.response.headers, 0);
      assert router(canonical) == outcome;
      assert Filtered(plugins.filters, CanonicalPath(router))(request) == outcome;
    } else {
      assert Filtered(plugins.filters, CanonicalPath(router))(request) == Answer(NOT_FOUND);
    }
  }

  lemma NotFoundHasNoApiHeaders()
    ensures !ApiHeaded(Answer(Hardened(NOT_FOUND)))
  {
    ApiNamesAreNotAlways();
    HardeningOverrides(NOT_FOUND);
  }

  /** The same of what leaves the server, for a request that every filter accepts. */
  lemma ServedApiPolicyIff(app: App, refuses: Request -> Option<nat>, plugins: Plugins, request: Request)
    requires |plugins.stages| == 4 && InStage(plugins, Outer) == [] && Passes(plugins.filters, request)
    requires app.area(Paths.Canonical(request.path)) != Pages
    ensures var canonical := request.(path := Paths.Canonical(request.path));
      ApiHeaded(Serve(app.(controls := Controls(refuses)), plugins)(request))
      <==> !Paths.HasEmptySegment(request.path) && refuses(canonical).None?
           && Branch(app, plugins, app.area(canonical.path))(canonical).Answer?
  {
    var canonical := request.(path := Paths.Canonical(request.path));
    ServedAsRouted(app.(controls := Controls(refuses)), plugins, request);
    if Paths.HasEmptySegment(request.path) {
      NotFoundHasNoApiHeaders();
    } else {
      ApiPolicyIff(app, refuses, plugins, app.area(canonical.path), canonical);
    }
  }

  /** So no plugin is needed to lose them: a request that is shed leaves without. */
  lemma AShedRequestLosesThePolicy(app: App, area: Area, request: Request)
    requires area != Pages
    ensures !ApiHeaded(BuildRouter(app.(controls := Controls(_ => Some(503))),
      Plugins([[], [], [], []], [], []))(area)(request))
  {
    ApiPolicyIff(app, _ => Some(503), Plugins([[], [], [], []], [], []), area, request);
  }

  // With outer plugins.

  ghost predicate Same(f: Service, g: Service) {
    forall r: Request :: f(r) == g(r)
  }

  /** A layer knows what it wraps only by calling it. */
  ghost predicate Observes(layer: Layer) {
    forall f: Service, g: Service :: Same(f, g) ==> Same(layer.wrap(f), layer.wrap(g))
  }

  ghost predicate AllApiHeaded(service: Service) {
    forall r: Request :: ApiHeaded(service(r))
  }

  /** The layers hand on the API's headers whenever what they wrap always sends them. */
  ghost predicate Keeps(outer: seq<Layer>) {
    forall inner: Service :: AllApiHeaded(inner) ==> AllApiHeaded(Compose(outer, inner))
  }

  /** With these outer layers every API answer of every application leaves with the API's headers,
      as long as its controls refuse nothing and nothing inside panics. */
  ghost predicate PolicyAlwaysLeaves(outer: seq<Layer>) {
    forall app: App, plugins: Plugins, area: Area, r: Request :: PolicyLeaves(outer, app, plugins, area, r)
  }

  ghost predicate PolicyLeaves(outer: seq<Layer>, app: App, plugins: Plugins, area: Area, r: Request) {
    |plugins.stages| == 4 && InStage(plugins, Outer) == outer && area != Pages && Quiet(app, plugins, area)
    ==> ApiHeaded(BuildRouter(app.(controls := Controls(_ => None)), plugins)(area)(r))
  }

  ghost predicate Quiet(app: App, plugins: Plugins, area: Area)
    requires |plugins.stages| == 4
  {
    forall r: Request :: Branch(app, plugins, area)(r).Answer?
  }

  lemma {:induction false} ComposeObserves(outer: seq<Layer>, f: Service, g: Service)
    requires (forall l <- outer :: Observes(l)) && Same(f, g)
    ensures Same(Compose(outer, f), Compose(outer, g))
  {
    if outer != [] {
      ComposeObserves(outer[1..], f, g);
      assert Observes(outer[0]);
    }
  }

  /** The policy survives the outer layers if and only if they keep it. */
  lemma PolicySurvivesIff(outer: seq<Layer>)
    requires forall l <- outer :: Observes(l)
    ensures PolicyAlwaysLeaves(outer) <==> Keeps(outer)
  {
    if Keeps(outer) {
      forall app: App, plugins: Plugins, area: Area, r: Request ensures PolicyLeaves(outer, app, plugins, area, r) {
        if |plugins.stages| == 4 && InStage(plugins, Outer) == outer && area != Pages && Quiet(app, plugins, area) {
          KeptPolicyLeaves(outer, app, plugins, area, r);
        }
      }
    }
    if PolicyAlwaysLeaves(outer) {
      forall inner: Service | AllApiHeaded(inner) ensures AllApiHeaded(Compose(outer, inner)) {
        forall r: Request ensures ApiHeaded(Compose(outer, inner)(r)) {
          LeavingPolicyIsKept(outer, inner, r);
        }
      }
    }
  }

  lemma KeptPolicyLeaves(outer: seq<Layer>, app: App, plugins: Plugins, area: Area, r: Request)
    requires Keeps(outer) && |plugins.stages| == 4 && InStage(plugins, Outer) == outer && area != Pages
      && Quiet(app, plugins, area)
    ensures ApiHeaded(BuildRouter(app.(controls := Controls(_ => None)), plugins)(area)(r))
  {
    var app1 := app.(controls := Controls(_ => None));
    var inner := app1.controls.wrap(Branch(app1, plugins, area));
    assert Branch(app1, plugins, area) == Branch(app, plugins, area);
    forall q: Request ensures ApiHeaded(inner(q)) {
      ApiPolicyStands(app, plugins, area, q);
    }
    assert AllApiHeaded(inner);
    HardenedPartKeepsApiHeaders(Compose(outer, inner), r);
  }

  lemma LeavingPolicyIsKept(outer: seq<Layer>, inner: Service, r: Request)
    requires (forall l <- outer :: Observes(l)) && PolicyAlwaysLeaves(outer) && AllApiHeaded(inner)
    ensures ApiHeaded(Compose(outer, inner)(r))
  {
    var app := App(path => Health, area => inner, false, Controls(_ => None));
    var plugins := Plugins([outer, [], [], []], [], []);
    var wrapped := app.controls.wrap(Branch(app, plugins, Health));
    forall q: Request ensures ApiHeaded(inner(q)) && wrapped(q) == inner(q) && Branch(app, plugins, Health)(q).Answer? {
      ApiHeadersWritten(inner, q);
    }
    assert Same(wrapped, inner) && Quiet(app, plugins, Health);
    ComposeObserves(outer, wrapped, inner);
    assert app.(controls :=
      Controls(_ => None)).controls.wrap(Branch(app.(controls := Controls(_ => None)), plugins, Health)) == wrapped;
    HardenedPartKeepsApiHeaders(Compose(outer, wrapped), r);
    assert PolicyLeaves(outer, app, plugins, Health, r);
  }

  /** A pool of layers can be registered in any number and order without loss exactly when each of
      them alone keeps the policy. */
  lemma AnyOrderKeepsIffEachDoes(pool: Layer -> bool)
    ensures (forall outer: seq<Layer> :: (forall l <- outer :: pool(l)) ==> Keeps(outer))
      <==> (forall l: Layer :: pool(l) ==> Keeps([l]))
  {
    if forall l: Layer :: pool(l) ==> Keeps([l]) {
      forall outer: seq<Layer> | forall l <- outer :: pool(l) ensures Keeps(outer) {
        EachKeeps(outer);
      }
    }
  }

  lemma {:induction false} EachKeeps(outer: seq<Layer>)
    requires forall l <- outer :: Keeps([l])
    ensures Keeps(outer)
  {
    if outer != [] {
      EachKeeps(outer[1..]);
      assert Keeps([outer[0]]);
      forall inner: Service | AllApiHeaded(inner) ensures AllApiHeaded(Compose(outer, inner)) {
        var rest := Compose(outer[1..], inner);
        assert [outer[0]][1..] == [] && Compose([], rest) == rest;
        assert Compose([outer[0]], rest) == outer[0].wrap(rest) == Compose(outer, inner);
        assert AllApiHeaded(rest);
      }
    }
  }

  /** An outer plugin that does not: the hardening restores only its own seven headers. */
  lemma AnOuterPluginCanLoosenIt(request: Request) returns (app: App, plugins: Plugins)
    ensures |plugins.stages| == 4 && plugins.filters == []
    ensures var outcome := BuildRouter(app, plugins)(Health)(request);
      outcome.Answer? && "content-security-policy" !in outcome.response.headers
  {
    app := App(path => Health, area => NotFound(), false, Layer(inner => inner));
    var strip := Layer(inner => NotFound());
    plugins := Plugins([[strip], [], [], []], [], ["strip"]);
    InsertOverrides(map[], 0);
    assert Compose([strip], app.controls.wrap(Branch(app, plugins, Health))) == NotFound();
    ApiNamesAreNotAlways();
  }
}
