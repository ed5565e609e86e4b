/** Router policies and the classification of router receipts
    (`experiments/inference-boundary/router-policy.ts`, policy schemas 1 and 2). */
module Receipts {
  import opened Text

  datatype Connection = Connection(id: string, provider: string, isActive: bool)

  datatype Edge = Edge(member: string, provider: string, model: string, connections: seq<string>)

  datatype Route = Route(id: string, name: string, edges: seq<Edge>)

  datatype Graph = Graph(connections: seq<Connection>, routes: seq<Route>)

  datatype AuthorityIdentity = AuthorityIdentity(deploymentId: string, boot: string, generation: int, revision: string)

  datatype Limits = Limits(concurrency: int, requestCount: int)

  datatype Profile = OpencodeRouter | RouterText | NativeTranslation

  const CREDENTIAL_REFRESH := "credential_refresh"
  const CODEX := "codex"
  const NODE_PREFIX := "openai-compatible-"
  const NATIVE_MODELS := {"gpt-6-astra", "gpt-5.6-sol", "gpt-5.6-terra"}

  /** Schema 1 is the synthetic fixture policy, schema 2 the strict router policy. */
  datatype Policy =
    | FixturePolicy(routerId: string, routeId: string, revision: string, epoch: int, routerModel: string, limits: Limits)
    | RouterPolicy(routerId: string, routeId: string, revision: string, epoch: int, routerModel: string, limits: Limits,
                   profile: Profile, graph: Graph, authority: AuthorityIdentity)

  function FindRoute(routes: seq<Route>, id: string, name: string): Option<Route> {
    if |routes| == 0 then None
    else if routes[0].id == id && routes[0].name == name then Some(routes[0])
    else FindRoute(routes[1..], id, name)
  }

  predicate ValidLimits(l: Limits, native: bool) {
    1 <= l.concurrency <= (if native then 1 else 4) && 1 <= l.requestCount <= 32
  }

  /** The connections of one provider, in the order of the graph. */
  function ProviderConnections(connections: seq<Connection>, provider: string): seq<string> {
    if |connections| == 0 then []
    else
      var rest := ProviderConnections(connections[1..], provider);
      if connections[0].provider == provider then [connections[0].id] + rest else rest
  }

  /** `^openai-compatible-[a-z0-9-]+$` */
  predicate NodeId(s: string) {
    NODE_PREFIX < s && forall i | |NODE_PREFIX| <= i < |s| :: Lower(s[i]) || Digit(s[i]) || s[i] == '-'
  }

  /** `^[a-zA-Z0-9._-]+$` */
  predicate EdgeModel(s: string) {
    |s| > 0 && forall i | 0 <= i < |s| :: Alphanumeric(s[i]) || s[i] in {'.', '_', '-'}
  }

  predicate ValidConnection(c: Connection, native: bool) {
    RouterReference(c.id) && if native then c.provider == CODEX else NodeId(c.provider)
  }

  /** An edge names one model of one provider and exactly the provider's connections. */
  predicate ValidEdge(e: Edge, connections: seq<Connection>, native: bool) {
    && EdgeModel(e.model) && e.model != CREDENTIAL_REFRESH
    && (if native then e.provider == CODEX && e.model in NATIVE_MODELS && e.member in {"cx/" + e.model, "codex/" + e.model}
        else NodeId(e.provider) && e.member == e.provider + "/" + e.model)
    && e.connections != [] && e.connections == ProviderConnections(connections, e.provider)
  }

  predicate ValidRoute(r: Route, connections: seq<Connection>, native: bool) {
    && RouterReference(r.id) && RouterReference(r.name) && 1 <= |r.edges| <= 8
    && (forall i, j | 0 <= i < j < |r.edges| :: r.edges[i].member != r.edges[j].member)
    && (forall i | 0 <= i < |r.edges| :: ValidEdge(r.edges[i], connections, native))
  }

  predicate ValidGraph(g: Graph, native: bool) {
    && 1 <= |g.connections| <= 32 && 1 <= |g.routes| <= 32
    && (forall i, j | 0 <= i < j < |g.connections| :: g.connections[i].id != g.connections[j].id)
    && (forall i, j | 0 <= i < j < |g.routes| :: g.routes[i].id != g.routes[j].id && g.routes[i].name != g.routes[j].name)
    && (forall i | 0 <= i < |g.connections| :: ValidConnection(g.connections[i], native))
    && (forall i | 0 <= i < |g.routes| :: ValidRoute(g.routes[i], g.connections, native))
  }

  /** `validateIdentity`, without the digest of the graph. */
  predicate ValidIdentity(a: AuthorityIdentity) {
    Reference(a.deploymentId) && Uuid(a.boot) && 1 <= a.generation <= MAX_SAFE && Reference(a.revision)
  }

  /** `^[a-zA-Z0-9_/-]{1,128}$` */
  predicate FixtureModel(s: string) {
    1 <= |s| <= 128 && forall i | 0 <= i < |s| :: Alphanumeric(s[i]) || s[i] in {'_', '/', '-'}
  }

  /** `validatePolicy` and `validateRouterPolicy`, for the fields the gate reads. */
  predicate ValidPolicy(p: Policy) {
    && Reference(p.routerId) && Reference(p.routeId) && Reference(p.revision)
    && 1 <= p.epoch <= MAX_SAFE
    && ValidLimits(p.limits, p.RouterPolicy? && p.profile == NativeTranslation)
    && (p.FixturePolicy? ==> FixtureModel(p.routerModel))
    && (p.RouterPolicy? ==>
          && RouterReference(p.routerModel) && ValidIdentity(p.authority) && p.authority.revision == p.revision
          && ValidGraph(p.graph, p.profile == NativeTranslation)
          && FindRoute(p.graph.routes, p.routeId, p.routerModel).Some?)
  }

  datatype Terminal =
    | UnknownTerminal | ProviderTerminal | ProviderCompleted | ProviderFailed
    | ProviderIncomplete | ProviderRejected | RefreshTerminal

  datatype OperationStop = OperationRunning | OriginalEof | OriginalCancel | OriginalError | TransportError | OperationCrash

  datatype MediaType = Sse | Json | Html | Missing | Other | Unlisted

  datatype Observation = Observation(status: int, mediaType: MediaType)

  datatype Operation = Operation(
    requestId: string, ordinal: int, boot: string, generation: int, revision: string,
    provider: string, model: string, connectionId: string,
    terminal: Terminal, localStop: OperationStop, observation: Option<Observation>)

  datatype LocalStop = Running | LocalEof | LocalError | LocalCancel | StopUnknown | CrashUnknown

  /** What the private router control reports. `Unreadable` is any value of another shape. */
  datatype RawReceipt =
    | Unreadable
    | NotKnown(id: string)
    | Known(id: string, boot: string, generation: int, revision: string, route: string,
            localStop: LocalStop, handlerDone: bool, quiescent: bool, operations: seq<Operation>)

  datatype Disposition = PendingOrUnknown | QuiescentFailure | OriginalSuccess

  /** `hashDocument` is taken as injective: a digest is the document it was made from. */
  datatype ReceiptDigest = ReceiptDigest(receipt: RawReceipt)

  datatype Evidence = Evidence(disposition: Disposition, receiptDigest: Option<ReceiptDigest>, operations: seq<Operation>)

  const PENDING := Evidence(PendingOrUnknown, None, [])

  const MAX_OPERATIONS := 16

  predicate Serves(e: Edge, o: Operation) {
    e.provider == o.provider && o.connectionId in e.connections && (o.model == CREDENTIAL_REFRESH || e.model == o.model)
  }

  predicate TerminalFits(o: Operation) {
    o.terminal in
    (if o.model == CREDENTIAL_REFRESH then {UnknownTerminal, RefreshTerminal, ProviderRejected}
     else if o.provider == CODEX then {UnknownTerminal, ProviderCompleted, ProviderFailed, ProviderIncomplete, ProviderRejected}
     else {UnknownTerminal, ProviderTerminal, ProviderRejected})
  }

  predicate ObservationFits(o: Operation) {
    o.observation.Some? ==> 100 <= o.observation.value.status <= 599 && !o.observation.value.mediaType.Unlisted?
  }

  /** The checks of one entry of a receipt's operation list. */
  predicate OperationFits(o: Operation, index: nat, raw: RawReceipt, p: Policy)
    requires raw.Known? && p.RouterPolicy?
  {
    && ObservationFits(o)
    && o.requestId == raw.id && o.ordinal == index + 1
    && o.boot == raw.boot && o.generation == raw.generation && o.revision == raw.revision
    && (exists c :: c in p.graph.connections && c.id == o.connectionId && c.provider == o.provider && c.isActive)
    && var route := FindRoute(p.graph.routes, p.routeId, p.routerModel);
    && route.Some?
    && (o.model == CREDENTIAL_REFRESH ==> p.profile == NativeTranslation && o.provider == CODEX)
    && (exists e :: e in route.value.edges && Serves(e, o))
    && TerminalFits(o)
    && (o.terminal != UnknownTerminal ==> o.localStop == OriginalEof)
  }

  predicate AllTerminal(operations: seq<Operation>) {
    forall i | 0 <= i < |operations| :: operations[i].terminal != UnknownTerminal
  }

  /** The last operation that is not a credential refresh. */
  function LastOriginal(operations: seq<Operation>): Option<Operation> {
    if |operations| == 0 then None
    else
      var last := operations[|operations| - 1];
      if last.model != CREDENTIAL_REFRESH then Some(last) else LastOriginal(operations[..|operations| - 1])
  }

  /** A receipt that speaks about this request under this policy and is well formed. */
  predicate Consistent(raw: RawReceipt, id: string, p: Policy) {
    && raw.Known? && p.RouterPolicy?
    && raw.id == id && raw.boot == p.authority.boot && raw.generation == p.authority.generation
    && raw.revision == p.revision && raw.route == p.routerModel
    && |raw.operations| <= MAX_OPERATIONS
    && (forall i | 0 <= i < |raw.operations| :: OperationFits(raw.operations[i], i, raw, p))
    && !(raw.handlerDone && raw.localStop in {Running, CrashUnknown})
    && raw.quiescent == (raw.handlerDone && AllTerminal(raw.operations))
  }

  /** `classifyReceipt`: any failed check leaves the work pending. */
  function Classify(raw: RawReceipt, id: string, p: Policy): Evidence {
    if !Consistent(raw, id, p) || !raw.quiescent then PENDING
    else
      var last := LastOriginal(raw.operations);
      Evidence(
        if last.Some? && last.value.terminal in {ProviderTerminal, ProviderCompleted} then OriginalSuccess else QuiescentFailure,
        Some(ReceiptDigest(raw)), raw.operations)
  }

  /** The receipt that the journal check makes up from a stored decision. */
  function Rebuilt(id: string, p: Policy, operations: seq<Operation>): RawReceipt
    requires p.RouterPolicy?
  {
    Known(id, p.authority.boot, p.authority.generation, p.revision, p.routerModel, LocalEof, true, true, operations)
  }

  /** Stored operations re-classify to the disposition they were stored with, whatever the original
      receipt said about the local stop. */
  lemma Reclassifies(raw: RawReceipt, id: string, p: Policy)
    requires Classify(raw, id, p).disposition != PendingOrUnknown
    ensures p.RouterPolicy?
    ensures var e := Classify(raw, id, p);
            && Classify(Rebuilt(id, p, e.operations), id, p).disposition == e.disposition
            && e.receiptDigest.Some? && |e.operations| <= MAX_OPERATIONS
  {
    var rebuilt := Rebuilt(id, p, raw.operations);
    forall i | 0 <= i < |raw.operations| ensures OperationFits(raw.operations[i], i, rebuilt, p) {
      assert OperationFits(raw.operations[i], i, raw, p);
    }
  }

  /** A receipt proves success exactly when its own last non-refresh operation completed; one operation
      left unknown, or a handler still running, keeps the request pending. */
  lemma SuccessMeansLastOriginalCompleted(raw: RawReceipt, id: string, p: Policy)
    requires Consistent(raw, id, p)
    ensures Classify(raw, id, p).disposition == OriginalSuccess <==>
            raw.handlerDone && AllTerminal(raw.operations) &&
            exists k :: && 0 <= k < |raw.operations|
                        && raw.operations[k].terminal in {ProviderTerminal, ProviderCompleted}
                        && forall j | k < j < |raw.operations| :: raw.operations[j].model == CREDENTIAL_REFRESH
    ensures Classify(raw, id, p).disposition == PendingOrUnknown <==> !(raw.handlerDone && AllTerminal(raw.operations))
    ensures Classify(raw, id, p).disposition != PendingOrUnknown ==>
              Classify(raw, id, p).receiptDigest == Some(ReceiptDigest(raw)) && Classify(raw, id, p).operations == raw.operations
  {
    LastOriginalIsLast(raw.operations);
    forall i | 0 <= i < |raw.operations| ensures TerminalFits(raw.operations[i]) {
      assert OperationFits(raw.operations[i], i, raw, p);
    }
  }

  lemma {:induction false} LastOriginalIsLast(operations: seq<Operation>)
    ensures LastOriginal(operations).None? ==> forall j | 0 <= j < |operations| :: operations[j].model == CREDENTIAL_REFRESH
    ensures LastOriginal(operations).Some? ==>
              exists k :: && 0 <= k < |operations| && LastOriginal(operations) == Some(operations[k])
                          && operations[k].model != CREDENTIAL_REFRESH
                          && forall j | k < j < |operations| :: operations[j].model == CREDENTIAL_REFRESH
  {
    if |operations| > 0 {
      var init := operations[..|operations| - 1];
      LastOriginalIsLast(init);
      if operations[|operations| - 1].model == CREDENTIAL_REFRESH && LastOriginal(init).Some? {
        var k :| 0 <= k < |init| && LastOriginal(init) == Some(init[k]) && init[k].model != CREDENTIAL_REFRESH
                 && forall j | k < j < |init| :: init[j].model == CREDENTIAL_REFRESH;
        assert operations[k] == init[k];
      }
    }
  }
}
