/** Service and dependency metric attributes: a priority table over a span's attributes. */
module MetricAttributes {
  import opened Wrappers
  import opened Delimiters
  import opened SpanProcessing

  type Entries = map<MetricKey, string>

  // ---------- Remote service and operation ----------

  function TextOr(s: SpanView, key: SpanKey, default: string): string { Get(s, key).GetOr(default) }

  function RemoteServiceAt(s: SpanView, key: SpanKey): string { TextOr(s, key, UNKNOWN_REMOTE_SERVICE) }

  function RemoteOperationAt(s: SpanView, key: SpanKey): string { TextOr(s, key, UNKNOWN_REMOTE_OPERATION) }

  predicate IsLambdaInvoke(s: SpanView) {
    IsAwsSdkSpan(s) && Get(s, RpcService) == Some("Lambda") && Get(s, RpcMethod) == Some("Invoke")
  }

  function NormalizedSdkService(name: string): Option<string> {
    if name == "Bedrock Agent" || name == "Bedrock Agent Runtime" then Some("AWS::Bedrock")
    else if name == "Bedrock Runtime" then Some("AWS::BedrockRuntime")
    else if name == "Bedrock AgentCore Control" || name == "Bedrock AgentCore" then Some("AWS::BedrockAgentCore")
    else if name == "Secrets Manager" then Some("AWS::SecretsManager")
    else if name == "SNS" then Some("AWS::SNS")
    else if name == "SFN" then Some("AWS::StepFunctions")
    else if name == "Lambda" then Some("AWS::Lambda")
    else None
  }

  function NormalizedService(s: SpanView, name: string): string {
    if !IsAwsSdkSpan(s) then name
    else if IsLambdaInvoke(s) then
      if Truthy(s, AwsLambdaFunctionName) then Get(s, AwsLambdaFunctionName).value else UNKNOWN_REMOTE_SERVICE
    else NormalizedSdkService(name).GetOr("AWS::" + name)
  }

  function DbStatementOperation(w: World, s: SpanView): string {
    if Has(s, DbStatement) then w.sqlKeyword(Get(s, DbStatement).value).GetOr(UNKNOWN_REMOTE_OPERATION)
    else UNKNOWN_REMOTE_OPERATION
  }

  function GeneratedRemoteService(w: World, s: SpanView): string {
    if Has(s, NetPeerName) then WithPort(s, NetPeerName, NetPeerPort)
    else if Has(s, NetSockPeerAddr) then WithPort(s, NetSockPeerAddr, NetSockPeerPort)
    else if Truthy(s, HttpUrl) && w.urlNetloc(Get(s, HttpUrl).value) != "" then w.urlNetloc(Get(s, HttpUrl).value)
    else UNKNOWN_REMOTE_SERVICE
  }

  function WithPort(s: SpanView, key: SpanKey, port: PortKey): string
    requires Has(s, key)
  {
    Get(s, key).value + if GetPort(s, port).Some? then ":" + IntText(GetPort(s, port).value) else ""
  }

  function GeneratedRemoteOperation(w: World, s: SpanView): string {
    (if Has(s, HttpMethod) then Get(s, HttpMethod).value + " " else "")
    + (if Has(s, HttpUrl) then ApiPathValue(w.urlPath(Get(s, HttpUrl).value)) else UNKNOWN_REMOTE_OPERATION)
  }

  datatype Remote = Remote(service: string, operation: string)

  function ConventionalRemote(w: World, s: SpanView): Remote {
    if GetMetric(s, AwsRemoteService).Some? || GetMetric(s, AwsRemoteOperation).Some? then
      Remote(GetMetric(s, AwsRemoteService).GetOr(UNKNOWN_REMOTE_SERVICE),
             GetMetric(s, AwsRemoteOperation).GetOr(UNKNOWN_REMOTE_OPERATION))
    else if Has(s, RpcService) || Has(s, RpcMethod) then
      Remote(NormalizedService(s, RemoteServiceAt(s, RpcService)), RemoteOperationAt(s, RpcMethod))
    else if IsDbSpan(s) then
      Remote(RemoteServiceAt(s, DbSystem),
             if Has(s, DbOperation) then Get(s, DbOperation).value else DbStatementOperation(w, s))
    else if Has(s, FaasInvokedName) || Has(s, FaasTrigger) then
      Remote(RemoteServiceAt(s, FaasInvokedName), RemoteOperationAt(s, FaasTrigger))
    else if Has(s, MessagingSystem) || Has(s, MessagingOperation) then
      Remote(RemoteServiceAt(s, MessagingSystem), RemoteOperationAt(s, MessagingOperation))
    else if Has(s, GraphqlOperationType) then Remote("graphql", Get(s, GraphqlOperationType).value)
    else Remote(UNKNOWN_REMOTE_SERVICE, UNKNOWN_REMOTE_OPERATION)
  }

  function RemoteOf(w: World, s: SpanView): Remote {
    var r := ConventionalRemote(w, s);
    var byPeer := Has(s, PeerService) && GetMetric(s, AwsRemoteService).None?;
    var service := if byPeer then Get(s, PeerService).value else r.service;
    Remote(if service == UNKNOWN_REMOTE_SERVICE then GeneratedRemoteService(w, s) else service,
           if r.operation == UNKNOWN_REMOTE_OPERATION then GeneratedRemoteOperation(w, s) else r.operation)
  }

  // ---------- The order of the conventions ----------

  /** Whether a convention names the remote: RPC, then database, FaaS, messaging, GraphQL; none of them, at last. */
  predicate Names(s: SpanView, convention: nat) {
    if convention == 0 then Has(s, RpcService) || Has(s, RpcMethod)
    else if convention == 1 then IsDbSpan(s)
    else if convention == 2 then Has(s, FaasInvokedName) || Has(s, FaasTrigger)
    else if convention == 3 then Has(s, MessagingSystem) || Has(s, MessagingOperation)
    else convention > 4 || Has(s, GraphqlOperationType)
  }

  /** The attributes a convention reads. */
  predicate ReadBy(convention: nat, key: SpanKey) {
    if convention == 0 then
      key.RpcService? || key.RpcMethod? || key.RpcSystem? || key.AwsLambdaFunctionName?
    else if convention == 1 then key.DbSystem? || key.DbOperation? || key.DbStatement?
    else if convention == 2 then key.FaasInvokedName? || key.FaasTrigger?
    else if convention == 3 then key.MessagingSystem? || key.MessagingOperation?
    else key.GraphqlOperationType?
  }

  function FirstConvention(s: SpanView, from: nat): (convention: nat)
    requires from <= 5
    ensures from <= convention <= 5 && Names(s, convention)
    ensures forall c | from <= c < convention :: !Names(s, c)
    decreases 5 - from
  {
    if from == 5 || Names(s, from) then from else FirstConvention(s, from + 1)
  }

  predicate HasAwsRemote(s: SpanView) { GetMetric(s, AwsRemoteService).Some? || GetMetric(s, AwsRemoteOperation).Some? }

  /** Two spans alike in AWS remote names and, without those, in all that conventions up to the given one read. */
  ghost predicate AlikeUpTo(s: SpanView, t: SpanView, convention: nat) {
    && GetMetric(t, AwsRemoteService) == GetMetric(s, AwsRemoteService)
    && GetMetric(t, AwsRemoteOperation) == GetMetric(s, AwsRemoteOperation)
    && (!HasAwsRemote(s) ==>
          forall c: nat, key {:trigger ReadBy(c, key)} | c <= convention && ReadBy(c, key) ::
            Get(t, key) == Get(s, key))
  }

  lemma AlikeNamesAlike(s: SpanView, t: SpanView, convention: nat, c: nat)
    requires AlikeUpTo(s, t, convention) && !HasAwsRemote(s) && c <= convention
    ensures Names(t, c) == Names(s, c)
  {
    assert ReadBy(0, RpcService) && ReadBy(0, RpcMethod) && ReadBy(1, DbSystem) && ReadBy(1, DbOperation)
        && ReadBy(1, DbStatement) && ReadBy(2, FaasInvokedName) && ReadBy(2, FaasTrigger) && ReadBy(3, MessagingSystem)
        && ReadBy(3, MessagingOperation) && ReadBy(4, GraphqlOperationType);
  }

  /**
    The first convention that names a remote decides: attributes of lower conventions, whatever they are, change
    nothing, and AWS remote names come before all conventions.
   */
  lemma LowerConventionsDoNotMatter(w: World, s: SpanView, t: SpanView)
    requires AlikeUpTo(s, t, FirstConvention(s, 0))
    ensures ConventionalRemote(w, t) == ConventionalRemote(w, s)
  {
    if !HasAwsRemote(s) {
      var convention := FirstConvention(s, 0);
      forall c: nat | c <= convention
        ensures Names(t, c) == Names(s, c)
      {
        AlikeNamesAlike(s, t, convention, c);
      }
      assert Names(s, 0) == Names(t, 0);
      assert ReadBy(0, RpcService) && ReadBy(0, RpcMethod) && ReadBy(0, RpcSystem) && ReadBy(0, AwsLambdaFunctionName);
      assert ReadBy(1, DbSystem) && ReadBy(1, DbOperation) && ReadBy(1, DbStatement);
      assert ReadBy(2, FaasInvokedName) && ReadBy(2, FaasTrigger);
      assert ReadBy(3, MessagingSystem) && ReadBy(3, MessagingOperation) && ReadBy(4, GraphqlOperationType);
    }
  }

  /** The names before anything is derived from addresses. */
  function NamedRemote(w: World, s: SpanView): Remote {
    var r := ConventionalRemote(w, s);
    if Has(s, PeerService) && GetMetric(s, AwsRemoteService).None? then r.(service := Get(s, PeerService).value) else r
  }

  predicate IsKnown(r: Remote) { r.service != UNKNOWN_REMOTE_SERVICE && r.operation != UNKNOWN_REMOTE_OPERATION }

  /** When these are known, nothing but the peer service and the deciding conventions matters to the remote. */
  lemma KnownRemoteIgnoresTheRest(w: World, s: SpanView, t: SpanView)
    requires AlikeUpTo(s, t, FirstConvention(s, 0)) && Get(t, PeerService) == Get(s, PeerService)
    requires IsKnown(NamedRemote(w, s))
    ensures RemoteOf(w, t) == RemoteOf(w, s) == NamedRemote(w, s)
  {
    LowerConventionsDoNotMatter(w, s, t);
    assert NamedRemote(w, t) == NamedRemote(w, s);
  }

  // ---------- Remote resource ----------

  /** A resource as found: some parts may be missing. */
  datatype Found = Found(type_: Option<string>, id: Option<string>, cfnId: Option<string>)

  datatype Resource = Resource(type_: string, id: string, cfnId: string)

  function Escaped(text: Option<string>): Option<string> {
    if text.Some? then Some(EscapeDelimiters(text.value)) else None
  }

  function Of(type_: string, id: Option<string>, cfnId: Option<string>): Found {
    Found(Some(type_), Escaped(id), Escaped(cfnId))
  }

  const NOTHING := Found(None, None, None)

  function IdOrFromArn(w: World, s: SpanView, id: SpanKey, arn: SpanKey): Option<string> {
    if Truthy(s, id) then Get(s, id) else if Truthy(s, arn) then w.arnAgentCoreId(Get(s, arn).value) else None
  }

  function BrowserResource(w: World, s: SpanView): Found {
    if Truthy(s, GenAiBrowserId) || Truthy(s, AgentCoreBrowserArn) then
      var id := IdOrFromArn(w, s, GenAiBrowserId, AgentCoreBrowserArn);
      Found(Some(if id == Some("aws.browser.v1") then "Browser" else "BrowserCustom"), id, id)
    else NOTHING
  }

  function GatewayResource(w: World, s: SpanView): Found {
    var known := Truthy(s, GenAiGatewayId) || Truthy(s, AgentCoreGatewayArn);
    var id := IdOrFromArn(w, s, GenAiGatewayId, AgentCoreGatewayArn);
    if Truthy(s, AgentCoreGatewayTargetId) then
      var target := if known then id else Get(s, AgentCoreGatewayTargetId);
      Found(Some("GatewayTarget"), target, target)
    else if known then Found(Some("Gateway"), id, id)
    else NOTHING
  }

  function RuntimeResource(w: World, s: SpanView): Found {
    if Truthy(s, AgentCoreRuntimeEndpointArn) then
      var arn := Get(s, AgentCoreRuntimeEndpointArn);
      Found(Some("RuntimeEndpoint"), w.arnAgentCoreId(arn.value), arn)
    else if Truthy(s, AgentCoreRuntimeArn) || Truthy(s, GenAiRuntimeId) then
      var id := IdOrFromArn(w, s, GenAiRuntimeId, AgentCoreRuntimeArn);
      Found(Some("Runtime"), id, id)
    else NOTHING
  }

  function CodeInterpreterResource(w: World, s: SpanView): Found {
    if Truthy(s, GenAiCodeInterpreterId) || Truthy(s, AgentCoreCodeInterpreterArn) then
      var id := IdOrFromArn(w, s, GenAiCodeInterpreterId, AgentCoreCodeInterpreterArn);
      Found(Some(if id == Some("aws.codeinterpreter.v1") then "CodeInterpreter" else "CodeInterpreterCustom"), id, id)
    else NOTHING
  }

  function IdentityResource(w: World, s: SpanView): Found {
    if Truthy(s, AwsAuthCredentialProvider) && Truthy(s, RpcMethod) then
      var provider, method_ := Get(s, AwsAuthCredentialProvider).value, w.lower(Get(s, RpcMethod).value);
      var fromArn := w.arnAgentCoreId(provider);
      var id := if fromArn.GetOr("") != "" then fromArn else Some(provider);
      if Contains(method_, "apikey") then Found(Some("APIKeyCredentialProvider"), id, id)
      else if Contains(method_, "oauth2") then Found(Some("OAuth2CredentialProvider"), id, id)
      else NOTHING
    else NOTHING
  }

  function MemoryResource(w: World, s: SpanView): Found {
    if Truthy(s, GenAiMemoryId) || Truthy(s, AgentCoreMemoryArn) then
      Found(Some("Memory"), IdOrFromArn(w, s, GenAiMemoryId, AgentCoreMemoryArn),
            if Truthy(s, AgentCoreMemoryArn) then Get(s, AgentCoreMemoryArn) else None)
    else NOTHING
  }

  function NotEmpty(text: Option<string>): Option<string> { if text.GetOr("") != "" then text else None }

  function AgentCoreHandler(w: World, s: SpanView, i: nat): Found
    requires i < 6
  {
    if i == 0 then BrowserResource(w, s)
    else if i == 1 then GatewayResource(w, s)
    else if i == 2 then RuntimeResource(w, s)
    else if i == 3 then CodeInterpreterResource(w, s)
    else if i == 4 then IdentityResource(w, s)
    else MemoryResource(w, s)
  }

  /** The first handler that knows the resource. */
  function AgentCoreFrom(w: World, s: SpanView, i: nat): Found
    requires i <= 6
    decreases 6 - i
  {
    if i == 6 then NOTHING
    else
      var f := AgentCoreHandler(w, s, i);
      if f.type_.Some? then Found(Some("AWS::BedrockAgentCore::" + f.type_.value), f.id, f.cfnId)
      else AgentCoreFrom(w, s, i + 1)
  }

  function AgentCoreResource(w: World, s: SpanView): Found {
    var f := AgentCoreFrom(w, s, 0);
    Found(f.type_, Escaped(NotEmpty(f.id)), Escaped(NotEmpty(f.cfnId)))
  }

  predicate IsAgentCore(s: SpanView) {
    Has(s, RpcService) && NormalizedSdkService(Get(s, RpcService).value) == Some("AWS::BedrockAgentCore")
  }

  /** No resource attribute that is asked before the data source. */
  predicate ReachesDataSource(s: SpanView) {
    && IsAwsSdkSpan(s) && !(s.attributes.tableNames.Some? && |s.attributes.tableNames.value| == 1)
    && !Has(s, AwsDynamoDbTableArn) && !Has(s, AwsKinesisStreamName) && !Has(s, AwsKinesisStreamArn)
    && !Has(s, AwsS3Bucket) && !Has(s, AwsSqsQueueName) && !Has(s, AwsSqsQueueUrl) && !Has(s, AwsBedrockAgentId)
    && Has(s, AwsBedrockDataSourceId)
  }

  function ArnResource(s: SpanView, type_: string, key: SpanKey, parse: string -> Option<string>): Found
    requires Has(s, key)
  {
    Of(type_, parse(Get(s, key).value), Get(s, key))
  }

  /** Resources asked last. */
  function LastResource(w: World, s: SpanView): Found {
    if Has(s, AwsSecretArn) then ArnResource(s, "AWS::SecretsManager::Secret", AwsSecretArn, w.arnName)
    else if Has(s, AwsSnsTopicArn) then ArnResource(s, "AWS::SNS::Topic", AwsSnsTopicArn, w.arnName)
    else if Has(s, AwsStateMachineArn) then
      ArnResource(s, "AWS::StepFunctions::StateMachine", AwsStateMachineArn, w.arnName)
    else if Has(s, AwsActivityArn) then ArnResource(s, "AWS::StepFunctions::Activity", AwsActivityArn, w.arnName)
    else if Has(s, AwsLambdaFunctionName) then
      if IsLambdaInvoke(s) then NOTHING
      else Of("AWS::Lambda::Function", Get(s, AwsLambdaFunctionName), Get(s, AwsLambdaFunctionArn))
    else if Has(s, AwsLambdaResourceMappingId) then
      Of("AWS::Lambda::EventSourceMapping", Get(s, AwsLambdaResourceMappingId), None)
    else NOTHING
  }

  function LaterResource(w: World, s: SpanView): Found {
    if IsAgentCore(s) then AgentCoreResource(w, s) else LastResource(w, s)
  }

  function DataSourceResource(s: SpanView): Result<Found, Error>
    requires Has(s, AwsBedrockDataSourceId)
  {
    if !Has(s, AwsBedrockKnowledgeBaseId) then Failure(MissingKnowledgeBase)
    else
      var id := EscapeDelimiters(Get(s, AwsBedrockDataSourceId).value);
      Success(Found(Some("AWS::Bedrock::DataSource"), Some(id),
                    Some(EscapeDelimiters(Get(s, AwsBedrockKnowledgeBaseId).value) + "|" + id)))
  }

  /** Bedrock resources, asked after the ones of storage and queues. */
  function BedrockResource(w: World, s: SpanView): Result<Found, Error> {
    if Has(s, AwsBedrockAgentId) then Success(Of("AWS::Bedrock::Agent", Get(s, AwsBedrockAgentId), None))
    else if Has(s, AwsBedrockDataSourceId) then DataSourceResource(s)
    else if Has(s, AwsBedrockGuardrailId) then
      Success(Of("AWS::Bedrock::Guardrail", Get(s, AwsBedrockGuardrailId), Get(s, AwsBedrockGuardrailArn)))
    else if Has(s, AwsBedrockKnowledgeBaseId) then
      Success(Of("AWS::Bedrock::KnowledgeBase", Get(s, AwsBedrockKnowledgeBaseId), None))
    else if Has(s, GenAiRequestModel) then Success(Of("AWS::Bedrock::Model", Get(s, GenAiRequestModel), None))
    else Success(LaterResource(w, s))
  }

  function SdkResource(w: World, s: SpanView): Result<Found, Error> {
    if s.attributes.tableNames.Some? && |s.attributes.tableNames.value| == 1 then
      Success(Of("AWS::DynamoDB::Table", Some(s.attributes.tableNames.value[0]), None))
    else if Has(s, AwsDynamoDbTableArn) then
      Success(Of("AWS::DynamoDB::Table", w.arnTable(Get(s, AwsDynamoDbTableArn).value), None))
    else if Has(s, AwsKinesisStreamName) then Success(Of("AWS::Kinesis::Stream", Get(s, AwsKinesisStreamName), None))
    else if Has(s, AwsKinesisStreamArn) then
      Success(Of("AWS::Kinesis::Stream", w.arnStream(Get(s, AwsKinesisStreamArn).value), None))
    else if Has(s, AwsS3Bucket) then Success(Of("AWS::S3::Bucket", Get(s, AwsS3Bucket), None))
    else if Has(s, AwsSqsQueueName) then Success(Of("AWS::SQS::Queue", Get(s, AwsSqsQueueName), Get(s, AwsSqsQueueUrl)))
    else if Has(s, AwsSqsQueueUrl) then
      Success(Of("AWS::SQS::Queue", w.sqsQueueName(Get(s, AwsSqsQueueUrl).value), Get(s, AwsSqsQueueUrl)))
    else BedrockResource(w, s)
  }

  // ---------- Database connections ----------

  /** Ports of zero are not shown. */
  function EndpointAt(s: SpanView, address: SpanKey, port: PortKey): Endpoint
    requires Has(s, address)
  {
    Endpoint(Get(s, address).value, if GetPort(s, port).GetOr(0) != 0 then GetPort(s, port) else None)
  }

  function DbEndpoint(w: World, s: SpanView): Option<Endpoint> {
    if Has(s, ServerAddress) then Some(EndpointAt(s, ServerAddress, ServerPort))
    else if Has(s, NetPeerName) then Some(EndpointAt(s, NetPeerName, NetPeerPort))
    else if Has(s, ServerSocketAddress) then Some(EndpointAt(s, ServerSocketAddress, ServerSocketPort))
    else if Has(s, DbConnectionString) then
      var text := Get(s, DbConnectionString).value;
      if w.urlHost(text).None? then None
      else Some(Endpoint(w.urlHost(text).value, if w.urlPort(text) == Some(-1) then None else w.urlPort(text)))
    else None
  }

  function DbConnection(w: World, s: SpanView): Option<string> {
    var endpoint := DbEndpoint(w, s);
    if endpoint.None? then None else Some(DbConnectionId(Get(s, DbName), endpoint.value))
  }

  // ---------- The two sets of attributes ----------

  function FoundResource(w: World, s: SpanView): Result<Found, Error> {
    if IsAwsSdkSpan(s) then SdkResource(w, s)
    else if IsDbSpan(s) then Success(Found(Some("DB::Connection"), DbConnection(w, s), None))
    else Success(NOTHING)
  }

  /** A resource is only named with its type and identifier; the primary identifier is the identifier unless found. */
  function Completed(f: Found): Option<Resource> {
    if f.type_.Some? && f.id.Some? then Some(Resource(f.type_.value, f.id.value, f.cfnId.GetOr(f.id.value))) else None
  }

  const ARN_KEYS := [AwsDynamoDbTableArn, AwsKinesisStreamArn, AwsSnsTopicArn, AwsSecretArn, AwsStateMachineArn,
                     AwsActivityArn, AwsBedrockGuardrailArn, AwsLambdaFunctionArn]

  function FirstArn(s: SpanView, keys: seq<SpanKey>): Option<string> {
    if keys == [] then None else if Has(s, keys[0]) then Get(s, keys[0]) else FirstArn(s, keys[1..])
  }

  datatype Place = Place(account: Option<string>, region: Option<string>)

  function PlaceOf(w: World, s: SpanView): Place {
    if Has(s, AwsSqsQueueUrl) then
      var url := EscapeDelimiters(Get(s, AwsSqsQueueUrl).value);
      Place(w.sqsAccount(url), w.sqsRegion(url))
    else
      var arn := FirstArn(s, ARN_KEYS);
      if arn.None? then Place(None, None) else Place(w.arnAccount(arn.value), w.arnRegion(arn.value))
  }

  function ServiceName(w: World): string {
    if w.serviceName.None? || "unknown_service" <= w.serviceName.value then UNKNOWN_SERVICE else w.serviceName.value
  }

  function KindName(kind: SpanKind): string {
    match kind
    case INTERNAL => "INTERNAL"
    case SERVER => "SERVER"
    case CLIENT => "CLIENT"
    case PRODUCER => "PRODUCER"
    case CONSUMER => "CONSUMER"
  }

  function RemoteEnvironmentOf(w: World, s: SpanView): Option<string> {
    if IsLambdaInvoke(s) then Some("lambda:" + if w.remoteEnvironment == "" then "default" else w.remoteEnvironment)
    else None
  }

  function SignerOf(s: SpanView): Place { Place(Get(s, AwsAuthAccessKey), Get(s, AwsAuthRegion)) }

  /** What the service attributes say. */
  datatype Service = Service(service: string, operation: string, kind: string)

  /** What the dependency attributes say. */
  datatype Dependency = Dependency(
    service: string, operation: string, remote: Remote, resource: Option<Resource>, place: Place, signer: Place,
    environment: Option<string>, dbUser: Option<string>, kind: string)

  function ServiceOf(w: World, s: SpanView): Result<Service, Error> {
    match IngressOperation(w, s)
    case Failure(e) => Failure(e)
    case Success(operation) =>
      Success(Service(ServiceName(w), operation, if IsLocalRoot(s) then LOCAL_ROOT else KindName(s.kind)))
  }

  function DependencyOf(w: World, s: SpanView): Result<Dependency, Error> {
    match FoundResource(w, s)
    case Failure(e) => Failure(e)
    case Success(f) =>
      Success(Dependency(ServiceName(w), EgressOperation(s).GetOr(UNKNOWN_OPERATION), RemoteOf(w, s), Completed(f),
                         PlaceOf(w, s), SignerOf(s), RemoteEnvironmentOf(w, s),
                         if IsDbSpan(s) then Get(s, DbUser) else None, KindName(s.kind)))
  }

  // ---------- Writing them out ----------

  function PutIf(d: Entries, key: MetricKey, text: Option<string>): Entries {
    if text.Some? then d[key := text.value] else d
  }

  function ServiceEntries(v: Service): Entries {
    map[AwsLocalService := v.service][AwsLocalOperation := v.operation][AwsSpanKind := v.kind]
  }

  predicate PlaceIsKnown(p: Place) { p.account.Some? && p.region.Some? }

  /** The account and region of a resource if both are known, and otherwise what the caller signs with. */
  function PutPlace(d: Entries, place: Place, signer: Place): Entries {
    if PlaceIsKnown(place) then
      d[AwsRemoteResourceAccountId := place.account.value][AwsRemoteResourceRegion := place.region.value]
    else PutIf(PutIf(d, AwsRemoteResourceAccessKey, signer.account), AwsRemoteResourceRegion, signer.region)
  }

  function PutResource(d: Entries, r: Resource): Entries {
    d[AwsRemoteResourceType := r.type_][AwsRemoteResourceIdentifier := r.id]
     [AwsCloudFormationPrimaryIdentifier := r.cfnId]
  }

  function DependencyEntries(v: Dependency): Entries {
    var named := map[AwsLocalService := v.service][AwsLocalOperation := v.operation]
                    [AwsRemoteService := v.remote.service][AwsRemoteOperation := v.remote.operation];
    var placed := if v.resource.Some? then PutPlace(PutResource(named, v.resource.value), v.place, v.signer) else named;
    PutIf(PutIf(placed, AwsRemoteEnvironment, v.environment), AwsRemoteDbUser, v.dbUser)[AwsSpanKind := v.kind]
  }

  datatype Generated = Generated(service: Option<Entries>, dependency: Option<Entries>)

  function Generate(w: World, s: SpanView): Result<Generated, Error> {
    if GeneratesService(w, s) && ServiceOf(w, s).Failure? then Failure(ServiceOf(w, s).error)
    else if GeneratesDependency(w, s) && DependencyOf(w, s).Failure? then Failure(DependencyOf(w, s).error)
    else
      Success(Generated(if GeneratesService(w, s) then Some(ServiceEntries(ServiceOf(w, s).value)) else None,
                        if GeneratesDependency(w, s) then Some(DependencyEntries(DependencyOf(w, s).value)) else None))
  }

  // ---------- Properties ----------

  predicate MissesKnowledgeBase(s: SpanView) { ReachesDataSource(s) && !Has(s, AwsBedrockKnowledgeBaseId) }

  lemma DependencyFailsExactly(w: World, s: SpanView)
    ensures DependencyOf(w, s).Failure? <==> MissesKnowledgeBase(s)
  {
  }

  /** Generating raises exactly for a data source without knowledge base, or in Lambda without a scope. */
  lemma GenerateFailsExactly(w: World, s: SpanView)
    ensures Generate(w, s).Failure? <==>
              || (GeneratesDependency(w, s) && MissesKnowledgeBase(s))
              || (GeneratesService(w, s) && w.lambdaFunctionName.Some? && s.scope.None?)
  {
    DependencyFailsExactly(w, s);
  }

  /** What each key should hold, key by key. */
  function Expected(v: Dependency, key: MetricKey): Option<string> {
    var located := v.resource.Some? && PlaceIsKnown(v.place);
    match key
    case AwsLocalService => Some(v.service)
    case AwsLocalOperation => Some(v.operation)
    case AwsRemoteService => Some(v.remote.service)
    case AwsRemoteOperation => Some(v.remote.operation)
    case AwsRemoteEnvironment => v.environment
    case AwsRemoteDbUser => v.dbUser
    case AwsSpanKind => Some(v.kind)
    case AwsRemoteResourceType => if v.resource.Some? then Some(v.resource.value.type_) else None
    case AwsRemoteResourceIdentifier => if v.resource.Some? then Some(v.resource.value.id) else None
    case AwsCloudFormationPrimaryIdentifier => if v.resource.Some? then Some(v.resource.value.cfnId) else None
    case AwsRemoteResourceAccountId => if located then v.place.account else None
    case AwsRemoteResourceAccessKey => if v.resource.Some? && !located then v.signer.account else None
    case AwsRemoteResourceRegion =>
      if located then v.place.region else if v.resource.Some? then v.signer.region else None
  }

  lemma ResourceHolds(d: Entries, r: Resource, place: Place, signer: Place, key: MetricKey)
    ensures var all := PutPlace(PutResource(d, r), place, signer);
            At(all, key) ==
            if key == AwsRemoteResourceRegion && PlaceIsKnown(place) then place.region
            else if key == AwsRemoteResourceRegion && signer.region.Some? then signer.region
            else if key == AwsRemoteResourceAccountId && PlaceIsKnown(place) then place.account
            else if key == AwsRemoteResourceAccessKey && !PlaceIsKnown(place) && signer.account.Some? then
              signer.account
            else if key == AwsRemoteResourceType then Some(r.type_)
            else if key == AwsRemoteResourceIdentifier then Some(r.id)
            else if key == AwsCloudFormationPrimaryIdentifier then Some(r.cfnId)
            else At(d, key)
  {
  }

  /** No part of the dependency attributes overwrites another, and nothing else is written. */
  lemma DependencyEntriesHold(v: Dependency, key: MetricKey)
    ensures At(DependencyEntries(v), key) == Expected(v, key)
  {
    var named := map[AwsLocalService := v.service][AwsLocalOperation := v.operation]
                    [AwsRemoteService := v.remote.service][AwsRemoteOperation := v.remote.operation];
    if v.resource.Some? {
      ResourceHolds(named, v.resource.value, v.place, v.signer, key);
    }
  }

  /** The primary identifier of a data source determines knowledge base and data source. */
  lemma DataSourceIsDetermined(w: World, s: SpanView, t: SpanView)
    requires ReachesDataSource(s) && ReachesDataSource(t)
    requires Has(s, AwsBedrockKnowledgeBaseId) && Has(t, AwsBedrockKnowledgeBaseId)
    ensures FoundResource(w, s).value.cfnId == FoundResource(w, t).value.cfnId <==>
              && Get(s, AwsBedrockKnowledgeBaseId) == Get(t, AwsBedrockKnowledgeBaseId)
              && Get(s, AwsBedrockDataSourceId) == Get(t, AwsBedrockDataSourceId)
  {
    IdentifiersDetermineParts(Get(s, AwsBedrockKnowledgeBaseId).value, Get(s, AwsBedrockDataSourceId).value,
                              Get(t, AwsBedrockKnowledgeBaseId).value, Get(t, AwsBedrockDataSourceId).value);
  }

  lemma ServiceAmongDependency(v: Service, d: Dependency)
    requires v.service == d.service
    ensures (forall key | key in ServiceEntries(v) && key != AwsSpanKind ::
               At(DependencyEntries(d), key) == At(ServiceEntries(v), key)) <==> v.operation == d.operation
    ensures At(ServiceEntries(v), AwsSpanKind) == Some(v.kind)
  {
    DependencyEntriesHold(d, AwsLocalService);
    DependencyEntriesHold(d, AwsLocalOperation);
    var service := ServiceEntries(v);
    assert service.Keys == {AwsLocalOperation, AwsLocalService, AwsSpanKind};
    assert At(service, AwsLocalService) == Some(v.service) && At(service, AwsLocalOperation) == Some(v.operation);
  }

  /**
    The service attributes of a span generating both kinds are among its dependency attributes, but for the span kind,
    exactly when it does not name a Lambda handler.
   */
  lemma ServiceWithinDependency(w: World, s: SpanView)
    requires GeneratesService(w, s) && GeneratesDependency(w, s) && Generate(w, s).Success?
    ensures var service, dependency := Generate(w, s).value.service.value, Generate(w, s).value.dependency.value;
            && At(service, AwsSpanKind) == Some(LOCAL_ROOT)
            && ((forall key | key in service && key != AwsSpanKind :: At(dependency, key) == At(service, key))
                <==> !NamesLambdaHandler(w, s))
  {
    OperationsAgree(w, s);
    ServiceAmongDependency(ServiceOf(w, s).value, DependencyOf(w, s).value);
  }

  // ---------- Generating from generated attributes ----------

  /** Two views of a span that may differ in generated attributes only. */
  ghost predicate SameButMetrics(s: SpanView, t: SpanView) {
    && t.kind == s.kind && t.name == s.name && t.parent == s.parent && t.scope == s.scope
    && t.attributes.ports == s.attributes.ports && t.attributes.tableNames == s.attributes.tableNames
    && forall key {:trigger Get(t, key)} :: Get(t, key) == Get(s, key)
  }

  lemma KindsIgnoreMetrics(w: World, s: SpanView, t: SpanView)
    requires SameButMetrics(s, t)
    ensures GeneratesService(w, t) == GeneratesService(w, s) && GeneratesDependency(w, t) == GeneratesDependency(w, s)
  {
  }

  lemma ServiceIgnoresMetrics(w: World, s: SpanView, t: SpanView)
    requires SameButMetrics(s, t)
    ensures ServiceOf(w, t) == ServiceOf(w, s)
  {
    assert IsValidOperation(t) == IsValidOperation(s);
    assert IngressOperation(w, t) == IngressOperation(w, s);
  }

  lemma BrowserIgnoresMetrics(w: World, s: SpanView, t: SpanView)
    requires SameButMetrics(s, t)
    ensures BrowserResource(w, t) == BrowserResource(w, s)
    ensures CodeInterpreterResource(w, t) == CodeInterpreterResource(w, s)
  {
  }

  lemma GatewayIgnoresMetrics(w: World, s: SpanView, t: SpanView)
    requires SameButMetrics(s, t)
    ensures GatewayResource(w, t) == GatewayResource(w, s) && RuntimeResource(w, t) == RuntimeResource(w, s)
  {
  }

  lemma MemoryIgnoresMetrics(w: World, s: SpanView, t: SpanView)
    requires SameButMetrics(s, t)
    ensures MemoryResource(w, t) == MemoryResource(w, s) && IdentityResource(w, t) == IdentityResource(w, s)
  {
  }

  lemma HandlersIgnoreMetrics(w: World, s: SpanView, t: SpanView)
    requires SameButMetrics(s, t)
    ensures forall i | 0 <= i < 6 :: AgentCoreHandler(w, t, i) == AgentCoreHandler(w, s, i)
  {
    BrowserIgnoresMetrics(w, s, t);
    GatewayIgnoresMetrics(w, s, t);
    MemoryIgnoresMetrics(w, s, t);
  }

  lemma {:induction false} AgentCoreIgnoresMetrics(w: World, s: SpanView, t: SpanView, i: nat)
    requires i <= 6 && forall j | i <= j < 6 :: AgentCoreHandler(w, t, j) == AgentCoreHandler(w, s, j)
    ensures AgentCoreFrom(w, t, i) == AgentCoreFrom(w, s, i)
    decreases 6 - i
  {
    if i < 6 {
      AgentCoreIgnoresMetrics(w, s, t, i + 1);
    }
  }

  lemma LastIgnoresMetrics(w: World, s: SpanView, t: SpanView)
    requires SameButMetrics(s, t)
    ensures LastResource(w, t) == LastResource(w, s)
  {
  }

  lemma {:induction false} AgentCoreResourceIgnoresMetrics(w: World, s: SpanView, t: SpanView)
    requires SameButMetrics(s, t)
    ensures AgentCoreResource(w, t) == AgentCoreResource(w, s)
  {
    HandlersIgnoreMetrics(w, s, t);
    AgentCoreIgnoresMetrics(w, s, t, 0);
  }

  lemma LaterIgnoresMetrics(w: World, s: SpanView, t: SpanView)
    requires SameButMetrics(s, t)
    ensures LaterResource(w, t) == LaterResource(w, s)
  {
    AgentCoreResourceIgnoresMetrics(w, s, t);
    LastIgnoresMetrics(w, s, t);
  }

  lemma DataSourceIgnoresMetrics(s: SpanView, t: SpanView)
    requires SameButMetrics(s, t) && Has(s, AwsBedrockDataSourceId) && Has(t, AwsBedrockDataSourceId)
    ensures DataSourceResource(t) == DataSourceResource(s)
  {
  }

  lemma BedrockIgnoresMetrics(w: World, s: SpanView, t: SpanView)
    requires SameButMetrics(s, t)
    ensures BedrockResource(w, t) == BedrockResource(w, s)
  {
    LaterIgnoresMetrics(w, s, t);
    assert Get(t, AwsBedrockDataSourceId) == Get(s, AwsBedrockDataSourceId);
    if Has(s, AwsBedrockDataSourceId) {
      DataSourceIgnoresMetrics(s, t);
    }
  }

  lemma SdkIgnoresMetrics(w: World, s: SpanView, t: SpanView)
    requires SameButMetrics(s, t)
    ensures SdkResource(w, t) == SdkResource(w, s)
  {
    BedrockIgnoresMetrics(w, s, t);
  }

  lemma EndpointIgnoresMetrics(w: World, s: SpanView, t: SpanView)
    requires SameButMetrics(s, t)
    ensures DbEndpoint(w, t) == DbEndpoint(w, s)
  {
  }

  lemma DbIgnoresMetrics(w: World, s: SpanView, t: SpanView)
    requires SameButMetrics(s, t)
    ensures DbConnection(w, t) == DbConnection(w, s)
  {
    EndpointIgnoresMetrics(w, s, t);
  }

  lemma ResourceIgnoresMetrics(w: World, s: SpanView, t: SpanView)
    requires SameButMetrics(s, t)
    ensures FoundResource(w, t) == FoundResource(w, s)
  {
    SdkIgnoresMetrics(w, s, t);
    DbIgnoresMetrics(w, s, t);
  }

  lemma {:induction false} FirstArnIgnoresMetrics(s: SpanView, t: SpanView, keys: seq<SpanKey>)
    requires SameButMetrics(s, t)
    ensures FirstArn(t, keys) == FirstArn(s, keys)
  {
    if keys != [] {
      FirstArnIgnoresMetrics(s, t, keys[1..]);
    }
  }

  /** The names found once are found again when they are given as AWS remote names. */
  lemma RemoteIsStable(w: World, s: SpanView, t: SpanView)
    requires SameButMetrics(s, t)
    requires GetMetric(t, AwsRemoteService) == Some(RemoteOf(w, s).service)
    requires GetMetric(t, AwsRemoteOperation) == Some(RemoteOf(w, s).operation)
    ensures RemoteOf(w, t) == RemoteOf(w, s)
  {
    assert GeneratedRemoteService(w, t) == GeneratedRemoteService(w, s);
    assert GeneratedRemoteOperation(w, t) == GeneratedRemoteOperation(w, s);
  }

  lemma PlaceIgnoresMetrics(w: World, s: SpanView, t: SpanView)
    requires SameButMetrics(s, t)
    ensures PlaceOf(w, t) == PlaceOf(w, s) && SignerOf(t) == SignerOf(s)
  {
    FirstArnIgnoresMetrics(s, t, ARN_KEYS);
  }

  lemma EgressIsStable(s: SpanView, t: SpanView)
    requires SameButMetrics(s, t)
    requires GetMetric(t, AwsLocalOperation) == Some(EgressOperation(s).GetOr(UNKNOWN_OPERATION))
    ensures EgressOperation(t).GetOr(UNKNOWN_OPERATION) == EgressOperation(s).GetOr(UNKNOWN_OPERATION)
  {
  }

  lemma DependencyIsStable(w: World, s: SpanView, t: SpanView)
    requires SameButMetrics(s, t) && DependencyOf(w, s).Success?
    requires GetMetric(t, AwsLocalOperation) == Some(DependencyOf(w, s).value.operation)
    requires GetMetric(t, AwsRemoteService) == Some(RemoteOf(w, s).service)
    requires GetMetric(t, AwsRemoteOperation) == Some(RemoteOf(w, s).operation)
    ensures DependencyOf(w, t) == DependencyOf(w, s)
  {
    ResourceIgnoresMetrics(w, s, t);
    RemoteIsStable(w, s, t);
    PlaceIgnoresMetrics(w, s, t);
    EgressIsStable(s, t);
  }
}
