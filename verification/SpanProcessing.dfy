/** Spans as the metric attribute generator reads them: kinds, local roots, and names of incoming operations. */
module SpanProcessing {
  import opened Sequences
  import opened Wrappers

  /** The keys of generated attributes. */
  datatype MetricKey =
    | AwsSpanKind | AwsLocalService | AwsLocalOperation
    | AwsRemoteService | AwsRemoteOperation | AwsRemoteEnvironment | AwsRemoteDbUser
    | AwsRemoteResourceType | AwsRemoteResourceIdentifier | AwsCloudFormationPrimaryIdentifier
    | AwsRemoteResourceAccountId | AwsRemoteResourceRegion | AwsRemoteResourceAccessKey

  /** The keys that are only read. */
  datatype SpanKey =
    | AwsConsumerParentSpanKind | AwsAuthAccessKey | AwsAuthRegion | AwsAuthCredentialProvider
    | AwsDynamoDbTableArn | AwsKinesisStreamName | AwsKinesisStreamArn | AwsS3Bucket | AwsSqsQueueName | AwsSqsQueueUrl
    | AwsBedrockAgentId | AwsBedrockDataSourceId | AwsBedrockKnowledgeBaseId
    | AwsBedrockGuardrailId | AwsBedrockGuardrailArn
    | AwsSecretArn | AwsSnsTopicArn | AwsStateMachineArn | AwsActivityArn
    | AwsLambdaFunctionName | AwsLambdaFunctionArn | AwsLambdaResourceMappingId
    | AgentCoreBrowserArn | AgentCoreGatewayArn | AgentCoreGatewayTargetId | AgentCoreRuntimeArn
    | AgentCoreRuntimeEndpointArn | AgentCoreCodeInterpreterArn | AgentCoreMemoryArn
    | GenAiBrowserId | GenAiGatewayId | GenAiRuntimeId | GenAiCodeInterpreterId | GenAiMemoryId | GenAiRequestModel
    | DbConnectionString | DbName | DbOperation | DbStatement | DbSystem | DbUser
    | FaasInvokedName | FaasTrigger | GraphqlOperationType | HttpMethod | HttpTarget | HttpUrl
    | MessagingOperation | MessagingSystem | NetPeerName | NetSockPeerAddr | PeerService
    | RpcMethod | RpcService | RpcSystem | ServerAddress | ServerSocketAddress

  datatype Key = Metric(metric: MetricKey) | Convention(span: SpanKey) | OtherKey(name: string)

  datatype PortKey = NetPeerPort | NetSockPeerPort | ServerPort | ServerSocketPort

  datatype SpanKind = INTERNAL | SERVER | CLIENT | PRODUCER | CONSUMER

  datatype Parent = Parent(isValid: bool, isRemote: bool)

  datatype Scope = Scope(name: Option<string>)

  /** A span's attributes, by the type of their values. */
  datatype Attributes = Attributes(text: map<Key, string>, ports: map<PortKey, int>, tableNames: Option<seq<string>>)

  datatype SpanView = SpanView(kind: SpanKind, name: Option<string>, parent: Option<Parent>, scope: Option<Scope>,
                               attributes: Attributes)

  /**
    What the generator asks of code and settings outside it: environment variables, the resource's service name,
    comparisons with upstream enumerations, and parsers of URLs, ARNs and SQL.
   */
  datatype World = World(
    lambdaFunctionName: Option<string>, remoteEnvironment: string, serviceName: Option<string>,
    isBoto3Sqs: string -> bool, isProcess: string -> bool, isConsumerKind: string -> bool, lower: string -> string,
    urlPath: string -> string, urlNetloc: string -> string,
    urlHost: string -> Option<string>, urlPort: string -> Option<int>,
    sqlKeyword: string -> Option<string>,
    arnAccount: string -> Option<string>, arnRegion: string -> Option<string>, arnName: string -> Option<string>,
    arnTable: string -> Option<string>, arnStream: string -> Option<string>, arnAgentCoreId: string -> Option<string>,
    sqsQueueName: string -> Option<string>, sqsAccount: string -> Option<string>, sqsRegion: string -> Option<string>)

  datatype Error = MissingScope | MissingKnowledgeBase

  const UNKNOWN_SERVICE := "UnknownService"
  const UNKNOWN_OPERATION := "UnknownOperation"
  const UNKNOWN_REMOTE_SERVICE := "UnknownRemoteService"
  const UNKNOWN_REMOTE_OPERATION := "UnknownRemoteOperation"
  const INTERNAL_OPERATION := "InternalOperation"
  const LOCAL_ROOT := "LOCAL_ROOT"
  const FLASK_SCOPE := "opentelemetry.instrumentation.flask"

  function At<K>(d: map<K, string>, key: K): Option<string> { if key in d then Some(d[key]) else None }

  function Get(s: SpanView, key: SpanKey): Option<string> { At(s.attributes.text, Convention(key)) }

  function GetMetric(s: SpanView, key: MetricKey): Option<string> { At(s.attributes.text, Metric(key)) }

  function GetPort(s: SpanView, key: PortKey): Option<int> {
    if key in s.attributes.ports then Some(s.attributes.ports[key]) else None
  }

  predicate Has(s: SpanView, key: SpanKey) { Get(s, key).Some? }

  /** Python's truth value of an attribute. */
  predicate Truthy(s: SpanView, key: SpanKey) { Get(s, key).GetOr("") != "" }

  predicate IsLocalRoot(s: SpanView) { s.parent.None? || !s.parent.value.isValid || s.parent.value.isRemote }

  predicate IsAwsSdkSpan(s: SpanView) { Get(s, RpcSystem) == Some("aws-api") }

  predicate IsDbSpan(s: SpanView) { Has(s, DbSystem) || Has(s, DbOperation) || Has(s, DbStatement) }

  predicate IsBoto3SqsSpan(w: World, s: SpanView) {
    s.scope.Some? && s.scope.value.name.Some? && w.isBoto3Sqs(s.scope.value.name.value)
  }

  predicate IsConsumerProcessSpan(w: World, s: SpanView) {
    s.kind == CONSUMER && Has(s, MessagingOperation) && w.isProcess(Get(s, MessagingOperation).value)
  }

  predicate IsDependencyConsumerSpan(w: World, s: SpanView) {
    if s.kind != CONSUMER then false
    else if IsConsumerProcessSpan(w, s) then
      IsLocalRoot(s)
      || !(Has(s, AwsConsumerParentSpanKind) && w.isConsumerKind(Get(s, AwsConsumerParentSpanKind).value))
    else true
  }

  predicate GeneratesService(w: World, s: SpanView) {
    (IsLocalRoot(s) && !IsBoto3SqsSpan(w, s)) || s.kind == SERVER
  }

  predicate GeneratesDependency(w: World, s: SpanView) {
    || s.kind == CLIENT
    || (s.kind == PRODUCER && !IsBoto3SqsSpan(w, s))
    || (IsDependencyConsumerSpan(w, s) && !IsBoto3SqsSpan(w, s))
  }

  predicate UsesInternalOperation(s: SpanView) { IsLocalRoot(s) && s.kind != SERVER }

  function UpTo(s: string, c: char): string { if s == "" || s[0] == c then "" else [s[0]] + UpTo(s[1..], c) }

  function Beyond(s: string, c: char): Option<string> {
    if s == "" then None else if s[0] == c then Some(s[1..]) else Beyond(s[1..], c)
  }

  /** The first part of a path. */
  function ApiPathValue(target: string): string {
    var rest := Beyond(target, '/');
    if rest.Some? then "/" + UpTo(rest.value, '/') else "/"
  }

  predicate IsValidOperation(s: SpanView) {
    s.name.Some? && s.name.value != UNKNOWN_OPERATION && (Has(s, HttpMethod) ==> s.name != Get(s, HttpMethod))
  }

  function GeneratedIngressOperation(w: World, s: SpanView): string {
    var path := if Has(s, HttpTarget) then Get(s, HttpTarget)
                else if Has(s, HttpUrl) then Some(w.urlPath(Get(s, HttpUrl).value))
                else None;
    if path.None? then UNKNOWN_OPERATION
    else (if Has(s, HttpMethod) then Get(s, HttpMethod).value + " " else "") + ApiPathValue(path.value)
  }

  /** A Lambda function's handler, unless Flask serves the request. */
  predicate NamesLambdaHandler(w: World, s: SpanView) {
    w.lambdaFunctionName.Some? && s.scope.Some? && s.scope.value.name != Some(FLASK_SCOPE)
  }

  function IngressOperation(w: World, s: SpanView): Result<string, Error> {
    if w.lambdaFunctionName.Some? && s.scope.None? then Failure(MissingScope)
    else if NamesLambdaHandler(w, s) then Success(w.lambdaFunctionName.value + "/FunctionHandler")
    else if UsesInternalOperation(s) then Success(INTERNAL_OPERATION)
    else if !IsValidOperation(s) then Success(GeneratedIngressOperation(w, s))
    else Success(s.name.value)
  }

  function EgressOperation(s: SpanView): Option<string> {
    if UsesInternalOperation(s) then Some(INTERNAL_OPERATION) else GetMetric(s, AwsLocalOperation)
  }

  lemma {:induction false} UpToAndBeyond(s: string, c: char)
    ensures c !in UpTo(s, c)
    ensures c in s <==> Beyond(s, c).Some?
    ensures s == UpTo(s, c) + if Beyond(s, c).Some? then [c] + Beyond(s, c).value else ""
  {
    if s != "" {
      assert s == [s[0]] + s[1..];
      if s[0] != c {
        UpToAndBeyond(s[1..], c);
      }
    }
  }

  /** The stretch of a target from its first slash to before its second, or a slash if it has none. */
  predicate IsFirstPart(target: string, part: string) {
    var before := UpTo(target, '/');
    if '/' !in target then part == "/"
    else
      && before + part <= target && '/' !in before
      && part != "" && part[0] == '/' && '/' !in part[1..]
      && (target == before + part || target[|before + part|] == '/')
  }

  /** An operation's path is the first part of the target. */
  lemma {:induction false} ApiPathIsFirstPart(target: string)
    ensures IsFirstPart(target, ApiPathValue(target))
  {
    UpToAndBeyond(target, '/');
    if '/' in target {
      var before, rest := UpTo(target, '/'), Beyond(target, '/').value;
      UpToAndBeyond(rest, '/');
      var after := rest[|UpTo(rest, '/')|..];
      assert rest == UpTo(rest, '/') + after;
      ConcatIsAssociative("/", UpTo(rest, '/'), after);
      ConcatIsAssociative(before, "/" + UpTo(rest, '/'), after);
      assert target == before + ApiPathValue(target) + after;
    }
  }

  lemma {:induction false} HandlerIsNotInternal(name: string)
    ensures name + "/FunctionHandler" != INTERNAL_OPERATION
  {
    var text := name + "/FunctionHandler";
    assert text[|name|] == '/';
    assert '/' !in INTERNAL_OPERATION;
  }

  /** Incoming and outgoing operations of a span generating both kinds differ exactly when a Lambda handler is named. */
  lemma OperationsAgree(w: World, s: SpanView)
    requires GeneratesService(w, s) && GeneratesDependency(w, s) && IngressOperation(w, s).Success?
    ensures Some(IngressOperation(w, s).value) == EgressOperation(s) <==> !NamesLambdaHandler(w, s)
  {
    HandlerIsNotInternal(w.lambdaFunctionName.GetOr(""));
  }

  /** A consumer below a consumer, processing messages: what the processing utilities mean to leave out. */
  predicate ProcessesBelowConsumer(w: World, s: SpanView) {
    && Has(s, MessagingOperation) && w.isProcess(Get(s, MessagingOperation).value)
    && !IsLocalRoot(s)
    && Has(s, AwsConsumerParentSpanKind) && w.isConsumerKind(Get(s, AwsConsumerParentSpanKind).value)
  }

  /** A consumer span, not of boto3sqs, is left out exactly if it processes below a consumer. */
  lemma ConsumerGeneratesExactly(w: World, s: SpanView)
    requires s.kind == CONSUMER && !IsBoto3SqsSpan(w, s)
    ensures GeneratesDependency(w, s) <==> !ProcessesBelowConsumer(w, s)
  {
  }

  /** A consumer span below a local consumer, with the given operation and parent kind. */
  function ConsumerBelowConsumer(operation: string, parentKind: string): SpanView {
    SpanView(CONSUMER, None, Some(Parent(true, false)), None,
             Attributes(map[Convention(MessagingOperation) := operation,
                            Convention(AwsConsumerParentSpanKind) := parentKind], map[], None))
  }

  /**
    Operation and parent kind are texts, compared with upstream enumerations.  No consumer span is ever left out if and
    only if one of these comparisons holds of no text.
   */
  lemma ConsumersNeverLeftOutExactly(w: World)
    ensures (forall s: SpanView | s.kind == CONSUMER && !IsBoto3SqsSpan(w, s) :: GeneratesDependency(w, s)) <==>
              (forall text :: !w.isProcess(text)) || (forall text :: !w.isConsumerKind(text))
  {
    if operation, parentKind :| w.isProcess(operation) && w.isConsumerKind(parentKind) {
      var s := ConsumerBelowConsumer(operation, parentKind);
      assert Get(s, MessagingOperation) == Some(operation) && Get(s, AwsConsumerParentSpanKind) == Some(parentKind);
      ConsumerGeneratesExactly(w, s);
      assert !GeneratesDependency(w, s);
    } else {
      forall s: SpanView | s.kind == CONSUMER && !IsBoto3SqsSpan(w, s)
        ensures GeneratesDependency(w, s)
      {
        ConsumerGeneratesExactly(w, s);
      }
    }
  }
}
