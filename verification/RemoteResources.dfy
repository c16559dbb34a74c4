/** What the remote resource of a span comes from, read off tables of keys. */
module RemoteResources {
  import opened Wrappers
  import opened Delimiters
  import opened SpanProcessing
  import opened MetricAttributes

  /** How an identifier is read from a text: as it stands, or by the parser of an ARN or a queue URL. */
  datatype Reading = AsItStands | TableOfArn | StreamOfArn | NameOfArn | QueueOfUrl

  function Read(w: World, reading: Reading, text: string): Option<string> {
    match reading
    case AsItStands => Some(text)
    case TableOfArn => w.arnTable(text)
    case StreamOfArn => w.arnStream(text)
    case NameOfArn => w.arnName(text)
    case QueueOfUrl => w.sqsQueueName(text)
  }

  /** A key, the type of resource it names, how its identifier is read, and any key of its primary identifier. */
  datatype Row = Row(key: SpanKey, type_: string, reading: Reading, primary: Option<SpanKey>)

  /** The keys of AWS SDK spans, in the order in which they are asked after a single table name; */
  const FIRST_KEYS := [
    Row(AwsDynamoDbTableArn, "AWS::DynamoDB::Table", TableOfArn, None),
    Row(AwsKinesisStreamName, "AWS::Kinesis::Stream", AsItStands, None),
    Row(AwsKinesisStreamArn, "AWS::Kinesis::Stream", StreamOfArn, None),
    Row(AwsS3Bucket, "AWS::S3::Bucket", AsItStands, None),
    Row(AwsSqsQueueName, "AWS::SQS::Queue", AsItStands, Some(AwsSqsQueueUrl)),
    Row(AwsSqsQueueUrl, "AWS::SQS::Queue", QueueOfUrl, Some(AwsSqsQueueUrl)),
    Row(AwsBedrockAgentId, "AWS::Bedrock::Agent", AsItStands, None)]

  /** after the data source of a knowledge base; */
  const NEXT_KEYS := [
    Row(AwsBedrockGuardrailId, "AWS::Bedrock::Guardrail", AsItStands, Some(AwsBedrockGuardrailArn)),
    Row(AwsBedrockKnowledgeBaseId, "AWS::Bedrock::KnowledgeBase", AsItStands, None),
    Row(GenAiRequestModel, "AWS::Bedrock::Model", AsItStands, None)]

  /** and after the resources of AgentCore. */
  const LAST_KEYS := [
    Row(AwsSecretArn, "AWS::SecretsManager::Secret", NameOfArn, Some(AwsSecretArn)),
    Row(AwsSnsTopicArn, "AWS::SNS::Topic", NameOfArn, Some(AwsSnsTopicArn)),
    Row(AwsStateMachineArn, "AWS::StepFunctions::StateMachine", NameOfArn, Some(AwsStateMachineArn)),
    Row(AwsActivityArn, "AWS::StepFunctions::Activity", NameOfArn, Some(AwsActivityArn)),
    Row(AwsLambdaFunctionName, "AWS::Lambda::Function", AsItStands, Some(AwsLambdaFunctionArn)),
    Row(AwsLambdaResourceMappingId, "AWS::Lambda::EventSourceMapping", AsItStands, None)]

  ghost predicate HasNone(s: SpanView, rows: seq<Row>) {
    forall j | 0 <= j < |rows| :: !Has(s, rows[j].key)
  }

  /** The first row of which the span has the key. */
  ghost predicate IsFirst(s: SpanView, rows: seq<Row>, i: nat) {
    i < |rows| && Has(s, rows[i].key) && forall j | 0 <= j < i :: !Has(s, rows[j].key)
  }

  /** What a row's key gives. */
  function FoundBy(w: World, s: SpanView, row: Row): Found
    requires Has(s, row.key)
  {
    Of(row.type_, Read(w, row.reading, Get(s, row.key).value),
       if row.primary.Some? then Get(s, row.primary.value) else None)
  }

  ghost predicate HasOneTable(s: SpanView) {
    s.attributes.tableNames.Some? && |s.attributes.tableNames.value| == 1
  }

  lemma FirstKeysDecide(w: World, s: SpanView, i: nat)
    requires !HasOneTable(s) && IsFirst(s, FIRST_KEYS, i)
    ensures SdkResource(w, s) == Success(FoundBy(w, s, FIRST_KEYS[i]))
  {
    assert i > 0 ==> !Has(s, FIRST_KEYS[0].key);
    assert i > 1 ==> !Has(s, FIRST_KEYS[1].key);
    assert i > 2 ==> !Has(s, FIRST_KEYS[2].key);
    assert i > 3 ==> !Has(s, FIRST_KEYS[3].key);
    assert i > 4 ==> !Has(s, FIRST_KEYS[4].key);
    assert i > 5 ==> !Has(s, FIRST_KEYS[5].key);
  }

  lemma AfterFirstKeys(w: World, s: SpanView)
    requires !HasOneTable(s) && HasNone(s, FIRST_KEYS)
    ensures !Has(s, AwsBedrockAgentId) && SdkResource(w, s) == BedrockResource(w, s)
  {
    assert |FIRST_KEYS| == 7;
    assert !Has(s, FIRST_KEYS[0].key) && !Has(s, FIRST_KEYS[1].key) && !Has(s, FIRST_KEYS[2].key)
        && !Has(s, FIRST_KEYS[3].key) && !Has(s, FIRST_KEYS[4].key) && !Has(s, FIRST_KEYS[5].key)
        && !Has(s, FIRST_KEYS[6].key);
  }

  lemma NextKeysDecide(w: World, s: SpanView, i: nat)
    requires !Has(s, AwsBedrockAgentId) && !Has(s, AwsBedrockDataSourceId) && IsFirst(s, NEXT_KEYS, i)
    ensures BedrockResource(w, s) == Success(FoundBy(w, s, NEXT_KEYS[i]))
  {
    assert i > 0 ==> !Has(s, NEXT_KEYS[0].key);
    assert i > 1 ==> !Has(s, NEXT_KEYS[1].key);
  }

  lemma AfterNextKeys(w: World, s: SpanView)
    requires !Has(s, AwsBedrockAgentId) && !Has(s, AwsBedrockDataSourceId) && HasNone(s, NEXT_KEYS)
    ensures BedrockResource(w, s) == Success(LaterResource(w, s))
  {
    assert |NEXT_KEYS| == 3;
    assert !Has(s, NEXT_KEYS[0].key) && !Has(s, NEXT_KEYS[1].key) && !Has(s, NEXT_KEYS[2].key);
  }

  /** A Lambda function that is invoked is a service, not a resource. */
  lemma LastKeysDecide(w: World, s: SpanView, i: nat)
    requires IsFirst(s, LAST_KEYS, i)
    ensures LastResource(w, s) == if LAST_KEYS[i].key == AwsLambdaFunctionName && IsLambdaInvoke(s) then NOTHING
                                  else FoundBy(w, s, LAST_KEYS[i])
  {
    assert i > 0 ==> !Has(s, LAST_KEYS[0].key);
    assert i > 1 ==> !Has(s, LAST_KEYS[1].key);
    assert i > 2 ==> !Has(s, LAST_KEYS[2].key);
    assert i > 3 ==> !Has(s, LAST_KEYS[3].key);
    assert i > 4 ==> !Has(s, LAST_KEYS[4].key);
  }

  lemma AfterLastKeys(w: World, s: SpanView)
    requires HasNone(s, LAST_KEYS)
    ensures LastResource(w, s) == NOTHING
  {
    assert |LAST_KEYS| == 6;
    assert !Has(s, LAST_KEYS[0].key) && !Has(s, LAST_KEYS[1].key) && !Has(s, LAST_KEYS[2].key)
        && !Has(s, LAST_KEYS[3].key) && !Has(s, LAST_KEYS[4].key) && !Has(s, LAST_KEYS[5].key);
  }

  // ---------- Resources of AgentCore ----------

  /** A kind of resource, the keys of its identifier and its ARN, and an identifier of AWS's own with another type. */
  datatype Kind = Kind(id: SpanKey, arn: SpanKey, type_: string, managed: Option<string>, managedType: string)

  /** In the order in which they are asked: a gateway's target before the gateway, an endpoint before the runtime. */
  const KINDS := [
    Kind(GenAiBrowserId, AgentCoreBrowserArn, "BrowserCustom", Some("aws.browser.v1"), "Browser"),
    Kind(GenAiGatewayId, AgentCoreGatewayArn, "Gateway", None, ""),
    Kind(GenAiRuntimeId, AgentCoreRuntimeArn, "Runtime", None, ""),
    Kind(GenAiCodeInterpreterId, AgentCoreCodeInterpreterArn, "CodeInterpreterCustom", Some("aws.codeinterpreter.v1"),
         "CodeInterpreter"),
    Kind(GenAiMemoryId, AgentCoreMemoryArn, "Memory", None, "")]

  predicate Shows(s: SpanView, kind: Kind) { Truthy(s, kind.id) || Truthy(s, kind.arn) }

  /** The identifier: the one given, or else the one in the ARN. */
  function IdIn(w: World, s: SpanView, kind: Kind): Option<string> {
    if Truthy(s, kind.id) then Get(s, kind.id)
    else if Truthy(s, kind.arn) then w.arnAgentCoreId(Get(s, kind.arn).value)
    else None
  }

  /** No kind before the given one is shown, nor a gateway's target, an endpoint or a credential provider before it. */
  ghost predicate NoneShownBefore(w: World, s: SpanView, i: nat) {
    && i <= |KINDS| && (forall j | 0 <= j < i :: !Shows(s, KINDS[j]))
    && (i >= 2 ==> !Truthy(s, AgentCoreGatewayTargetId))
    && (i >= 3 ==> !Truthy(s, AgentCoreRuntimeEndpointArn))
    && (i >= 4 ==> CredentialType(w, s).None?)
  }

  /** The credential provider that a method is about. */
  function CredentialType(w: World, s: SpanView): Option<string> {
    if !Truthy(s, AwsAuthCredentialProvider) || !Truthy(s, RpcMethod) then None
    else if Contains(w.lower(Get(s, RpcMethod).value), "apikey") then Some("APIKeyCredentialProvider")
    else if Contains(w.lower(Get(s, RpcMethod).value), "oauth2") then Some("OAuth2CredentialProvider")
    else None
  }

  /** The resource of an AgentCore type, when it has an identifier that is not empty. */
  function Named(type_: string, id: Option<string>, primary: Option<string>): Option<Resource> {
    if id.GetOr("") == "" then None
    else
      Some(Resource("AWS::BedrockAgentCore::" + type_, EscapeDelimiters(id.value),
                    EscapeDelimiters(if primary.GetOr("") == "" then id.value else primary.value)))
  }

  lemma AgentCoreAt(w: World, s: SpanView, i: nat)
    requires i < 6 && AgentCoreHandler(w, s, i).type_.Some?
    requires forall j | 0 <= j < i :: AgentCoreHandler(w, s, j).type_.None?
    ensures var f := AgentCoreHandler(w, s, i);
            Completed(AgentCoreResource(w, s)) == Named(f.type_.value, f.id, f.cfnId)
  {
    AgentCoreSkips(w, s, 0, i);
  }

  lemma {:induction false} AgentCoreSkips(w: World, s: SpanView, from: nat, i: nat)
    requires from <= i <= 6 && forall j | from <= j < i :: AgentCoreHandler(w, s, j).type_.None?
    ensures AgentCoreFrom(w, s, from) == AgentCoreFrom(w, s, i)
    decreases i - from
  {
    if from < i {
      AgentCoreSkips(w, s, from + 1, i);
    }
  }

  lemma HandlersPass(w: World, s: SpanView, i: nat, n: nat)
    requires i <= 4 && NoneShownBefore(w, s, i) && n == if i == 4 then 5 else i
    ensures forall j | 0 <= j < n && j != 1 :: AgentCoreHandler(w, s, j).type_.None?
    ensures i >= 2 ==> AgentCoreHandler(w, s, 1).type_.None?
  {
    assert i > 0 ==> !Shows(s, KINDS[0]);
    assert i > 1 ==> !Shows(s, KINDS[1]);
    assert i > 2 ==> !Shows(s, KINDS[2]);
    assert i > 3 ==> !Shows(s, KINDS[3]);
  }

  /** A kind that is shown, with nothing asked before it. */
  ghost predicate KindIsFirst(w: World, s: SpanView, i: nat) {
    && i < |KINDS| && Shows(s, KINDS[i]) && NoneShownBefore(w, s, i)
    && (i == 1 ==> !Truthy(s, AgentCoreGatewayTargetId)) && (i == 2 ==> !Truthy(s, AgentCoreRuntimeEndpointArn))
  }

  /** The number of the handler of a kind; the one of credential providers has no kind. */
  function HandlerOf(i: nat): nat { if i == 4 then 5 else i }

  lemma BrowserIsHandled(w: World, s: SpanView)
    requires Shows(s, KINDS[0])
    ensures var id, f := IdIn(w, s, KINDS[0]), AgentCoreHandler(w, s, 0);
            f == Found(Some(if id == Some("aws.browser.v1") then "Browser" else "BrowserCustom"), id, id)
  {
  }

  lemma InterpreterIsHandled(w: World, s: SpanView)
    requires Shows(s, KINDS[3])
    ensures var id, f := IdIn(w, s, KINDS[3]), AgentCoreHandler(w, s, 3);
            var type_ := if id == Some("aws.codeinterpreter.v1") then "CodeInterpreter" else "CodeInterpreterCustom";
            f == Found(Some(type_), id, id)
  {
  }

  lemma GatewayIsHandled(w: World, s: SpanView)
    requires Shows(s, KINDS[1]) && !Truthy(s, AgentCoreGatewayTargetId)
    ensures AgentCoreHandler(w, s, 1) == Found(Some("Gateway"), IdIn(w, s, KINDS[1]), IdIn(w, s, KINDS[1]))
  {
  }

  lemma RuntimeIsHandled(w: World, s: SpanView)
    requires Shows(s, KINDS[2]) && !Truthy(s, AgentCoreRuntimeEndpointArn)
    ensures AgentCoreHandler(w, s, 2) == Found(Some("Runtime"), IdIn(w, s, KINDS[2]), IdIn(w, s, KINDS[2]))
  {
  }

  lemma MemoryIsHandled(w: World, s: SpanView)
    requires Shows(s, KINDS[4])
    ensures var arn := if Truthy(s, AgentCoreMemoryArn) then Get(s, AgentCoreMemoryArn) else None;
            AgentCoreHandler(w, s, 5) == Found(Some("Memory"), IdIn(w, s, KINDS[4]), arn)
  {
  }

  lemma KindIsHandled(w: World, s: SpanView, i: nat)
    requires KindIsFirst(w, s, i)
    ensures HandlerOf(i) < 6
    ensures var kind, f := KINDS[i], AgentCoreHandler(w, s, HandlerOf(i));
            var id := IdIn(w, s, kind);
            && f.id == id
            && f.type_ == Some(if id.Some? && id == kind.managed then kind.managedType else kind.type_)
            && f.cfnId == if kind.id != GenAiMemoryId then id
                          else if Truthy(s, AgentCoreMemoryArn) then Get(s, AgentCoreMemoryArn) else None
  {
    if i == 0 {
      BrowserIsHandled(w, s);
    } else if i == 1 {
      GatewayIsHandled(w, s);
    } else if i == 2 {
      RuntimeIsHandled(w, s);
    } else if i == 3 {
      InterpreterIsHandled(w, s);
    } else {
      MemoryIsHandled(w, s);
    }
  }

  /** The first kind that is shown decides; a memory has its ARN, if any, as primary identifier. */
  lemma KindsDecide(w: World, s: SpanView, i: nat)
    requires KindIsFirst(w, s, i)
    ensures var kind := KINDS[i];
            var id := IdIn(w, s, kind);
            Completed(AgentCoreResource(w, s)) ==
            Named(if id.Some? && id == kind.managed then kind.managedType else kind.type_, id,
                  if kind.id == GenAiMemoryId then Get(s, AgentCoreMemoryArn) else id)
  {
    KindIsHandled(w, s, i);
    HandlersPass(w, s, i, HandlerOf(i));
    AgentCoreAt(w, s, HandlerOf(i));
  }

  /** A gateway's target is identified by its gateway, if that is shown. */
  lemma TargetDecides(w: World, s: SpanView)
    requires Truthy(s, AgentCoreGatewayTargetId) && NoneShownBefore(w, s, 1)
    ensures var id := if Shows(s, KINDS[1]) then IdIn(w, s, KINDS[1]) else Get(s, AgentCoreGatewayTargetId);
            Completed(AgentCoreResource(w, s)) == Named("GatewayTarget", id, id)
  {
    HandlersPass(w, s, 1, 1);
    AgentCoreAt(w, s, 1);
  }

  lemma EndpointDecides(w: World, s: SpanView)
    requires Truthy(s, AgentCoreRuntimeEndpointArn) && NoneShownBefore(w, s, 2)
    ensures var arn := Get(s, AgentCoreRuntimeEndpointArn);
            Completed(AgentCoreResource(w, s)) == Named("RuntimeEndpoint", w.arnAgentCoreId(arn.value), arn)
  {
    HandlersPass(w, s, 2, 2);
    AgentCoreAt(w, s, 2);
  }

  /** A credential provider is named by its ARN if that can be read, and otherwise as it stands. */
  lemma CredentialsDecide(w: World, s: SpanView)
    requires CredentialType(w, s).Some? && NoneShownBefore(w, s, 3) && !Shows(s, KINDS[3])
    ensures var provider := Get(s, AwsAuthCredentialProvider);
            var fromArn := w.arnAgentCoreId(provider.value);
            var id := if fromArn.GetOr("") == "" then provider else fromArn;
            Completed(AgentCoreResource(w, s)) == Named(CredentialType(w, s).value, id, id)
  {
    HandlersPass(w, s, 3, 3);
    AgentCoreAt(w, s, 4);
  }

  lemma NothingIsShown(w: World, s: SpanView)
    requires NoneShownBefore(w, s, 5)
    ensures Completed(AgentCoreResource(w, s)) == None
  {
    assert |KINDS| == 5;
    assert !Shows(s, KINDS[4]);
    HandlersPass(w, s, 4, 5);
    AgentCoreSkips(w, s, 0, 6);
  }

  // ---------- Databases ----------

  /** Keys of an address and of its port, in the order in which they are asked. */
  const ADDRESS_KEYS := [(ServerAddress, ServerPort), (NetPeerName, NetPeerPort),
                         (ServerSocketAddress, ServerSocketPort)]

  /** The address and port of a database; a port of zero, or of -1 in a connection string, is not shown. */
  ghost predicate IsEndpoint(w: World, s: SpanView, e: Endpoint) {
    || (exists i | 0 <= i < |ADDRESS_KEYS| ::
          && (forall j | 0 <= j < i :: !Has(s, ADDRESS_KEYS[j].0))
          && Get(s, ADDRESS_KEYS[i].0) == Some(e.address)
          && e.port == if GetPort(s, ADDRESS_KEYS[i].1) == Some(0) then None else GetPort(s, ADDRESS_KEYS[i].1))
    || ((forall j | 0 <= j < |ADDRESS_KEYS| :: !Has(s, ADDRESS_KEYS[j].0))
        && Has(s, DbConnectionString)
        && w.urlHost(Get(s, DbConnectionString).value) == Some(e.address)
        && e.port == if w.urlPort(Get(s, DbConnectionString).value) == Some(-1) then None
                     else w.urlPort(Get(s, DbConnectionString).value))
  }

  lemma EndpointExactly(w: World, s: SpanView, e: Endpoint)
    ensures IsEndpoint(w, s, e) <==> DbEndpoint(w, s) == Some(e)
  {
    assert |ADDRESS_KEYS| == 3 && ADDRESS_KEYS[0] == (ServerAddress, ServerPort)
        && ADDRESS_KEYS[1] == (NetPeerName, NetPeerPort) && ADDRESS_KEYS[2] == (ServerSocketAddress, ServerSocketPort);
  }

  /** A connection's name, if any, address and port, if shown, escaped and joined. */
  lemma ConnectionIsOfEndpoint(w: World, s: SpanView, e: Endpoint)
    requires IsEndpoint(w, s, e)
    ensures DbConnection(w, s) == Some(Join(ConnectionParts(Get(s, DbName), e)))
  {
    EndpointExactly(w, s, e);
    ConnectionIsJoined(Get(s, DbName), e);
  }

  lemma NoEndpointNoConnection(w: World, s: SpanView)
    requires forall e :: !IsEndpoint(w, s, e)
    ensures DbConnection(w, s) == None
  {
    if DbEndpoint(w, s).Some? {
      EndpointExactly(w, s, DbEndpoint(w, s).value);
    }
  }

  // ---------- Accounts and regions ----------

  /** Keys of ARNs, in the order in which they are asked when there is no queue URL. */
  const PLACE_KEYS := [AwsDynamoDbTableArn, AwsKinesisStreamArn, AwsSnsTopicArn, AwsSecretArn, AwsStateMachineArn,
                       AwsActivityArn, AwsBedrockGuardrailArn, AwsLambdaFunctionArn]

  ghost predicate IsPlaceOf(w: World, s: SpanView, place: Place) {
    if Has(s, AwsSqsQueueUrl) then
      var url := EscapeDelimiters(Get(s, AwsSqsQueueUrl).value);
      place.account == w.sqsAccount(url) && place.region == w.sqsRegion(url)
    else if exists i | 0 <= i < |PLACE_KEYS| :: Has(s, PLACE_KEYS[i]) then
      exists i | 0 <= i < |PLACE_KEYS| ::
        && Has(s, PLACE_KEYS[i]) && (forall j | 0 <= j < i :: !Has(s, PLACE_KEYS[j]))
        && place.account == w.arnAccount(Get(s, PLACE_KEYS[i]).value)
        && place.region == w.arnRegion(Get(s, PLACE_KEYS[i]).value)
    else place.account.None? && place.region.None?
  }

  lemma {:induction false} FirstArnIsFirst(s: SpanView, keys: seq<SpanKey>)
    ensures FirstArn(s, keys).None? <==> forall i | 0 <= i < |keys| :: !Has(s, keys[i])
    ensures FirstArn(s, keys).Some? ==>
              exists i | 0 <= i < |keys| :: Has(s, keys[i]) && (forall j | 0 <= j < i :: !Has(s, keys[j]))
                                            && Get(s, keys[i]) == FirstArn(s, keys)
  {
    if keys != [] && !Has(s, keys[0]) {
      var rest := keys[1..];
      FirstArnIsFirst(s, rest);
      if FirstArn(s, rest).Some? {
        var i :| 0 <= i < |rest| && Has(s, rest[i]) && (forall j | 0 <= j < i :: !Has(s, rest[j]))
                 && Get(s, rest[i]) == FirstArn(s, rest);
        forall j | 0 <= j < i + 1
          ensures !Has(s, keys[j])
        {
          assert j > 0 ==> keys[j] == rest[j - 1];
        }
        assert keys[i + 1] == rest[i];
      } else {
        forall j | 0 <= j < |keys|
          ensures !Has(s, keys[j])
        {
          assert j > 0 ==> keys[j] == rest[j - 1];
        }
      }
    }
  }

  /** Account and region are those of the queue URL, or else of the first ARN. */
  lemma PlaceIsFirst(w: World, s: SpanView)
    ensures IsPlaceOf(w, s, PlaceOf(w, s))
  {
    assert PLACE_KEYS == ARN_KEYS;
    FirstArnIsFirst(s, PLACE_KEYS);
  }

  // ---------- The resource of any span ----------

  /** What a row's key gives, escaped; without a primary identifier of its own, the identifier is taken for it. */
  ghost predicate IsOfRow(w: World, s: SpanView, row: Row, resource: Option<Resource>)
    requires Has(s, row.key)
  {
    var id := Read(w, row.reading, Get(s, row.key).value);
    var primary := if row.primary.Some? then Get(s, row.primary.value) else None;
    if id.None? then resource == None
    else resource == Some(Resource(row.type_, EscapeDelimiters(id.value), EscapeDelimiters(primary.GetOr(id.value))))
  }

  ghost predicate IsOfFirstRow(w: World, s: SpanView, rows: seq<Row>, resource: Option<Resource>) {
    exists i | 0 <= i < |rows| :: IsFirst(s, rows, i) && IsOfRow(w, s, rows[i], resource)
  }

  /** The resource of an AgentCore call. */
  ghost predicate IsOfAgentCore(w: World, s: SpanView, resource: Option<Resource>) {
    && (forall i: nat | KindIsFirst(w, s, i) ::
          var kind, id := KINDS[i], IdIn(w, s, KINDS[i]);
          resource == Named(if id.Some? && id == kind.managed then kind.managedType else kind.type_, id,
                            if kind.id == GenAiMemoryId then Get(s, AgentCoreMemoryArn) else id))
    && (Truthy(s, AgentCoreGatewayTargetId) && NoneShownBefore(w, s, 1) ==>
          var id := if Shows(s, KINDS[1]) then IdIn(w, s, KINDS[1]) else Get(s, AgentCoreGatewayTargetId);
          resource == Named("GatewayTarget", id, id))
    && (Truthy(s, AgentCoreRuntimeEndpointArn) && NoneShownBefore(w, s, 2) ==>
          var arn := Get(s, AgentCoreRuntimeEndpointArn);
          resource == Named("RuntimeEndpoint", w.arnAgentCoreId(arn.value), arn))
    && (CredentialType(w, s).Some? && NoneShownBefore(w, s, 3) && !Shows(s, KINDS[3]) ==>
          var provider := Get(s, AwsAuthCredentialProvider);
          var fromArn := w.arnAgentCoreId(provider.value);
          var id := if fromArn.GetOr("") == "" then provider else fromArn;
          resource == Named(CredentialType(w, s).value, id, id))
    && (NoneShownBefore(w, s, 5) ==> resource == None)
  }

  lemma AgentCoreIsRead(w: World, s: SpanView)
    ensures IsOfAgentCore(w, s, Completed(AgentCoreResource(w, s)))
  {
    forall i: nat | KindIsFirst(w, s, i)
      ensures var kind, id := KINDS[i], IdIn(w, s, KINDS[i]);
              Completed(AgentCoreResource(w, s)) ==
              Named(if id.Some? && id == kind.managed then kind.managedType else kind.type_, id,
                    if kind.id == GenAiMemoryId then Get(s, AgentCoreMemoryArn) else id)
    {
      KindsDecide(w, s, i);
    }
    if Truthy(s, AgentCoreGatewayTargetId) && NoneShownBefore(w, s, 1) {
      TargetDecides(w, s);
    }
    if Truthy(s, AgentCoreRuntimeEndpointArn) && NoneShownBefore(w, s, 2) {
      EndpointDecides(w, s);
    }
    if CredentialType(w, s).Some? && NoneShownBefore(w, s, 3) && !Shows(s, KINDS[3]) {
      CredentialsDecide(w, s);
    }
    if NoneShownBefore(w, s, 5) {
      NothingIsShown(w, s);
    }
  }

  predicate CallsAgentCore(s: SpanView) {
    Get(s, RpcService) == Some("Bedrock AgentCore") || Get(s, RpcService) == Some("Bedrock AgentCore Control")
  }

  /** The resource of an AWS SDK call other than for a single DynamoDB table. */
  ghost predicate IsOfSdkCall(w: World, s: SpanView, resource: Option<Resource>) {
    if !HasNone(s, FIRST_KEYS) then IsOfFirstRow(w, s, FIRST_KEYS, resource)
    else if Has(s, AwsBedrockDataSourceId) then
      var id, base := Get(s, AwsBedrockDataSourceId).value, Get(s, AwsBedrockKnowledgeBaseId);
      base.Some? && resource == Some(Resource("AWS::Bedrock::DataSource", EscapeDelimiters(id), Join([base.value, id])))
    else if !HasNone(s, NEXT_KEYS) then IsOfFirstRow(w, s, NEXT_KEYS, resource)
    else if CallsAgentCore(s) then IsOfAgentCore(w, s, resource)
    else if IsFirst(s, LAST_KEYS, 4) && Get(s, RpcService) == Some("Lambda") && Get(s, RpcMethod) == Some("Invoke")
    then resource == None
    else if !HasNone(s, LAST_KEYS) then IsOfFirstRow(w, s, LAST_KEYS, resource)
    else resource == None
  }

  ghost predicate IsOfDatabase(w: World, s: SpanView, resource: Option<Resource>) {
    && (forall e | IsEndpoint(w, s, e) ::
          var id := Join(ConnectionParts(Get(s, DbName), e)); resource == Some(Resource("DB::Connection", id, id)))
    && ((forall e :: !IsEndpoint(w, s, e)) ==> resource == None)
  }

  ghost predicate IsResourceOf(w: World, s: SpanView, resource: Option<Resource>) {
    if Get(s, RpcSystem) == Some("aws-api") then
      if HasOneTable(s) then
        var name := EscapeDelimiters(s.attributes.tableNames.value[0]);
        resource == Some(Resource("AWS::DynamoDB::Table", name, name))
      else IsOfSdkCall(w, s, resource)
    else if Has(s, DbSystem) || Has(s, DbOperation) || Has(s, DbStatement) then IsOfDatabase(w, s, resource)
    else resource == None
  }

  lemma {:induction false} SomeRowIsFirst(s: SpanView, rows: seq<Row>, n: nat) returns (i: nat)
    requires n < |rows| && Has(s, rows[n].key)
    ensures IsFirst(s, rows, i)
  {
    if j :| 0 <= j < n && Has(s, rows[j].key) {
      i := SomeRowIsFirst(s, rows, j);
    } else {
      i := n;
    }
  }

  lemma RowIsCompleted(w: World, s: SpanView, row: Row)
    requires Has(s, row.key)
    ensures IsOfRow(w, s, row, Completed(FoundBy(w, s, row)))
  {
  }

  lemma FirstRowsAreRead(w: World, s: SpanView)
    requires !HasOneTable(s) && !HasNone(s, FIRST_KEYS)
    ensures SdkResource(w, s).Success? && IsOfFirstRow(w, s, FIRST_KEYS, Completed(SdkResource(w, s).value))
  {
    var n :| 0 <= n < |FIRST_KEYS| && Has(s, FIRST_KEYS[n].key);
    var i := SomeRowIsFirst(s, FIRST_KEYS, n);
    FirstKeysDecide(w, s, i);
    RowIsCompleted(w, s, FIRST_KEYS[i]);
  }

  lemma NextRowsAreRead(w: World, s: SpanView)
    requires !Has(s, AwsBedrockAgentId) && !Has(s, AwsBedrockDataSourceId) && !HasNone(s, NEXT_KEYS)
    ensures BedrockResource(w, s).Success? && IsOfFirstRow(w, s, NEXT_KEYS, Completed(BedrockResource(w, s).value))
  {
    var n :| 0 <= n < |NEXT_KEYS| && Has(s, NEXT_KEYS[n].key);
    var i := SomeRowIsFirst(s, NEXT_KEYS, n);
    NextKeysDecide(w, s, i);
    RowIsCompleted(w, s, NEXT_KEYS[i]);
  }

  lemma LastRowsAreRead(w: World, s: SpanView)
    requires !HasNone(s, LAST_KEYS) && IsAwsSdkSpan(s)
    ensures var resource := Completed(LastResource(w, s));
            if IsFirst(s, LAST_KEYS, 4) && IsLambdaInvoke(s) then resource == None
            else IsOfFirstRow(w, s, LAST_KEYS, resource)
  {
    var n :| 0 <= n < |LAST_KEYS| && Has(s, LAST_KEYS[n].key);
    var i := SomeRowIsFirst(s, LAST_KEYS, n);
    LastKeysDecide(w, s, i);
    RowIsCompleted(w, s, LAST_KEYS[i]);
    LambdaRow(i);
    OnlyOneIsFirst(s, LAST_KEYS, i, 4);
  }

  lemma LambdaRow(i: nat)
    requires i < |LAST_KEYS|
    ensures LAST_KEYS[i].key == AwsLambdaFunctionName <==> i == 4
  {
  }

  lemma OnlyOneIsFirst(s: SpanView, rows: seq<Row>, i: nat, j: nat)
    requires IsFirst(s, rows, i)
    ensures IsFirst(s, rows, j) <==> i == j
  {
  }

  lemma DataSourceIsRead(s: SpanView)
    requires Has(s, AwsBedrockDataSourceId) && DataSourceResource(s).Success?
    ensures var id, base := Get(s, AwsBedrockDataSourceId).value, Get(s, AwsBedrockKnowledgeBaseId);
            base.Some? && Completed(DataSourceResource(s).value)
                          == Some(Resource("AWS::Bedrock::DataSource", EscapeDelimiters(id), Join([base.value, id])))
  {
    JoinTwo(Get(s, AwsBedrockKnowledgeBaseId).value, Get(s, AwsBedrockDataSourceId).value);
  }

  lemma AgentCoreServicesNormalize(name: string)
    ensures NormalizedSdkService(name) == Some("AWS::BedrockAgentCore") <==>
              name == "Bedrock AgentCore" || name == "Bedrock AgentCore Control"
  {
    var core := "AWS::BedrockAgentCore";
    assert |core| == 21 && |"AWS::Bedrock"| == 12 && |"AWS::BedrockRuntime"| == 19 && |"AWS::SecretsManager"| == 19;
    assert |"AWS::SNS"| == 8 && |"AWS::StepFunctions"| == 18 && |"AWS::Lambda"| == 11;
  }

  lemma LaterIsRead(w: World, s: SpanView)
    requires IsAwsSdkSpan(s)
    ensures var resource := Completed(LaterResource(w, s));
            if CallsAgentCore(s) then IsOfAgentCore(w, s, resource)
            else if IsFirst(s, LAST_KEYS, 4) && IsLambdaInvoke(s) then resource == None
            else if !HasNone(s, LAST_KEYS) then IsOfFirstRow(w, s, LAST_KEYS, resource)
            else resource == None
  {
    if Has(s, RpcService) {
      AgentCoreServicesNormalize(Get(s, RpcService).value);
    }
    if CallsAgentCore(s) {
      AgentCoreIsRead(w, s);
    } else if HasNone(s, LAST_KEYS) {
      AfterLastKeys(w, s);
    } else {
      LastRowsAreRead(w, s);
    }
  }

  lemma SdkCallIsRead(w: World, s: SpanView)
    requires IsAwsSdkSpan(s) && !HasOneTable(s) && SdkResource(w, s).Success?
    ensures IsOfSdkCall(w, s, Completed(SdkResource(w, s).value))
  {
    if !HasNone(s, FIRST_KEYS) {
      FirstRowsAreRead(w, s);
    } else {
      AfterFirstKeys(w, s);
      if Has(s, AwsBedrockDataSourceId) {
        DataSourceIsRead(s);
      } else if !HasNone(s, NEXT_KEYS) {
        NextRowsAreRead(w, s);
      } else {
        AfterNextKeys(w, s);
        LaterIsRead(w, s);
      }
    }
  }

  lemma DatabaseIsRead(w: World, s: SpanView)
    ensures IsOfDatabase(w, s, Completed(Found(Some("DB::Connection"), DbConnection(w, s), None)))
  {
    forall e | IsEndpoint(w, s, e)
      ensures DbConnection(w, s) == Some(Join(ConnectionParts(Get(s, DbName), e)))
    {
      ConnectionIsOfEndpoint(w, s, e);
    }
    if forall e :: !IsEndpoint(w, s, e) {
      NoEndpointNoConnection(w, s);
    }
  }

  /** Every span's remote resource: of the first key of the tables that it has, or of the database it calls. */
  lemma ResourceIsRead(w: World, s: SpanView)
    requires FoundResource(w, s).Success?
    ensures IsResourceOf(w, s, Completed(FoundResource(w, s).value))
  {
    if IsAwsSdkSpan(s) && !HasOneTable(s) {
      SdkCallIsRead(w, s);
    } else if !IsAwsSdkSpan(s) && IsDbSpan(s) {
      DatabaseIsRead(w, s);
    }
  }
}
