/** What the remote names of a span come from, read off tables of keys. */
module RemoteNames {
  import opened Wrappers
  import opened Delimiters
  import opened SpanProcessing
  import opened MetricAttributes

  /** A convention: the keys of the service and the operation it names, and the key asked without an operation. */
  datatype Row = Row(service: Option<SpanKey>, operation: SpanKey, statement: Option<SpanKey>)

  /** RPC, database, FaaS, messaging and GraphQL, in the order in which they are asked. */
  const CONVENTIONS := [
    Row(Some(RpcService), RpcMethod, None),
    Row(Some(DbSystem), DbOperation, Some(DbStatement)),
    Row(Some(FaasInvokedName), FaasTrigger, None),
    Row(Some(MessagingSystem), MessagingOperation, None),
    Row(None, GraphqlOperationType, None)]

  /** How the services of AWS SDK calls are called; others by their own name. */
  const SDK_NAMES := map[
    "Bedrock Agent" := "AWS::Bedrock", "Bedrock Agent Runtime" := "AWS::Bedrock",
    "Bedrock Runtime" := "AWS::BedrockRuntime", "Bedrock AgentCore Control" := "AWS::BedrockAgentCore",
    "Bedrock AgentCore" := "AWS::BedrockAgentCore", "Secrets Manager" := "AWS::SecretsManager", "SNS" := "AWS::SNS",
    "SFN" := "AWS::StepFunctions", "Lambda" := "AWS::Lambda"]

  predicate Mentions(s: SpanView, row: Row) {
    || (row.service.Some? && Has(s, row.service.value))
    || Has(s, row.operation)
    || (row.statement.Some? && Has(s, row.statement.value))
  }

  /** A span without AWS remote names of which this convention is the first to have a key. */
  ghost predicate Decides(s: SpanView, c: nat) {
    && c < |CONVENTIONS| && Mentions(s, CONVENTIONS[c]) && (forall b | 0 <= b < c :: !Mentions(s, CONVENTIONS[b]))
    && GetMetric(s, AwsRemoteService).None? && GetMetric(s, AwsRemoteOperation).None?
  }

  /** A call of a Lambda function goes to the function, other SDK calls to their service. */
  ghost predicate IsSdkName(s: SpanView, service: string, name: string) {
    if service == "Lambda" && Get(s, RpcService) == Some("Lambda") && Get(s, RpcMethod) == Some("Invoke") then
      Get(s, AwsLambdaFunctionName) == Some(name) && name != ""
    else name == if service in SDK_NAMES then SDK_NAMES[service] else "AWS::" + service
  }

  /** The service a convention names, from the text under its key. */
  ghost predicate ConventionNamesService(s: SpanView, c: nat, name: string)
    requires c < |CONVENTIONS|
  {
    var row := CONVENTIONS[c];
    if row.service.None? then name == "graphql"
    else if c == 0 && Get(s, RpcSystem) == Some("aws-api") then
      IsSdkName(s, Get(s, RpcService).GetOr(UNKNOWN_REMOTE_SERVICE), name)
    else Get(s, row.service.value) == Some(name)
  }

  /** AWS remote names come first, then the peer service, then the deciding convention. */
  ghost predicate NamesService(s: SpanView, name: string) {
    && name != UNKNOWN_REMOTE_SERVICE
    && if GetMetric(s, AwsRemoteService).Some? then GetMetric(s, AwsRemoteService) == Some(name)
       else if Has(s, PeerService) then Get(s, PeerService) == Some(name)
       else exists c: nat {:trigger Decides(s, c)} :: Decides(s, c) && ConventionNamesService(s, c, name)
  }

  /** The operation a convention names: the text under its key, or else the keyword of its statement. */
  ghost predicate ConventionNamesOperation(w: World, s: SpanView, c: nat, name: string)
    requires c < |CONVENTIONS|
  {
    var row := CONVENTIONS[c];
    if Has(s, row.operation) then Get(s, row.operation) == Some(name)
    else row.statement.Some? && Has(s, row.statement.value)
         && w.sqlKeyword(Get(s, row.statement.value).value) == Some(name)
  }

  ghost predicate NamesOperation(w: World, s: SpanView, name: string) {
    && name != UNKNOWN_REMOTE_OPERATION
    && if HasAwsRemote(s) then GetMetric(s, AwsRemoteOperation) == Some(name)
       else exists c: nat {:trigger Decides(s, c)} :: Decides(s, c) && ConventionNamesOperation(w, s, c, name)
  }

  /** A host, with its port if there is one. */
  ghost predicate IsHost(host: Option<string>, port: Option<int>, name: string) {
    host.Some? && name == host.value + if port.Some? then ":" + IntText(port.value) else ""
  }

  /** The service by address: the peer's name, else its socket address, else the host of the URL. */
  ghost predicate AddressedAs(w: World, s: SpanView, name: string) {
    if Has(s, NetPeerName) then IsHost(Get(s, NetPeerName), GetPort(s, NetPeerPort), name)
    else if Has(s, NetSockPeerAddr) then IsHost(Get(s, NetSockPeerAddr), GetPort(s, NetSockPeerPort), name)
    else
      var host := if Get(s, HttpUrl).GetOr("") == "" then "" else w.urlNetloc(Get(s, HttpUrl).value);
      name == if host == "" then UNKNOWN_REMOTE_SERVICE else host
  }

  /** The operation by request: the method, if known, and the first part of the URL's path. */
  ghost predicate RequestedAs(w: World, s: SpanView, name: string) {
    var method_ := if Has(s, HttpMethod) then Get(s, HttpMethod).value + " " else "";
    if Has(s, HttpUrl) then
      exists path | IsFirstPart(w.urlPath(Get(s, HttpUrl).value), path) :: name == method_ + path
    else name == method_ + UNKNOWN_REMOTE_OPERATION
  }

  /** What the remote of a span is: what is named, and what is derived where nothing is named. */
  ghost predicate IsRemoteOf(w: World, s: SpanView, service: string, operation: string) {
    && (NamesService(s, service) || ((forall name :: !NamesService(s, name)) && AddressedAs(w, s, service)))
    && (NamesOperation(w, s, operation)
        || ((forall name :: !NamesOperation(w, s, name)) && RequestedAs(w, s, operation)))
  }

  // ---------- The tables say what the generator finds ----------

  lemma MentioningIsNaming(s: SpanView)
    ensures |CONVENTIONS| == 5 && forall c: nat | c < 5 :: Mentions(s, CONVENTIONS[c]) == Names(s, c)
  {
    assert Mentions(s, CONVENTIONS[0]) == Names(s, 0) && Mentions(s, CONVENTIONS[1]) == Names(s, 1)
        && Mentions(s, CONVENTIONS[2]) == Names(s, 2) && Mentions(s, CONVENTIONS[3]) == Names(s, 3)
        && Mentions(s, CONVENTIONS[4]) == Names(s, 4);
  }

  /** The first convention that names a remote is the one that decides. */
  lemma DecidesExactly(s: SpanView, c: nat)
    ensures Decides(s, c) <==> !HasAwsRemote(s) && c == FirstConvention(s, 0) && c < 5
  {
    MentioningIsNaming(s);
  }

  lemma SdkTable(service: string)
    ensures NormalizedSdkService(service) ==
            if service in SDK_NAMES then Some(SDK_NAMES[service]) else None
  {
  }

  lemma SdkNames(s: SpanView, service: string, name: string)
    requires Get(s, RpcSystem) == Some("aws-api") && Get(s, RpcService).GetOr(UNKNOWN_REMOTE_SERVICE) == service
    requires name != UNKNOWN_REMOTE_SERVICE
    ensures IsSdkName(s, service, name) <==> NormalizedService(s, service) == name
  {
    SdkTable(service);
  }

  lemma ConventionalService(w: World, s: SpanView, c: nat, name: string)
    requires Decides(s, c) && name != UNKNOWN_REMOTE_SERVICE
    ensures ConventionNamesService(s, c, name) <==> ConventionalRemote(w, s).service == name
  {
    DecidesExactly(s, c);
    if c == 0 && IsAwsSdkSpan(s) {
      SdkNames(s, Get(s, RpcService).GetOr(UNKNOWN_REMOTE_SERVICE), name);
    }
  }

  lemma ConventionalOperation(w: World, s: SpanView, c: nat, name: string)
    requires Decides(s, c) && name != UNKNOWN_REMOTE_OPERATION
    ensures ConventionNamesOperation(w, s, c, name) <==> ConventionalRemote(w, s).operation == name
  {
    DecidesExactly(s, c);
  }

  lemma UndecidedIsUnknown(w: World, s: SpanView)
    requires !HasAwsRemote(s) && forall c: nat :: !Decides(s, c)
    ensures ConventionalRemote(w, s) == Remote(UNKNOWN_REMOTE_SERVICE, UNKNOWN_REMOTE_OPERATION)
  {
    DecidesExactly(s, FirstConvention(s, 0));
    assert forall c: nat | c < 5 :: !Names(s, c);
    assert !Names(s, 0) && !Names(s, 1) && !Names(s, 2) && !Names(s, 3) && !Names(s, 4);
  }

  lemma OnlyOneDecides(s: SpanView, c: nat, d: nat)
    requires Decides(s, c) && Decides(s, d)
    ensures c == d
  {
    DecidesExactly(s, c);
    DecidesExactly(s, d);
  }

  /** A service is named exactly if the table names it. */
  lemma NamedServiceExactly(w: World, s: SpanView, name: string)
    ensures NamesService(s, name) <==> name != UNKNOWN_REMOTE_SERVICE && NamedRemote(w, s).service == name
  {
    if name != UNKNOWN_REMOTE_SERVICE && GetMetric(s, AwsRemoteService).None? && !Has(s, PeerService) {
      if c: nat :| Decides(s, c) {
        ConventionalService(w, s, c, name);
        forall d: nat | Decides(s, d)
          ensures d == c
        {
          OnlyOneDecides(s, c, d);
        }
      } else if !HasAwsRemote(s) {
        UndecidedIsUnknown(w, s);
      }
    }
  }

  /** An operation is named exactly if the table names it. */
  lemma NamedOperationExactly(w: World, s: SpanView, name: string)
    ensures NamesOperation(w, s, name) <==> name != UNKNOWN_REMOTE_OPERATION && NamedRemote(w, s).operation == name
  {
    if name != UNKNOWN_REMOTE_OPERATION && !HasAwsRemote(s) {
      if c: nat :| Decides(s, c) {
        ConventionalOperation(w, s, c, name);
        forall d: nat | Decides(s, d)
          ensures d == c
        {
          OnlyOneDecides(s, c, d);
        }
      } else {
        UndecidedIsUnknown(w, s);
      }
    }
  }

  lemma AddressesAreTaken(w: World, s: SpanView)
    ensures AddressedAs(w, s, GeneratedRemoteService(w, s))
  {
  }

  lemma RequestsAreTaken(w: World, s: SpanView)
    ensures RequestedAs(w, s, GeneratedRemoteOperation(w, s))
  {
    if Has(s, HttpUrl) {
      ApiPathIsFirstPart(w.urlPath(Get(s, HttpUrl).value));
    }
  }

  /**
    Every span's remote service and operation: what AWS remote names, the peer service or the first convention with a
    key of its own name, and where they name nothing, what address and request give.
   */
  lemma RemoteIsNamed(w: World, s: SpanView)
    ensures IsRemoteOf(w, s, RemoteOf(w, s).service, RemoteOf(w, s).operation)
  {
    var r := RemoteOf(w, s);
    forall name
      ensures NamesService(s, name) <==> name != UNKNOWN_REMOTE_SERVICE && NamedRemote(w, s).service == name
      ensures NamesOperation(w, s, name) <==> name != UNKNOWN_REMOTE_OPERATION && NamedRemote(w, s).operation == name
    {
      NamedServiceExactly(w, s, name);
      NamedOperationExactly(w, s, name);
    }
    AddressesAreTaken(w, s);
    RequestsAreTaken(w, s);
  }

  // ---------- No name from the other kind of key ----------

  /** Keys that say what a service is called or where it is. */
  predicate IsServiceKey(key: SpanKey) {
    || key.RpcService? || key.RpcSystem? || key.AwsLambdaFunctionName? || key.DbSystem? || key.FaasInvokedName?
    || key.MessagingSystem? || key.PeerService? || key.NetPeerName? || key.NetSockPeerAddr?
  }

  /** Keys that say what an operation is called. */
  predicate IsOperationKey(key: SpanKey) {
    || key.RpcMethod? || key.DbOperation? || key.DbStatement? || key.FaasTrigger? || key.MessagingOperation?
    || key.GraphqlOperationType? || key.HttpMethod?
  }

  ghost predicate AlikeOutside(s: SpanView, t: SpanView) {
    && t.attributes.ports == s.attributes.ports
    && GetMetric(t, AwsRemoteService) == GetMetric(s, AwsRemoteService)
    && GetMetric(t, AwsRemoteOperation) == GetMetric(s, AwsRemoteOperation)
  }

  /** Two spans of the same keys, ports and AWS remote names that differ at most in what operations are called. */
  ghost predicate AlikeButOperations(s: SpanView, t: SpanView) {
    && AlikeOutside(s, t)
    && forall key {:trigger IsOperationKey(key)} ::
         if IsOperationKey(key) then Has(t, key) == Has(s, key) else Get(t, key) == Get(s, key)
  }

  /** The same for what services are called and where they are. */
  ghost predicate AlikeButServices(s: SpanView, t: SpanView) {
    && AlikeOutside(s, t)
    && forall key {:trigger IsServiceKey(key)} ::
         if IsServiceKey(key) then Has(t, key) == Has(s, key) else Get(t, key) == Get(s, key)
  }

  lemma AddressIgnoresOperations(w: World, s: SpanView, t: SpanView)
    requires AlikeButOperations(s, t)
    ensures GeneratedRemoteService(w, t) == GeneratedRemoteService(w, s)
  {
    assert !IsOperationKey(NetPeerName) && !IsOperationKey(NetSockPeerAddr) && !IsOperationKey(HttpUrl);
  }

  lemma RequestIgnoresServices(w: World, s: SpanView, t: SpanView)
    requires AlikeButServices(s, t)
    ensures GeneratedRemoteOperation(w, t) == GeneratedRemoteOperation(w, s)
  {
    assert !IsServiceKey(HttpMethod) && !IsServiceKey(HttpUrl);
  }

  lemma ServiceTextsStay(s: SpanView, t: SpanView)
    requires AlikeButOperations(s, t)
    ensures Get(t, RpcService) == Get(s, RpcService) && Get(t, RpcSystem) == Get(s, RpcSystem)
    ensures Get(t, AwsLambdaFunctionName) == Get(s, AwsLambdaFunctionName) && Get(t, DbSystem) == Get(s, DbSystem)
    ensures Get(t, FaasInvokedName) == Get(s, FaasInvokedName) && Get(t, MessagingSystem) == Get(s, MessagingSystem)
  {
    assert !IsOperationKey(RpcService) && !IsOperationKey(RpcSystem) && !IsOperationKey(AwsLambdaFunctionName);
    assert !IsOperationKey(DbSystem) && !IsOperationKey(FaasInvokedName) && !IsOperationKey(MessagingSystem);
  }

  lemma OperationKeysStay(s: SpanView, t: SpanView)
    requires AlikeButOperations(s, t)
    ensures Has(t, RpcMethod) == Has(s, RpcMethod) && Has(t, DbOperation) == Has(s, DbOperation)
    ensures Has(t, DbStatement) == Has(s, DbStatement) && Has(t, FaasTrigger) == Has(s, FaasTrigger)
    ensures Has(t, MessagingOperation) == Has(s, MessagingOperation)
    ensures Has(t, GraphqlOperationType) == Has(s, GraphqlOperationType)
  {
    assert IsOperationKey(RpcMethod) && IsOperationKey(DbOperation) && IsOperationKey(DbStatement);
    assert IsOperationKey(FaasTrigger) && IsOperationKey(MessagingOperation) && IsOperationKey(GraphqlOperationType);
  }

  lemma OperationTextsStay(s: SpanView, t: SpanView)
    requires AlikeButServices(s, t)
    ensures Get(t, RpcMethod) == Get(s, RpcMethod) && Get(t, DbOperation) == Get(s, DbOperation)
    ensures Get(t, DbStatement) == Get(s, DbStatement) && Get(t, FaasTrigger) == Get(s, FaasTrigger)
    ensures Get(t, MessagingOperation) == Get(s, MessagingOperation)
    ensures Get(t, GraphqlOperationType) == Get(s, GraphqlOperationType)
  {
    assert !IsServiceKey(RpcMethod) && !IsServiceKey(DbOperation) && !IsServiceKey(DbStatement);
    assert !IsServiceKey(FaasTrigger) && !IsServiceKey(MessagingOperation) && !IsServiceKey(GraphqlOperationType);
  }

  lemma ServiceKeysStay(s: SpanView, t: SpanView)
    requires AlikeButServices(s, t)
    ensures Has(t, RpcService) == Has(s, RpcService) && Has(t, DbSystem) == Has(s, DbSystem)
    ensures Has(t, FaasInvokedName) == Has(s, FaasInvokedName) && Has(t, MessagingSystem) == Has(s, MessagingSystem)
  {
    assert IsServiceKey(RpcService) && IsServiceKey(DbSystem);
    assert IsServiceKey(FaasInvokedName) && IsServiceKey(MessagingSystem);
  }

  lemma RpcIgnoresOperations(w: World, s: SpanView, t: SpanView)
    requires AlikeButOperations(s, t) && IsLambdaInvoke(t) == IsLambdaInvoke(s) && !HasAwsRemote(s) && Names(s, 0)
    ensures ConventionalRemote(w, t).service == ConventionalRemote(w, s).service
  {
    ServiceTextsStay(s, t);
    OperationKeysStay(s, t);
    assert Truthy(t, AwsLambdaFunctionName) == Truthy(s, AwsLambdaFunctionName) && IsAwsSdkSpan(t) == IsAwsSdkSpan(s);
    var name := RemoteServiceAt(s, RpcService);
    assert NormalizedService(t, name) == NormalizedService(s, name);
  }

  lemma ConventionIgnoresOperations(w: World, s: SpanView, t: SpanView)
    requires AlikeButOperations(s, t) && IsLambdaInvoke(t) == IsLambdaInvoke(s)
    ensures ConventionalRemote(w, t).service == ConventionalRemote(w, s).service
  {
    if !HasAwsRemote(s) && Names(s, 0) {
      RpcIgnoresOperations(w, s, t);
    } else {
      ServiceTextsStay(s, t);
      OperationKeysStay(s, t);
    }
  }

  lemma ConventionIgnoresServices(w: World, s: SpanView, t: SpanView)
    requires AlikeButServices(s, t)
    ensures ConventionalRemote(w, t).operation == ConventionalRemote(w, s).operation
  {
    OperationTextsStay(s, t);
    ServiceKeysStay(s, t);
    assert DbStatementOperation(w, t) == DbStatementOperation(w, s);
    assert IsDbSpan(t) == IsDbSpan(s) && HasAwsRemote(t) == HasAwsRemote(s);
  }

  /** What an operation is called does not matter to the remote service, but for invoking a Lambda function. */
  lemma ServiceIgnoresOperations(w: World, s: SpanView, t: SpanView)
    requires AlikeButOperations(s, t) && IsLambdaInvoke(t) == IsLambdaInvoke(s)
    ensures RemoteOf(w, t).service == RemoteOf(w, s).service
  {
    ConventionIgnoresOperations(w, s, t);
    AddressIgnoresOperations(w, s, t);
    assert !IsOperationKey(PeerService);
  }

  /** What a service is called and where it is does not matter to the remote operation. */
  lemma OperationIgnoresServices(w: World, s: SpanView, t: SpanView)
    requires AlikeButServices(s, t)
    ensures RemoteOf(w, t).operation == RemoteOf(w, s).operation
  {
    ConventionIgnoresServices(w, s, t);
    RequestIgnoresServices(w, s, t);
  }
}
