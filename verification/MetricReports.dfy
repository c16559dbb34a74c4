/** What generated attributes hold, key by key, in terms of the span's own attributes. */
module MetricReports {
  import opened Wrappers
  import opened SpanProcessing
  import opened MetricAttributes
  import opened RemoteNames
  import opened RemoteResources

  ghost predicate IsKindName(kind: SpanKind, name: string) {
    && (kind.INTERNAL? ==> name == "INTERNAL") && (kind.SERVER? ==> name == "SERVER")
    && (kind.CLIENT? ==> name == "CLIENT") && (kind.PRODUCER? ==> name == "PRODUCER")
    && (kind.CONSUMER? ==> name == "CONSUMER")
  }

  /** The resource's service name, unless it is one that stands for an unknown service. */
  ghost predicate NamesLocalService(w: World, name: Option<string>) {
    if w.serviceName.None? || "unknown_service" <= w.serviceName.value then name == Some("UnknownService")
    else name == w.serviceName
  }

  /** A span that no valid parent of the same process has. */
  ghost predicate StartsHere(s: SpanView) {
    !exists parent :: s.parent == Some(parent) && parent.isValid && !parent.isRemote
  }

  /** A span that starts here and serves no request. */
  ghost predicate IsInternal(s: SpanView) { StartsHere(s) && !s.kind.SERVER? }

  ghost predicate IsOfBoto3Sqs(w: World, s: SpanView) {
    exists name :: s.scope == Some(Scope(Some(name))) && w.isBoto3Sqs(name)
  }

  /** The call of a Lambda function through the AWS SDK. */
  ghost predicate InvokesLambda(s: SpanView) {
    Get(s, RpcSystem) == Some("aws-api") && Get(s, RpcService) == Some("Lambda") && Get(s, RpcMethod) == Some("Invoke")
  }

  ghost predicate CallsDatabase(s: SpanView) { Has(s, DbSystem) || Has(s, DbOperation) || Has(s, DbStatement) }

  // ---------- Dependency attributes ----------

  /** Type, identifier and primary identifier of a resource, and where it is: by itself, or else by who calls it. */
  ghost predicate ReportsResource(s: SpanView, d: Entries, resource: Option<Resource>, place: Place) {
    if resource.None? then
      forall key | key in d :: !IsResourceKey(key)
    else
      && At(d, AwsRemoteResourceType) == Some(resource.value.type_)
      && At(d, AwsRemoteResourceIdentifier) == Some(resource.value.id)
      && At(d, AwsCloudFormationPrimaryIdentifier) == Some(resource.value.cfnId)
      && if place.account.Some? && place.region.Some? then
           && At(d, AwsRemoteResourceAccountId) == place.account && At(d, AwsRemoteResourceRegion) == place.region
           && At(d, AwsRemoteResourceAccessKey) == None
         else
           && At(d, AwsRemoteResourceAccountId) == None && At(d, AwsRemoteResourceRegion) == Get(s, AwsAuthRegion)
           && At(d, AwsRemoteResourceAccessKey) == Get(s, AwsAuthAccessKey)
  }

  predicate IsResourceKey(key: MetricKey) {
    || key.AwsRemoteResourceType? || key.AwsRemoteResourceIdentifier? || key.AwsCloudFormationPrimaryIdentifier?
    || key.AwsRemoteResourceAccountId? || key.AwsRemoteResourceRegion? || key.AwsRemoteResourceAccessKey?
  }

  /** Who calls, and what is called. */
  ghost predicate ReportsNames(w: World, s: SpanView, d: Entries) {
    && NamesLocalService(w, At(d, AwsLocalService))
    && At(d, AwsLocalOperation) == Some(if IsInternal(s) then "InternalOperation"
                                        else GetMetric(s, AwsLocalOperation).GetOr("UnknownOperation"))
    && AwsRemoteService in d && AwsRemoteOperation in d
    && IsRemoteOf(w, s, d[AwsRemoteService], d[AwsRemoteOperation])
  }

  ghost predicate ReportsRest(w: World, s: SpanView, d: Entries) {
    && AwsSpanKind in d && IsKindName(s.kind, d[AwsSpanKind])
    && At(d, AwsRemoteDbUser) == (if CallsDatabase(s) then Get(s, DbUser) else None)
    && At(d, AwsRemoteEnvironment) ==
         if !InvokesLambda(s) then None
         else Some("lambda:" + if w.remoteEnvironment != "" then w.remoteEnvironment else "default")
  }

  /** All that the dependency attributes of a span hold. */
  ghost predicate IsDependencyReport(w: World, s: SpanView, d: Entries) {
    && ReportsNames(w, s, d) && ReportsRest(w, s, d)
    && exists resource, place :: IsResourceOf(w, s, resource) && IsPlaceOf(w, s, place)
                                 && ReportsResource(s, d, resource, place)
  }

  /** The entries that hold what each key should. */
  ghost predicate HoldsExpected(d: Entries, v: Dependency) {
    forall key :: At(d, key) == Expected(v, key)
  }

  lemma NamesAreReported(w: World, s: SpanView, v: Dependency, d: Entries)
    requires DependencyOf(w, s) == Success(v) && HoldsExpected(d, v)
    ensures ReportsNames(w, s, d)
  {
    RemoteIsNamed(w, s);
    RootsStartHere(w, s);
    assert At(d, AwsLocalService) == Some(v.service) && At(d, AwsLocalOperation) == Some(v.operation);
    assert At(d, AwsRemoteService) == Some(v.remote.service) && At(d, AwsRemoteOperation) == Some(v.remote.operation);
  }

  lemma RestIsReported(w: World, s: SpanView, v: Dependency, d: Entries)
    requires DependencyOf(w, s) == Success(v) && HoldsExpected(d, v)
    ensures ReportsRest(w, s, d)
  {
    assert At(d, AwsSpanKind) == Some(v.kind);
  }

  lemma NoResourceIsReported(s: SpanView, v: Dependency, d: Entries, key: MetricKey)
    requires HoldsExpected(d, v) && v.resource.None? && key in d
    ensures !IsResourceKey(key)
  {
    assert At(d, key) == Expected(v, key);
  }

  lemma ResourceIsReported(s: SpanView, v: Dependency, d: Entries)
    requires v.signer == Place(Get(s, AwsAuthAccessKey), Get(s, AwsAuthRegion)) && HoldsExpected(d, v)
    ensures ReportsResource(s, d, v.resource, v.place)
  {
    if v.resource.None? {
      forall key | key in d
        ensures !IsResourceKey(key)
      {
        NoResourceIsReported(s, v, d, key);
      }
    }
  }

  /**
    The dependency attributes of a span are what the tables of names, resources and places say of its own attributes,
    and nothing else.
   */
  lemma DependencyIsReported(w: World, s: SpanView)
    requires DependencyOf(w, s).Success?
    ensures IsDependencyReport(w, s, DependencyEntries(DependencyOf(w, s).value))
  {
    var v := DependencyOf(w, s).value;
    var d := DependencyEntries(v);
    forall key
      ensures At(d, key) == Expected(v, key)
    {
      DependencyEntriesHold(v, key);
    }
    NamesAreReported(w, s, v, d);
    RestIsReported(w, s, v, d);
    ResourceIsReported(s, v, d);
    ResourceIsRead(w, s);
    PlaceIsFirst(w, s);
  }

  // ---------- Service attributes ----------

  /** A span name that says what is served. */
  ghost predicate NamesOperationItself(s: SpanView) {
    s.name.Some? && s.name != Some("UnknownOperation") && (Has(s, HttpMethod) ==> s.name != Get(s, HttpMethod))
  }

  /** The operation that a request is for: its method, if known, and the first part of its target. */
  ghost predicate ServesTarget(w: World, s: SpanView, name: string) {
    var method_ := if Has(s, HttpMethod) then Get(s, HttpMethod).value + " " else "";
    if Has(s, HttpTarget) then exists path | IsFirstPart(Get(s, HttpTarget).value, path) :: name == method_ + path
    else if Has(s, HttpUrl) then
      exists path | IsFirstPart(w.urlPath(Get(s, HttpUrl).value), path) :: name == method_ + path
    else name == "UnknownOperation"
  }

  ghost predicate NamesIncoming(w: World, s: SpanView, name: string) {
    if w.lambdaFunctionName.Some? && s.scope.Some? && s.scope.value.name != Some("opentelemetry.instrumentation.flask")
    then name == w.lambdaFunctionName.value + "/FunctionHandler"
    else if IsInternal(s) then name == "InternalOperation"
    else if NamesOperationItself(s) then s.name == Some(name)
    else ServesTarget(w, s, name)
  }

  /** All that the service attributes of a span hold. */
  ghost predicate IsServiceReport(w: World, s: SpanView, d: Entries) {
    && d.Keys == {AwsLocalService, AwsLocalOperation, AwsSpanKind}
    && NamesLocalService(w, At(d, AwsLocalService))
    && NamesIncoming(w, s, d[AwsLocalOperation])
    && if StartsHere(s) then d[AwsSpanKind] == "LOCAL_ROOT" else IsKindName(s.kind, d[AwsSpanKind])
  }

  lemma IncomingIsNamed(w: World, s: SpanView)
    requires IngressOperation(w, s).Success?
    ensures NamesIncoming(w, s, IngressOperation(w, s).value)
  {
    RootsStartHere(w, s);
    if Has(s, HttpTarget) {
      ApiPathIsFirstPart(Get(s, HttpTarget).value);
    } else if Has(s, HttpUrl) {
      ApiPathIsFirstPart(w.urlPath(Get(s, HttpUrl).value));
    }
  }

  /** The service attributes of a span are three: its service, what it serves, and its kind. */
  lemma ServiceIsReported(w: World, s: SpanView)
    requires ServiceOf(w, s).Success?
    ensures IsServiceReport(w, s, ServiceEntries(ServiceOf(w, s).value))
  {
    IncomingIsNamed(w, s);
    RootsStartHere(w, s);
  }

  // ---------- Which attributes are generated ----------

  /** Servers and local roots serve; SQS spans of boto3 are left to the instrumentation of botocore. */
  ghost predicate IsService(w: World, s: SpanView) {
    s.kind.SERVER? || (StartsHere(s) && !IsOfBoto3Sqs(w, s))
  }

  /** Clients, producers and consumers depend on others, but for consumers that process below a consumer. */
  ghost predicate IsDependency(w: World, s: SpanView) {
    || s.kind.CLIENT?
    || (!IsOfBoto3Sqs(w, s) && (s.kind.PRODUCER? || (s.kind.CONSUMER? && !ProcessesBelowConsumer(w, s))))
  }

  lemma RootsStartHere(w: World, s: SpanView)
    ensures IsLocalRoot(s) <==> StartsHere(s)
    ensures IsBoto3SqsSpan(w, s) <==> IsOfBoto3Sqs(w, s)
  {
    assert s.parent.Some? ==> s.parent == Some(s.parent.value);
    if IsBoto3SqsSpan(w, s) {
      assert s.scope == Some(Scope(Some(s.scope.value.name.value)));
    }
  }

  lemma GeneratesExactly(w: World, s: SpanView)
    ensures GeneratesService(w, s) <==> IsService(w, s)
    ensures GeneratesDependency(w, s) <==> IsDependency(w, s)
  {
    RootsStartHere(w, s);
    if s.kind == CONSUMER && !IsBoto3SqsSpan(w, s) {
      ConsumerGeneratesExactly(w, s);
    }
  }
}
