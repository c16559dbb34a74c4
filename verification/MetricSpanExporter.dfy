/** Generating metric attributes and writing them into spans before they are exported. */
module MetricSpanExporter {
  import opened Wrappers
  import opened Passes
  import opened Sequences
  import opened SpanProcessing
  import opened MetricAttributes
  import opened MetricReports
  import opened Delimiters

  // ---------- What an exported span holds ----------

  function AsText(d: Entries): map<Key, string> { map key: MetricKey | key in d :: Metric(key) := d[key] }

  function WithAttributes(s: SpanView, d: Entries): SpanView {
    s.(attributes := s.attributes.(text := s.attributes.text + AsText(d)))
  }

  /** The attributes a span is exported with: dependency ones, but for the kind of a local root, before service ones. */
  function Chosen(g: Generated): Option<Entries> {
    if g.service.Some? && g.dependency.Some? then Some(g.dependency.value[AwsSpanKind := LOCAL_ROOT])
    else if g.service.Some? then g.service
    else g.dependency
  }

  function Exported(w: World, s: SpanView): Result<SpanView, Error> {
    match Generate(w, s)
    case Failure(e) => Failure(e)
    case Success(g) => Success(if Chosen(g).Some? then WithAttributes(s, Chosen(g).value) else s)
  }

  /** What a span is exported as: with what is reported of it, as a local root if it both serves and depends. */
  ghost predicate IsExport(w: World, s: SpanView, t: SpanView) {
    if IsDependency(w, s) then
      exists d | IsDependencyReport(w, s, d) ::
        t == WithAttributes(s, if IsService(w, s) then d[AwsSpanKind := "LOCAL_ROOT"] else d)
    else if IsService(w, s) then
      exists d | IsServiceReport(w, s, d) :: t == WithAttributes(s, d)
    else t == s
  }

  /** Every exported span holds what the tables of names, resources and places say of it. */
  lemma ExportIsReported(w: World, s: SpanView)
    requires Exported(w, s).Success?
    ensures IsExport(w, s, Exported(w, s).value)
  {
    GeneratesExactly(w, s);
    if GeneratesDependency(w, s) {
      DependencyIsReported(w, s);
    } else if GeneratesService(w, s) {
      ServiceIsReported(w, s);
    }
  }

  lemma WrittenText(s: SpanView, d: Entries)
    ensures var t := WithAttributes(s, d);
            && SameButMetrics(s, t)
            && (forall name :: At(t.attributes.text, OtherKey(name)) == At(s.attributes.text, OtherKey(name)))
            && (forall key {:trigger GetMetric(t, key)} ::
                  GetMetric(t, key) == if key in d then At(d, key) else GetMetric(s, key))
  {
    var t := WithAttributes(s, d);
    forall key
      ensures Get(t, key) == Get(s, key)
    {
      assert Convention(key) !in AsText(d);
    }
    forall name
      ensures At(t.attributes.text, OtherKey(name)) == At(s.attributes.text, OtherKey(name))
    {
      assert OtherKey(name) !in AsText(d);
    }
    forall key
      ensures GetMetric(t, key) == if key in d then At(d, key) else GetMetric(s, key)
    {
      assert Metric(key) in AsText(d) <==> key in d;
    }
  }

  lemma WrittenWithBoth(s: SpanView, service: Entries, dependency: Entries)
    requires service.Keys <= dependency.Keys && AwsSpanKind in service && service[AwsSpanKind] == LOCAL_ROOT
    ensures var t := WithAttributes(s, dependency[AwsSpanKind := LOCAL_ROOT]);
            && SameButMetrics(s, t)
            && (forall name :: At(t.attributes.text, OtherKey(name)) == At(s.attributes.text, OtherKey(name)))
            && GetMetric(t, AwsSpanKind) == Some(LOCAL_ROOT)
            && (forall key | key in dependency && key != AwsSpanKind :: GetMetric(t, key) == At(dependency, key))
            && (forall key | key !in dependency :: GetMetric(t, key) == GetMetric(s, key))
            && ((forall key | key in service :: GetMetric(t, key) == At(service, key))
                <==> (forall key | key in service && key != AwsSpanKind :: At(dependency, key) == At(service, key)))
  {
    WrittenText(s, dependency[AwsSpanKind := LOCAL_ROOT]);
  }

  /**
    A span generating both kinds is exported with all dependency attributes but the kind, which is that of a local root,
    and with all service attributes exactly when it does not name a Lambda handler; what is not generated stays.
   */
  lemma ExportedWithBoth(w: World, s: SpanView)
    requires GeneratesService(w, s) && GeneratesDependency(w, s) && Generate(w, s).Success?
    ensures var g, t := Generate(w, s).value, Exported(w, s).value;
            && SameButMetrics(s, t)
            && (forall name :: At(t.attributes.text, OtherKey(name)) == At(s.attributes.text, OtherKey(name)))
            && GetMetric(t, AwsSpanKind) == Some(LOCAL_ROOT)
            && (forall key | key in g.dependency.value && key != AwsSpanKind ::
                  GetMetric(t, key) == At(g.dependency.value, key))
            && (forall key | key !in g.dependency.value :: GetMetric(t, key) == GetMetric(s, key))
            && ((forall key | key in g.service.value :: GetMetric(t, key) == At(g.service.value, key))
                <==> !NamesLambdaHandler(w, s))
  {
    ServiceWithinDependency(w, s);
    DependencyNames(DependencyOf(w, s).value);
    assert ServiceEntries(ServiceOf(w, s).value).Keys == {AwsSpanKind, AwsLocalOperation, AwsLocalService};
    WrittenWithBoth(s, Generate(w, s).value.service.value, Generate(w, s).value.dependency.value);
  }

  lemma DependencyNames(v: Dependency)
    ensures {AwsSpanKind, AwsLocalOperation, AwsLocalService} <= DependencyEntries(v).Keys
  {
    DependencyEntriesHold(v, AwsSpanKind);
    DependencyEntriesHold(v, AwsLocalOperation);
    DependencyEntriesHold(v, AwsLocalService);
  }

  lemma WritingTwiceIsWritingOnce(s: SpanView, d: Entries)
    ensures WithAttributes(WithAttributes(s, d), d) == WithAttributes(s, d)
  {
    assert s.attributes.text + AsText(d) + AsText(d) == s.attributes.text + AsText(d);
  }

  lemma ChosenNames(v: Dependency, service: Option<Entries>)
    ensures var d := Chosen(Generated(service, Some(DependencyEntries(v)))).value;
            && At(d, AwsLocalOperation) == Some(v.operation)
            && At(d, AwsRemoteService) == Some(v.remote.service)
            && At(d, AwsRemoteOperation) == Some(v.remote.operation)
  {
    DependencyEntriesHold(v, AwsLocalOperation);
    DependencyEntriesHold(v, AwsRemoteService);
    DependencyEntriesHold(v, AwsRemoteOperation);
  }

  lemma GenerateIsStable(w: World, s: SpanView, d: Entries)
    requires Generate(w, s).Success? && Chosen(Generate(w, s).value) == Some(d)
    ensures Generate(w, WithAttributes(s, d)) == Generate(w, s)
  {
    var g, t := Generate(w, s).value, WithAttributes(s, d);
    WrittenText(s, d);
    KindsIgnoreMetrics(w, s, t);
    ServiceIgnoresMetrics(w, s, t);
    if GeneratesDependency(w, s) {
      ChosenNames(DependencyOf(w, s).value, g.service);
      DependencyIsStable(w, s, t);
    }
  }

  /** Exporting a span in its exported form changes nothing, and does not fail. */
  lemma ExportingTwiceIsExportingOnce(w: World, s: SpanView)
    requires Exported(w, s).Success?
    ensures Exported(w, Exported(w, s).value) == Exported(w, s)
  {
    var chosen := Chosen(Generate(w, s).value);
    if chosen.Some? {
      GenerateIsStable(w, s, chosen.value);
      WritingTwiceIsWritingOnce(s, chosen.value);
    }
  }

  // ---------- The generator, writing attributes one after another ----------

  class BoundedAttributes {
    var entries: Entries

    constructor ()
      ensures entries == map[]
    {
      entries := map[];
    }
  }

  method SetRemoteServiceAndOperation(w: World, s: SpanView, attributes: BoundedAttributes)
    modifies attributes
    ensures attributes.entries ==
            old(attributes.entries)[AwsRemoteService := RemoteOf(w, s).service]
                                   [AwsRemoteOperation := RemoteOf(w, s).operation]
  {
    var remoteService, remoteOperation := UNKNOWN_REMOTE_SERVICE, UNKNOWN_REMOTE_OPERATION;
    if GetMetric(s, AwsRemoteService).Some? || GetMetric(s, AwsRemoteOperation).Some? {
      remoteService := GetMetric(s, AwsRemoteService).GetOr(UNKNOWN_REMOTE_SERVICE);
      remoteOperation := GetMetric(s, AwsRemoteOperation).GetOr(UNKNOWN_REMOTE_OPERATION);
    } else if Has(s, RpcService) || Has(s, RpcMethod) {
      remoteService := NormalizedService(s, RemoteServiceAt(s, RpcService));
      remoteOperation := RemoteOperationAt(s, RpcMethod);
    } else if IsDbSpan(s) {
      remoteService := RemoteServiceAt(s, DbSystem);
      if Has(s, DbOperation) {
        remoteOperation := RemoteOperationAt(s, DbOperation);
      } else {
        remoteOperation := DbStatementOperation(w, s);
      }
    } else if Has(s, FaasInvokedName) || Has(s, FaasTrigger) {
      remoteService := RemoteServiceAt(s, FaasInvokedName);
      remoteOperation := RemoteOperationAt(s, FaasTrigger);
    } else if Has(s, MessagingSystem) || Has(s, MessagingOperation) {
      remoteService := RemoteServiceAt(s, MessagingSystem);
      remoteOperation := RemoteOperationAt(s, MessagingOperation);
    } else if Has(s, GraphqlOperationType) {
      remoteService := "graphql";
      remoteOperation := RemoteOperationAt(s, GraphqlOperationType);
    }
    assert Remote(remoteService, remoteOperation) == ConventionalRemote(w, s);
    if Has(s, PeerService) && GetMetric(s, AwsRemoteService).None? {
      remoteService := RemoteServiceAt(s, PeerService);
    }
    if remoteService == UNKNOWN_REMOTE_SERVICE {
      remoteService := GeneratedRemoteService(w, s);
    }
    if remoteOperation == UNKNOWN_REMOTE_OPERATION {
      remoteOperation := GeneratedRemoteOperation(w, s);
    }
    attributes.entries := attributes.entries[AwsRemoteService := remoteService][AwsRemoteOperation := remoteOperation];
  }

  method SetRemoteTypeAndIdentifier(found: Found, attributes: BoundedAttributes) returns (present: bool)
    modifies attributes
    ensures present == Completed(found).Some?
    ensures attributes.entries ==
            if present then PutResource(old(attributes.entries), Completed(found).value) else old(attributes.entries)
  {
    var primary := found.cfnId;
    if primary.None? {
      primary := found.id;
    }
    if found.type_.Some? && found.id.Some? && primary.Some? {
      attributes.entries := attributes.entries[AwsRemoteResourceType := found.type_.value];
      attributes.entries := attributes.entries[AwsRemoteResourceIdentifier := found.id.value];
      attributes.entries := attributes.entries[AwsCloudFormationPrimaryIdentifier := primary.value];
      return true;
    }
    return false;
  }

  method FindPlace(w: World, s: SpanView) returns (place: Place)
    ensures place == PlaceOf(w, s)
  {
    if Has(s, AwsSqsQueueUrl) {
      var url := EscapeDelimiters(Get(s, AwsSqsQueueUrl).value);
      return Place(w.sqsAccount(url), w.sqsRegion(url));
    }
    assert ARN_KEYS[0..] == ARN_KEYS;
    for i := 0 to |ARN_KEYS|
      invariant FirstArn(s, ARN_KEYS[i..]) == FirstArn(s, ARN_KEYS)
    {
      assert ARN_KEYS[i..][0] == ARN_KEYS[i] && ARN_KEYS[i..][1..] == ARN_KEYS[i + 1..];
      if Has(s, ARN_KEYS[i]) {
        var arn := Get(s, ARN_KEYS[i]).value;
        return Place(w.arnAccount(arn), w.arnRegion(arn));
      }
    }
    return Place(None, None);
  }

  method SetRemoteAccountIdAndRegion(w: World, s: SpanView, attributes: BoundedAttributes) returns (present: bool)
    modifies attributes
    ensures present == PlaceIsKnown(PlaceOf(w, s))
    ensures attributes.entries ==
            if present then PutPlace(old(attributes.entries), PlaceOf(w, s), SignerOf(s)) else old(attributes.entries)
  {
    var place := FindPlace(w, s);
    if place.account.Some? && place.region.Some? {
      attributes.entries := attributes.entries[AwsRemoteResourceAccountId := place.account.value];
      attributes.entries := attributes.entries[AwsRemoteResourceRegion := place.region.value];
      return true;
    }
    return false;
  }

  method SetRemoteAccessKeyAndRegion(s: SpanView, attributes: BoundedAttributes)
    modifies attributes
    ensures attributes.entries == PutPlace(old(attributes.entries), Place(None, None), SignerOf(s))
  {
    if Has(s, AwsAuthAccessKey) {
      attributes.entries := attributes.entries[AwsRemoteResourceAccessKey := Get(s, AwsAuthAccessKey).value];
    }
    if Has(s, AwsAuthRegion) {
      attributes.entries := attributes.entries[AwsRemoteResourceRegion := Get(s, AwsAuthRegion).value];
    }
  }

  method SetRemoteEnvironmentAndUser(w: World, s: SpanView, attributes: BoundedAttributes)
    modifies attributes
    ensures attributes.entries ==
            PutIf(PutIf(old(attributes.entries), AwsRemoteEnvironment, RemoteEnvironmentOf(w, s)),
                  AwsRemoteDbUser, if IsDbSpan(s) then Get(s, DbUser) else None)
  {
    if IsLambdaInvoke(s) {
      var environment := w.remoteEnvironment;
      if environment == "" {
        environment := "default";
      }
      attributes.entries := attributes.entries[AwsRemoteEnvironment := "lambda:" + environment];
    }
    if IsDbSpan(s) && Has(s, DbUser) {
      attributes.entries := attributes.entries[AwsRemoteDbUser := Get(s, DbUser).value];
    }
  }

  method GenerateServiceMetricAttributes(w: World, s: SpanView) returns (r: Result<Entries, Error>)
    ensures r.Success? <==> ServiceOf(w, s).Success?
    ensures r == if r.Success? then Success(ServiceEntries(ServiceOf(w, s).value)) else Failure(ServiceOf(w, s).error)
  {
    var attributes := new BoundedAttributes();
    attributes.entries := attributes.entries[AwsLocalService := ServiceName(w)];
    var operation := IngressOperation(w, s);
    if operation.Failure? {
      return Failure(operation.error);
    }
    attributes.entries := attributes.entries[AwsLocalOperation := operation.value];
    var kind := KindName(s.kind);
    if IsLocalRoot(s) {
      kind := LOCAL_ROOT;
    }
    attributes.entries := attributes.entries[AwsSpanKind := kind];
    return Success(attributes.entries);
  }

  method GenerateDependencyMetricAttributes(w: World, s: SpanView) returns (r: Result<Entries, Error>)
    ensures r.Success? <==> DependencyOf(w, s).Success?
    ensures r == if r.Success? then Success(DependencyEntries(DependencyOf(w, s).value))
                 else Failure(DependencyOf(w, s).error)
  {
    var attributes := new BoundedAttributes();
    attributes.entries := attributes.entries[AwsLocalService := ServiceName(w)];
    attributes.entries := attributes.entries[AwsLocalOperation := EgressOperation(s).GetOr(UNKNOWN_OPERATION)];
    SetRemoteServiceAndOperation(w, s, attributes);
    var found := FoundResource(w, s);
    if found.Failure? {
      return Failure(found.error);
    }
    var hasIdentifier := SetRemoteTypeAndIdentifier(found.value, attributes);
    if hasIdentifier {
      var hasAccount := SetRemoteAccountIdAndRegion(w, s, attributes);
      if !hasAccount {
        SetRemoteAccessKeyAndRegion(s, attributes);
      }
    }
    SetRemoteEnvironmentAndUser(w, s, attributes);
    attributes.entries := attributes.entries[AwsSpanKind := KindName(s.kind)];
    return Success(attributes.entries);
  }

  method GenerateFromSpan(w: World, s: SpanView) returns (r: Result<Generated, Error>)
    ensures r == Generate(w, s)
  {
    var service, dependency: Option<Entries> := None, None;
    if GeneratesService(w, s) {
      var made := GenerateServiceMetricAttributes(w, s);
      if made.Failure? {
        return Failure(made.error);
      }
      service := Some(made.value);
    }
    if GeneratesDependency(w, s) {
      var made := GenerateDependencyMetricAttributes(w, s);
      if made.Failure? {
        return Failure(made.error);
      }
      dependency := Some(made.value);
    }
    return Success(Generated(service, dependency));
  }

  // ---------- The exporter, overwriting the attributes of spans ----------

  class Span {
    const kind: SpanKind
    const name: Option<string>
    const parent: Option<Parent>
    const scope: Option<Scope>
    var attributes: Attributes

    constructor (view: SpanView)
      ensures View() == view
    {
      kind, name, parent, scope, attributes := view.kind, view.name, view.parent, view.scope, view.attributes;
    }

    function View(): SpanView
      reads this
    {
      SpanView(kind, name, parent, scope, attributes)
    }
  }

  ghost function Views(spans: seq<Span>): (views: seq<SpanView>)
    reads spans
    ensures |views| == |spans| && forall i | 0 <= i < |spans| :: views[i] == spans[i].View()
  {
    seq(|spans|, i requires 0 <= i < |spans| reads spans => spans[i].View())
  }

  /** Entries set one after another, in whatever order a dictionary gives them. */
  method Update<K, V>(original: map<K, V>, entries: map<K, V>) returns (updated: map<K, V>)
    ensures updated == original + entries
  {
    updated := original;
    var left := entries.Keys;
    while left != {}
      invariant left <= entries.Keys
      invariant updated.Keys == original.Keys + (entries.Keys - left)
      invariant forall key | key in updated ::
                  updated[key] == if key in entries && key !in left then entries[key] else original[key]
      decreases left
    {
      var key :| key in left;
      updated := updated[key := entries[key]];
      left := left - {key};
    }
  }

  method CopyAttributesWithLocalRoot(attributes: Entries) returns (copy: Entries)
    ensures copy == attributes[AwsSpanKind := LOCAL_ROOT]
  {
    copy := Update(map[], attributes);
    copy := copy[AwsSpanKind := LOCAL_ROOT];
  }

  method WrapSpanWithAttributes(span: Span, attributes: Entries)
    modifies span
    ensures span.View() == WithAttributes(old(span.View()), attributes)
  {
    var copy := Update(map[], span.attributes.text);
    var text := Update(copy, AsText(attributes));
    span.attributes := span.attributes.(text := text);
  }

  class Exporter {
    const world: World

    constructor (world: World)
      ensures this.world == world
    {
      this.world := world;
    }

    /** What exporting makes of a span; a span whose attributes cannot be generated stays. */
    ghost function Work(): SpanView -> SpanView {
      s => if Exported(world, s).Success? then Exported(world, s).value else s
    }

    lemma WorkingTwice(s: SpanView)
      ensures Work()(Work()(s)) == Work()(s)
    {
      if Exported(world, s).Success? {
        ExportingTwiceIsExportingOnce(world, s);
      }
    }

    method AddToSpan(span: Span) returns (failed: Option<Error>)
      modifies span
      ensures failed.Some? <==> Exported(world, old(span.View())).Failure?
      ensures failed.Some? ==> failed.value == Exported(world, old(span.View())).error
      ensures span.View() == Work()(old(span.View()))
    {
      var generated := GenerateFromSpan(world, span.View());
      if generated.Failure? {
        return Some(generated.error);
      }
      var attributes: Option<Entries> := None;
      var service, dependency := generated.value.service, generated.value.dependency;
      if GeneratesService(world, span.View()) && GeneratesDependency(world, span.View()) {
        var copy := CopyAttributesWithLocalRoot(dependency.value);
        attributes := Some(copy);
      } else if GeneratesService(world, span.View()) {
        attributes := service;
      } else if GeneratesDependency(world, span.View()) {
        attributes := dependency;
      }
      if attributes.Some? {
        WrapSpanWithAttributes(span, attributes.value);
      }
      return None;
    }

    /**
      Spans are worked on in order, each with the effect of exporting it once, even if it comes again; the first that
      cannot be generated stops the work, after those before it have been changed.
     */
    method AddMetricAttributes(spans: seq<Span>) returns (r: Result<seq<Span>, Error>, ghost n: nat)
      modifies spans
      ensures n <= |spans| && Views(spans) == After(Work(), spans, old(Views(spans)), n)
      ensures r.Success? ==> n == |spans| && r.value == spans
      ensures r.Failure? ==> n < |spans| && Exported(world, old(Views(spans))[n]) == Failure(r.error)
      ensures AllExport(old(Views(spans))[..n]) && AllReported(old(Views(spans)), Views(spans), n)
    {
      ghost var views := Views(spans);
      var modified := [];
      n := 0;
      for i := 0 to |spans|
        invariant n == i && modified == spans[..i]
        invariant Views(spans) == After(Work(), spans, views, i) && AllExport(views[..i])
      {
        var failed := AddAt(spans, i, views);
        if failed.Some? {
          ExportsAreReported(spans, views, i);
          return Failure(failed.value), i;
        }
        TakeOneMore(spans, i);
        modified := modified + [spans[i]];
        n := n + 1;
      }
      TakeAll(spans);
      ExportsAreReported(spans, views, n);
      return Success(modified), n;
    }

    /** The spans worked on hold what is reported of them. */
    ghost predicate AllReported(views: seq<SpanView>, after: seq<SpanView>, n: nat) {
      n <= |views| && n <= |after| && forall i | 0 <= i < n :: IsExport(world, views[i], after[i])
    }

    lemma ExportsAreReported(spans: seq<Span>, views: seq<SpanView>, n: nat)
      requires n <= |spans| == |views| && AllExport(views[..n])
      ensures AllReported(views, After(Work(), spans, views, n), n)
    {
      forall i | 0 <= i < n
        ensures IsExport(world, views[i], After(Work(), spans, views, n)[i])
      {
        assert views[..n][i] == views[i] && spans[..n][i] == spans[i];
        ExportIsReported(world, views[i]);
      }
    }

    ghost predicate AllExport(views: seq<SpanView>) {
      forall i | 0 <= i < |views| :: Exported(world, views[i]).Success?
    }

    /** A span that comes again can be exported again. */
    lemma StillExports(spans: seq<Span>, n: nat, views: seq<SpanView>)
      requires n < |spans| == |views| && SameItemSameView(spans, views) && AllExport(views[..n])
      ensures var s := After(Work(), spans, views, n)[n];
              && (Exported(world, s).Success? <==> Exported(world, views[n]).Success?)
              && (Exported(world, s).Failure? ==> s == views[n])
      ensures Exported(world, views[n]).Success? ==> AllExport(views[..n + 1])
    {
      if spans[n] in spans[..n] {
        var k :| 0 <= k < n && spans[k] == spans[n];
        assert views[..n][k] == views[k];
        ExportingTwiceIsExportingOnce(world, views[n]);
      }
      TakeOneMore(views, n);
    }

    method AddAt(spans: seq<Span>, n: nat, ghost views: seq<SpanView>) returns (failed: Option<Error>)
      requires n < |spans| == |views| && SameItemSameView(spans, views)
      requires Views(spans) == After(Work(), spans, views, n) && AllExport(views[..n])
      modifies spans
      ensures failed.Some? ==> Exported(world, views[n]) == Failure(failed.value) && Views(spans) == old(Views(spans))
      ensures failed.None? ==> Views(spans) == After(Work(), spans, views, n + 1) && AllExport(views[..n + 1])
    {
      ghost var before := Views(spans);
      WorkingTwice(views[n]);
      StillExports(spans, n, views);
      failed := AddToSpan(spans[n]);
      OneMore(Work(), spans, views, before, Views(spans), n);
      assert failed.Some? ==> Views(spans) == before;
    }
  }
}
