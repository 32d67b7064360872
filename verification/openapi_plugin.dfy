/** The `process` step of the OpenAPI validator plugin: summarise the contract's paths, then run
    both directions of the matching rules over the collected summaries. */
module OpenApiPlugin {
  import opened Options
  import Sequences
  import opened OpenApiValidator

  // ---------------------------------------------------------------------------------------
  // Summarising the contract

  /** The operations a contract path item can carry. */
  datatype HttpOperation = HttpGet | HttpPost | HttpPut | HttpDelete | HttpHead | HttpPatch | HttpOptions | HttpTrace

  /** The order in which `summarizeOpenAPI` tests a path item for its operations. */
  const CollectionOrder: seq<HttpOperation> :=
    [HttpGet, HttpPost, HttpPut, HttpDelete, HttpHead, HttpPatch, HttpOptions, HttpTrace]

  /** The position of an operation in `CollectionOrder`. */
  function Rank(op: HttpOperation): (r: nat)
    ensures r < |CollectionOrder| && CollectionOrder[r] == op
  {
    match op
    case HttpGet => 0
    case HttpPost => 1
    case HttpPut => 2
    case HttpDelete => 3
    case HttpHead => 4
    case HttpPatch => 5
    case HttpOptions => 6
    case HttpTrace => 7
  }

  /** Every operation in the list comes strictly later in `CollectionOrder` than the ones before it. */
  ghost predicate InCollectionOrder(ops: seq<HttpOperation>) {
    forall i, j :: 0 <= i < j < |ops| ==> Rank(ops[i]) < Rank(ops[j])
  }

  /** One entry of the contract's paths: the path and the operations its item carries. */
  datatype PathItem = PathItem(path: string, present: set<HttpOperation>)

  /** The names `summarizeOpenAPI` records for the operations (the plugin's `Constants`). */
  type OperationNames = HttpOperation -> string

  function IsPresentIn(item: PathItem): HttpOperation -> bool {
    (op: HttpOperation) => op in item.present
  }

  /** Keeping some operations of a list in collection order leaves it in collection order. */
  lemma {:induction false} FilterKeepsCollectionOrder(ops: seq<HttpOperation>, keep: HttpOperation -> bool)
    requires InCollectionOrder(ops)
    ensures InCollectionOrder(Sequences.Filter(ops, keep))
    decreases |ops|
  {
    if |ops| > 0 {
      var prefix, last := ops[..|ops| - 1], ops[|ops| - 1];
      FilterKeepsCollectionOrder(prefix, keep);
      Sequences.FilterMembership(prefix, keep);
      var kept := Sequences.Filter(prefix, keep);
      forall k | 0 <= k < |kept| ensures Rank(kept[k]) < Rank(last) {
        assert kept[k] in prefix;
      }
    }
  }

  /** Every operation has its place in `CollectionOrder`. */
  lemma EveryOperationIsCollected(op: HttpOperation)
    ensures op in CollectionOrder
  {
    assert CollectionOrder[Rank(op)] == op;
  }

  /** `CollectionOrder` lists each operation at its rank. */
  lemma CollectionOrderIsOrdered()
    ensures InCollectionOrder(CollectionOrder)
  {
    forall i, j | 0 <= i < j < |CollectionOrder| ensures Rank(CollectionOrder[i]) < Rank(CollectionOrder[j]) {
      assert Rank(CollectionOrder[i]) == i && Rank(CollectionOrder[j]) == j;
    }
  }

  /** Keeping the operations present on an item keeps exactly those. */
  lemma CollectedPresentOperations(item: PathItem)
    ensures forall op :: op in Sequences.Filter(CollectionOrder, IsPresentIn(item)) <==> op in item.present
  {
    Sequences.FilterMembership(CollectionOrder, IsPresentIn(item));
    forall op ensures op in CollectionOrder {
      EveryOperationIsCollected(op);
    }
  }

  /** The operations of a path item, each once, in the fixed GET, POST, PUT, DELETE, HEAD, PATCH,
      OPTIONS, TRACE order. */
  function PresentOperations(item: PathItem): (ops: seq<HttpOperation>)
    ensures forall op :: op in ops <==> op in item.present
    ensures InCollectionOrder(ops)
  {
    CollectedPresentOperations(item);
    CollectionOrderIsOrdered();
    FilterKeepsCollectionOrder(CollectionOrder, IsPresentIn(item));
    Sequences.Filter(CollectionOrder, IsPresentIn(item))
  }

  /** The summary of one path entry: its path and the names of its operations in collection order. */
  function SummarizePath(names: OperationNames): PathItem -> OpenApiPathSummary {
    (item: PathItem) => OpenApiPathSummary(item.path, Sequences.Map(PresentOperations(item), names))
  }

  /** `summarizeOpenAPI`: one summary per path entry, in entry order. */
  function SummarizeOpenApi(paths: seq<PathItem>, names: OperationNames): (summaries: seq<OpenApiPathSummary>)
    ensures |summaries| == |paths|
    ensures forall i :: 0 <= i < |paths| ==>
              && summaries[i].path == paths[i].path
              && summaries[i].availableOperations == Sequences.Map(PresentOperations(paths[i]), names)
  {
    Sequences.Map(paths, SummarizePath(names))
  }

  /** When the operation names are distinct, a summary lists each present operation's name once
      and nothing else. */
  lemma SummaryListsPresentOperations(item: PathItem, names: OperationNames)
    requires forall a, b :: names(a) == names(b) ==> a == b
    ensures var available := SummarizePath(names)(item).availableOperations;
            && (forall m :: m in available <==> exists op :: op in item.present && names(op) == m)
            && Sequences.NoDuplicates(available)
  {
    var ops := PresentOperations(item);
    var available := SummarizePath(names)(item).availableOperations;
    forall m ensures m in available <==> exists op :: op in item.present && names(op) == m {
      if m in available {
        var i :| 0 <= i < |available| && available[i] == m;
        assert ops[i] in item.present;
      }
      if op :| op in item.present && names(op) == m {
        var i :| 0 <= i < |ops| && ops[i] == op;
        assert available[i] == m;
      }
    }
  }

  // ---------------------------------------------------------------------------------------
  // Processing an annotated service

  /** The outcome of reading and parsing a contract file. */
  datatype ParseOutcome = Parsed(paths: seq<PathItem>) | ParseFailed(message: string)

  /** The messages annotation reading logs for a field whose value is not a string. */
  const ContractNotString := "contract path should be applied as a string value"
  const TagNotString := "tags should be applied as string values"
  const OperationNotString := "operations should be applied as string values"

  /** A diagnostic that annotation reading logs. */
  predicate IsReadDiagnostic(d: Diagnostic) {
    d.AnnotationError? && d.message in {ContractNotString, TagNotString, OperationNotString}
  }

  /** What `process` reads from a service and its annotation: the diagnostics logged while reading
      the annotation (`IsReadDiagnostic` ones, in field order), the contract location (`None` when
      the service carries no validator annotation or no string contract), the tag and operation
      filters, and the summaries of its resources. */
  datatype ServiceInput = ServiceInput(readDiagnostics: seq<Diagnostic>, contractUri: Option<string>,
                                       tags: seq<string>, operations: seq<string>,
                                       resources: seq<ResourceSummary>)

  /** The plugin's two summary lists. */
  datatype PluginState = PluginState(resourceSummaryList: seq<ResourceSummary>,
                                     openApiSummaryList: seq<OpenApiPathSummary>)

  /** `init`: both lists empty. */
  function Init(): (s: PluginState)
    ensures |s.resourceSummaryList| == 0 && |s.openApiSummaryList| == 0
  {
    PluginState([], [])
  }

  /** The two checks in the order `process` runs them: contract against resources, then
      resources against contract. */
  function Validate(resources: seq<ResourceSummary>, summaries: seq<OpenApiPathSummary>, tags: seq<string>,
                    operations: seq<string>, hasTags: TagTest): (ds: seq<Diagnostic>)
    ensures |ds| <= |summaries| + |resources|
    ensures forall k :: 0 <= k < |ds| ==> FromContractSide(ds[k]) || FromResourceSide(ds[k])
    ensures forall i, j :: 0 <= i < j < |ds| && FromResourceSide(ds[i]) ==> FromResourceSide(ds[j])
    ensures Sequences.Filter(ds, FromContractSide)
         == ValidateOpenApiAgainstResources(summaries, resources, tags, operations, hasTags)
    ensures Sequences.Filter(ds, FromResourceSide) == ValidateResourcesAgainstOpenApi(resources, summaries, tags, operations)
  {
    var contractSide := ValidateOpenApiAgainstResources(summaries, resources, tags, operations, hasTags);
    var resourceSide := ValidateResourcesAgainstOpenApi(resources, summaries, tags, operations);
    SidesSeparate(contractSide, resourceSide);
    contractSide + resourceSide
  }

  /** Contract-side diagnostics followed by resource-side ones can be told apart again by kind. */
  lemma SidesSeparate(contractSide: seq<Diagnostic>, resourceSide: seq<Diagnostic>)
    requires forall k :: 0 <= k < |contractSide| ==> FromContractSide(contractSide[k])
    requires forall k :: 0 <= k < |resourceSide| ==> FromResourceSide(resourceSide[k])
    ensures Sequences.Filter(contractSide + resourceSide, FromContractSide) == contractSide
    ensures Sequences.Filter(contractSide + resourceSide, FromResourceSide) == resourceSide
  {
    Sequences.FilterAppend(contractSide, resourceSide, FromContractSide);
    Sequences.FilterAll(contractSide, FromContractSide);
    Sequences.FilterNone(resourceSide, FromContractSide);
    Sequences.FilterAppend(contractSide, resourceSide, FromResourceSide);
    Sequences.FilterNone(contractSide, FromResourceSide);
    Sequences.FilterAll(resourceSide, FromResourceSide);
  }

  /** `process` as the plugin implements it: the annotation-reading diagnostics come first; then
      the new service's resources and contract paths are appended to lists that hold every
      earlier service's summaries, and the checks run over the whole lists. A contract that
      fails to parse adds nothing and logs its message. */
  function ProcessAccumulating(state: PluginState, service: ServiceInput, parse: string -> ParseOutcome,
                               names: OperationNames, hasTags: TagTest): (r: (PluginState, seq<Diagnostic>))
    ensures service.contractUri.None? ==> r == (state, service.readDiagnostics)
    ensures service.contractUri.Some? && parse(service.contractUri.value).ParseFailed? ==>
              r == (state, service.readDiagnostics + [ContractError(parse(service.contractUri.value).message)])
    ensures service.contractUri.Some? && parse(service.contractUri.value).Parsed? ==>
              && |r.0.resourceSummaryList| == |state.resourceSummaryList| + |service.resources|
              && |r.0.openApiSummaryList| == |state.openApiSummaryList| + |parse(service.contractUri.value).paths|
              && r.0.resourceSummaryList[..|state.resourceSummaryList|] == state.resourceSummaryList
              && r.0.resourceSummaryList[|state.resourceSummaryList|..] == service.resources
              && r.0.openApiSummaryList[..|state.openApiSummaryList|] == state.openApiSummaryList
              && r.0.openApiSummaryList[|state.openApiSummaryList|..]
                 == SummarizeOpenApi(parse(service.contractUri.value).paths, names)
              && r.1 == service.readDiagnostics
                        + Validate(r.0.resourceSummaryList, r.0.openApiSummaryList, service.tags, service.operations, hasTags)
  {
    match service.contractUri
    case None => (state, service.readDiagnostics)
    case Some(uri) =>
      match parse(uri)
      case ParseFailed(message) => (state, service.readDiagnostics + [ContractError(message)])
      case Parsed(paths) =>
        var next := PluginState(state.resourceSummaryList + service.resources,
                                state.openApiSummaryList + SummarizeOpenApi(paths, names));
        (next, service.readDiagnostics
               + Validate(next.resourceSummaryList, next.openApiSummaryList, service.tags, service.operations, hasTags))
  }

  /** A parsed contract: the checks run over the old lists extended by the new service's summaries. */
  lemma ParsedContractChecksWholeLists(state: PluginState, service: ServiceInput, paths: seq<PathItem>,
                                       parse: string -> ParseOutcome, names: OperationNames, hasTags: TagTest)
    requires service.contractUri.Some? && parse(service.contractUri.value) == Parsed(paths)
    ensures ProcessAccumulating(state, service, parse, names, hasTags).1
         == service.readDiagnostics + Validate(state.resourceSummaryList + service.resources,
                     state.openApiSummaryList + SummarizeOpenApi(paths, names),
                     service.tags, service.operations, hasTags)
  {
  }

  /** `process` as evidently intended: a service is checked against its own contract only. The
      annotation-reading diagnostics still come first. */
  function ProcessService(service: ServiceInput, parse: string -> ParseOutcome, names: OperationNames,
                          hasTags: TagTest): (ds: seq<Diagnostic>)
    ensures service.contractUri.None? ==> ds == service.readDiagnostics
    ensures service.contractUri.Some? && parse(service.contractUri.value).ParseFailed? ==>
              ds == service.readDiagnostics + [ContractError(parse(service.contractUri.value).message)]
  {
    match service.contractUri
    case None => service.readDiagnostics
    case Some(uri) =>
      match parse(uri)
      case ParseFailed(message) => service.readDiagnostics + [ContractError(message)]
      case Parsed(paths) =>
        service.readDiagnostics
          + Validate(service.resources, SummarizeOpenApi(paths, names), service.tags, service.operations, hasTags)
  }

  /** When the annotation-reading diagnostics are the reading errors, they are exactly the
      leading part of what `process` reports: every later diagnostic is the contract's error or
      comes from one of the two checks. */
  lemma ReadDiagnosticsLead(service: ServiceInput, parse: string -> ParseOutcome, names: OperationNames,
                            hasTags: TagTest)
    requires forall k :: 0 <= k < |service.readDiagnostics| ==> IsReadDiagnostic(service.readDiagnostics[k])
    ensures var ds := ProcessService(service, parse, names, hasTags);
            && |service.readDiagnostics| <= |ds|
            && ds[..|service.readDiagnostics|] == service.readDiagnostics
            && (forall k :: 0 <= k < |ds| ==> (IsReadDiagnostic(ds[k]) <==> k < |service.readDiagnostics|))
            && (forall k :: |service.readDiagnostics| <= k < |ds| ==>
                  ds[k].ContractError? || FromContractSide(ds[k]) || FromResourceSide(ds[k]))
  {
    var rest := match service.contractUri
      case None => []
      case Some(uri) =>
        match parse(uri)
        case ParseFailed(message) => [ContractError(message)]
        case Parsed(paths) =>
          Validate(service.resources, SummarizeOpenApi(paths, names), service.tags, service.operations, hasTags);
    assert ProcessService(service, parse, names, hasTags) == service.readDiagnostics + rest;
    LeadingPart(service.readDiagnostics, rest);
  }

  /** Reading errors followed by diagnostics of other kinds: the reading errors are exactly the
      leading part. */
  lemma LeadingPart(pre: seq<Diagnostic>, rest: seq<Diagnostic>)
    requires forall k :: 0 <= k < |pre| ==> IsReadDiagnostic(pre[k])
    requires forall k :: 0 <= k < |rest| ==>
               rest[k].ContractError? || FromContractSide(rest[k]) || FromResourceSide(rest[k])
    ensures (pre + rest)[..|pre|] == pre
    ensures forall k :: 0 <= k < |pre + rest| ==> (IsReadDiagnostic((pre + rest)[k]) <==> k < |pre|)
    ensures forall k :: |pre| <= k < |pre + rest| ==>
              (pre + rest)[k].ContractError? || FromContractSide((pre + rest)[k]) || FromResourceSide((pre + rest)[k])
  {
  }

  /** For the first service after `init` the two agree: the lists hold only that service. */
  lemma FirstServiceAgrees(service: ServiceInput, parse: string -> ParseOutcome, names: OperationNames,
                           hasTags: TagTest)
    ensures ProcessAccumulating(Init(), service, parse, names, hasTags).1 == ProcessService(service, parse, names, hasTags)
  {
    if service.contractUri.Some? && parse(service.contractUri.value).Parsed? {
      assert [] + service.resources == service.resources;
      assert [] + SummarizeOpenApi(parse(service.contractUri.value).paths, names)
          == SummarizeOpenApi(parse(service.contractUri.value).paths, names);
    }
  }

  // ---------------------------------------------------------------------------------------
  // A service that matches its contract

  /** Contract paths are distinct (they are the keys of the contract's path map). */
  ghost predicate DistinctPaths(summaries: seq<OpenApiPathSummary>) {
    forall i, j :: 0 <= i < j < |summaries| ==> summaries[i].path != summaries[j].path
  }

  /** The resource's path is in the contract, with every method of the resource documented there. */
  ghost predicate Documented(r: ResourceSummary, summaries: seq<OpenApiPathSummary>) {
    exists s :: s in summaries && s.path == r.path && forall m :: m in r.methods ==> m in s.availableOperations
  }

  /** Some resource has the contract path, and each of its operations is a method of some
      resource with that path. */
  ghost predicate Implemented(s: OpenApiPathSummary, resources: seq<ResourceSummary>) {
    && (exists r :: r in resources && r.path == s.path)
    && forall m :: m in s.availableOperations ==> exists r :: r in resources && r.path == s.path && m in r.methods
  }

  /** The resources and the contract agree in both directions. */
  ghost predicate Consistent(resources: seq<ResourceSummary>, summaries: seq<OpenApiPathSummary>) {
    && DistinctPaths(summaries)
    && (forall r :: r in resources ==> Documented(r, summaries))
    && (forall s :: s in summaries ==> Implemented(s, resources))
  }

  /** A resource whose path and methods are all documented gets no diagnostic. */
  lemma DocumentedResourceIsClean(r: ResourceSummary, summaries: seq<OpenApiPathSummary>,
                                  tags: seq<string>, operations: seq<string>)
    requires DistinctPaths(summaries) && Documented(r, summaries)
    ensures ValidateResource(r, summaries, tags, operations) == []
  {
    var s :| s in summaries && s.path == r.path && forall m :: m in r.methods ==> m in s.availableOperations;
    var k :| 0 <= k < |summaries| && summaries[k] == s;
    var i := Sequences.FirstIndex(summaries, (t: OpenApiPathSummary) => t.path == r.path);
    assert GetOpenApiSummaryByPath(summaries, r.path) == Some(summaries[i]);
    assert i == k;
  }

  /** A contract path whose operations are all implemented gets no diagnostic. */
  lemma ImplementedPathIsClean(s: OpenApiPathSummary, resources: seq<ResourceSummary>,
                               tags: seq<string>, operations: seq<string>, hasTags: TagTest)
    requires Implemented(s, resources)
    ensures ValidatePath(s, resources, tags, operations, hasTags) == []
  {
    var matching := Sequences.Filter(resources, HasPath(s.path));
    Sequences.FilterMembership(resources, HasPath(s.path));
    var implemented := GetAllMethodsInResourceSummaries(matching);
    forall m | m in s.availableOperations ensures m in implemented {
      var r :| r in resources && r.path == s.path && m in r.methods;
      assert r in matching;
      var i :| 0 <= i < |matching| && matching[i] == r;
    }
    var keep := SelectedAndNotIn(OperationFilter(s, tags, operations, hasTags), implemented);
    forall k | 0 <= k < |s.availableOperations| ensures !keep(s.availableOperations[k]) {
      assert s.availableOperations[k] in s.availableOperations;
    }
    Sequences.FilterNone(s.availableOperations, keep);
  }

  /** Resources that are each clean give no diagnostics together. */
  lemma {:induction false} CleanResources(resources: seq<ResourceSummary>, summaries: seq<OpenApiPathSummary>,
                                          tags: seq<string>, operations: seq<string>)
    requires forall r :: r in resources ==> ValidateResource(r, summaries, tags, operations) == []
    ensures ValidateResourcesAgainstOpenApi(resources, summaries, tags, operations) == []
    decreases |resources|
  {
    if |resources| > 0 {
      var prefix := resources[..|resources| - 1];
      assert forall r :: r in prefix ==> r in resources;
      CleanResources(prefix, summaries, tags, operations);
    }
  }

  /** Contract paths that are each clean give no diagnostics together. */
  lemma {:induction false} CleanPaths(summaries: seq<OpenApiPathSummary>, resources: seq<ResourceSummary>,
                                      tags: seq<string>, operations: seq<string>, hasTags: TagTest)
    requires forall s :: s in summaries ==> ValidatePath(s, resources, tags, operations, hasTags) == []
    ensures ValidateOpenApiAgainstResources(summaries, resources, tags, operations, hasTags) == []
    decreases |summaries|
  {
    if |summaries| > 0 {
      var prefix := summaries[..|summaries| - 1];
      assert forall s :: s in prefix ==> s in summaries;
      CleanPaths(prefix, resources, tags, operations, hasTags);
    }
  }

  /** Resources and a contract that agree produce no diagnostics, whatever the filters. */
  lemma ConsistentServiceIsClean(resources: seq<ResourceSummary>, summaries: seq<OpenApiPathSummary>,
                                 tags: seq<string>, operations: seq<string>, hasTags: TagTest)
    requires Consistent(resources, summaries)
    ensures Validate(resources, summaries, tags, operations, hasTags) == []
  {
    forall r | r in resources ensures ValidateResource(r, summaries, tags, operations) == [] {
      DocumentedResourceIsClean(r, summaries, tags, operations);
    }
    forall s | s in summaries ensures ValidatePath(s, resources, tags, operations, hasTags) == [] {
      ImplementedPathIsClean(s, resources, tags, operations, hasTags);
    }
    CleanResources(resources, summaries, tags, operations);
    CleanPaths(summaries, resources, tags, operations, hasTags);
  }

  /** A service whose contract parses and agrees with its resources gets no diagnostics from the
      per-service `process` beyond those of annotation reading, whatever was processed before it. */
  lemma ConsistentServiceProcessesClean(service: ServiceInput, parse: string -> ParseOutcome, names: OperationNames,
                                        hasTags: TagTest)
    requires service.contractUri.Some? && parse(service.contractUri.value).Parsed?
    requires Consistent(service.resources, SummarizeOpenApi(parse(service.contractUri.value).paths, names))
    ensures ProcessService(service, parse, names, hasTags) == service.readDiagnostics
  {
    ConsistentServiceIsClean(service.resources, SummarizeOpenApi(parse(service.contractUri.value).paths, names),
                             service.tags, service.operations, hasTags);
  }

  // ---------------------------------------------------------------------------------------
  // Summaries left over from an earlier service

  /** A path item without operations. */
  function BarePath(path: string): PathItem {
    PathItem(path, {})
  }

  lemma BarePathSummary(path: string, names: OperationNames)
    ensures SummarizeOpenApi([BarePath(path)], names) == [OpenApiPathSummary(path, [])]
  {
    Sequences.FilterNone(CollectionOrder, IsPresentIn(BarePath(path)));
  }

  /** The contract side of the second check below: `pathA` has no resource any more, `pathB` has. */
  lemma LeftoverContractPath(pathA: string, pathX: string, pathB: string, hasTags: TagTest)
    requires pathA != pathX && pathA != pathB
    ensures ValidateOpenApiAgainstResources([OpenApiPathSummary(pathA, []), OpenApiPathSummary(pathB, [])],
                                            [ResourceSummary(pathX, []), ResourceSummary(pathB, [])], [], [], hasTags)
         == [UnimplementedPath(pathA)]
  {
    var a, b := OpenApiPathSummary(pathA, []), OpenApiPathSummary(pathB, []);
    var resources := [ResourceSummary(pathX, []), ResourceSummary(pathB, [])];
    assert [a, b][..1] == [a];
    assert ValidatePath(a, resources, [], [], hasTags) == [UnimplementedPath(pathA)];
    assert Implemented(b, resources) by {
      assert resources[1] in resources;
    }
    ImplementedPathIsClean(b, resources, [], [], hasTags);
  }

  /** The resource side of the second check below: `pathX` is not in the contract, `pathB` is. */
  lemma LeftoverResource(pathA: string, pathX: string, pathB: string)
    requires pathX != pathA && pathX != pathB && pathA != pathB
    ensures ValidateResourcesAgainstOpenApi([ResourceSummary(pathX, []), ResourceSummary(pathB, [])],
                                            [OpenApiPathSummary(pathA, []), OpenApiPathSummary(pathB, [])], [], [])
         == [UndocumentedPath(pathX)]
  {
    var x, y := ResourceSummary(pathX, []), ResourceSummary(pathB, []);
    var summaries := [OpenApiPathSummary(pathA, []), OpenApiPathSummary(pathB, [])];
    assert [x, y][..1] == [x];
    assert ValidateResource(x, summaries, [], []) == [UndocumentedPath(pathX)];
    assert Documented(y, summaries) by {
      assert summaries[1] in summaries;
    }
    DocumentedResourceIsClean(y, summaries, [], []);
  }

  /** A resource at a path and a contract with exactly that path, without operations, agree. */
  lemma BarePathIsConsistent(path: string)
    ensures Consistent([ResourceSummary(path, [])], [OpenApiPathSummary(path, [])])
  {
    var b, y := OpenApiPathSummary(path, []), ResourceSummary(path, []);
    assert Documented(y, [b]) by {
      assert b in [b];
    }
    assert Implemented(b, [y]) by {
      assert y in [y];
    }
  }

  /** The second service of the scenario below agrees with its own contract. */
  lemma SecondServiceAlone(contractB: string, pathB: string, parse: string -> ParseOutcome, names: OperationNames,
                           hasTags: TagTest)
    requires parse(contractB) == Parsed([BarePath(pathB)])
    ensures ProcessService(ServiceInput([], Some(contractB), [], [], [ResourceSummary(pathB, [])]), parse, names, hasTags) == []
  {
    BarePathSummary(pathB, names);
    BarePathIsConsistent(pathB);
    ConsistentServiceProcessesClean(ServiceInput([], Some(contractB), [], [], [ResourceSummary(pathB, [])]), parse, names, hasTags);
  }

  /** The first service of the scenario below leaves its resource and its contract path in the lists. */
  lemma FirstServiceState(contractA: string, pathA: string, pathX: string, parse: string -> ParseOutcome,
                          names: OperationNames, hasTags: TagTest)
    requires parse(contractA) == Parsed([BarePath(pathA)])
    ensures ProcessAccumulating(Init(), ServiceInput([], Some(contractA), [], [], [ResourceSummary(pathX, [])]),
                                parse, names, hasTags).0
         == PluginState([ResourceSummary(pathX, [])], [OpenApiPathSummary(pathA, [])])
  {
    BarePathSummary(pathA, names);
  }

  /** The second service of the scenario below, checked with the first one's summaries still listed. */
  lemma SecondServiceAfterFirst(contractB: string, pathA: string, pathX: string, pathB: string,
                                parse: string -> ParseOutcome, names: OperationNames, hasTags: TagTest)
    requires pathX != pathA && pathX != pathB && pathA != pathB
    requires parse(contractB) == Parsed([BarePath(pathB)])
    ensures ProcessAccumulating(PluginState([ResourceSummary(pathX, [])], [OpenApiPathSummary(pathA, [])]),
                                ServiceInput([], Some(contractB), [], [], [ResourceSummary(pathB, [])]),
                                parse, names, hasTags).1
         == [UnimplementedPath(pathA), UndocumentedPath(pathX)]
  {
    var a, b := OpenApiPathSummary(pathA, []), OpenApiPathSummary(pathB, []);
    var x, y := ResourceSummary(pathX, []), ResourceSummary(pathB, []);
    BarePathSummary(pathB, names);
    ParsedContractChecksWholeLists(PluginState([x], [a]), ServiceInput([], Some(contractB), [], [], [y]),
                                   [BarePath(pathB)], parse, names, hasTags);
    Sequences.PairAppend(x, y);
    Sequences.PairAppend(a, b);
    LeftoverContractPath(pathA, pathX, pathB, hasTags);
    LeftoverResource(pathA, pathX, pathB);
    Sequences.PairAppend(UnimplementedPath(pathA), UndocumentedPath(pathX));
  }

  /** Two services processed one after the other: the first has a resource at `pathX` and a
      contract with the path `pathA`; the second has a resource at `pathB` and a contract with
      exactly the path `pathB`. The second agrees with its own contract, yet the accumulated
      lists make `process` report the first service's `pathA` and `pathX` again while checking it. */
  lemma EarlierServiceLeaksIntoLaterOne(contractA: string, contractB: string, pathA: string, pathX: string,
                                        pathB: string, parse: string -> ParseOutcome, names: OperationNames,
                                        hasTags: TagTest)
    requires pathX != pathA && pathX != pathB && pathA != pathB
    requires parse(contractA) == Parsed([BarePath(pathA)])
    requires parse(contractB) == Parsed([BarePath(pathB)])
    ensures var first := ServiceInput([], Some(contractA), [], [], [ResourceSummary(pathX, [])]);
            var second := ServiceInput([], Some(contractB), [], [], [ResourceSummary(pathB, [])]);
            var afterFirst := ProcessAccumulating(Init(), first, parse, names, hasTags).0;
            && ProcessService(second, parse, names, hasTags) == []
            && ProcessAccumulating(afterFirst, second, parse, names, hasTags).1
               == [UnimplementedPath(pathA), UndocumentedPath(pathX)]
  {
    FirstServiceState(contractA, pathA, pathX, parse, names, hasTags);
    SecondServiceAfterFirst(contractB, pathA, pathX, pathB, parse, names, hasTags);
    SecondServiceAlone(contractB, pathB, parse, names, hasTags);
  }
}
