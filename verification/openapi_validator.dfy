/** The matching rules of the OpenAPI validator compiler plugin: the resources of an annotated
    service (a path and lower-cased HTTP methods each) are compared with the paths and operations
    of its OpenAPI contract, in both directions, and every mismatch becomes a diagnostic. */
module OpenApiValidator {
  import opened Options
  import Sequences

  /** What the plugin extracts from one resource function: its path and its methods. */
  datatype ResourceSummary = ResourceSummary(path: string, methods: seq<string>)

  /** What the plugin extracts from one path entry of the contract: the path and the names of
      the operations the contract documents for it. */
  datatype OpenApiPathSummary = OpenApiPathSummary(path: string, availableOperations: seq<string>)

  /** The diagnostics the plugin logs. Positions and the fixed message prefix are not modelled;
      `methods` is the comma-separated list the message embeds. */
  datatype Diagnostic =
    | UndocumentedPath(path: string)                     // a resource path missing from the contract
    | UndocumentedMethods(path: string, methods: string)  // resource methods missing from the contract
    | UnimplementedPath(path: string)                    // a contract path without a resource
    | UnimplementedMethods(path: string, methods: string) // contract operations without a resource method
    | ContractError(message: string)                     // the contract could not be read
    | AnnotationError(message: string)                   // an annotation field is not a string

  /** A diagnostic of the contract-side check: a contract path or operation without a resource. */
  predicate FromContractSide(d: Diagnostic) {
    d.UnimplementedPath? || d.UnimplementedMethods?
  }

  /** A diagnostic of the resource-side check: a resource path or method missing from the contract. */
  predicate FromResourceSide(d: Diagnostic) {
    d.UndocumentedPath? || d.UndocumentedMethods?
  }

  /** `OpenAPIPathSummary.hasTags(tags, method)`: whether the operation carries one of the tags.
      Its definition is not part of this model, so it is a parameter. */
  type TagTest = (OpenApiPathSummary, seq<string>, string) -> bool

  // ---------------------------------------------------------------------------------------
  // The method list in a message

  const Separator := ", "

  /** The items separated by ", ". */
  function Join(items: seq<string>): string {
    if |items| == 0 then ""
    else if |items| == 1 then items[0]
    else Join(items[..|items| - 1]) + Separator + items[|items| - 1]
  }

  /** The same list read from the front: the first item, then the separator and the rest. */
  lemma {:induction false} JoinFront(item: string, items: seq<string>)
    requires |items| > 0
    ensures Join([item] + items) == item + Separator + Join(items)
    decreases |items|
  {
    var all := [item] + items;
    if |items| == 1 {
      assert all[..1] == [item];
    } else {
      var prefix := items[..|items| - 1];
      assert all[..|all| - 1] == [item] + prefix;
      JoinFront(item, prefix);
    }
  }

  /** `getUnmatchedMethodList`: appends the methods in order, separated by ", ". */
  method GetUnmatchedMethodList(unmatchedMethods: seq<string>) returns (methods: string)
    ensures methods == Join(unmatchedMethods)
    ensures |unmatchedMethods| == 0 ==> methods == ""
    ensures |unmatchedMethods| == 1 ==> methods == unmatchedMethods[0]
  {
    methods := "";
    var i := 0;
    while i < |unmatchedMethods|
      invariant 0 <= i <= |unmatchedMethods|
      invariant methods == Join(unmatchedMethods[..i])
    {
      assert unmatchedMethods[..i + 1][..i] == unmatchedMethods[..i];
      if i == 0 {
        methods := methods + unmatchedMethods[i];
      } else {
        methods := methods + Separator + unmatchedMethods[i];
      }
      i := i + 1;
    }
    assert unmatchedMethods[..i] == unmatchedMethods;
  }

  // ---------------------------------------------------------------------------------------
  // Lookups

  /** `getOpenApiSummaryByPath`: the first contract summary with the path; `None` for `null`. */
  function GetOpenApiSummaryByPath(summaries: seq<OpenApiPathSummary>, path: string): (r: Option<OpenApiPathSummary>)
    ensures r.None? <==> forall i :: 0 <= i < |summaries| ==> summaries[i].path != path
    ensures r.Some? ==> exists i :: && 0 <= i < |summaries| && summaries[i] == r.value
                                    && r.value.path == path
                                    && forall j :: 0 <= j < i ==> summaries[j].path != path
  {
    var i := Sequences.FirstIndex(summaries, (s: OpenApiPathSummary) => s.path == path);
    if i == -1 then None else Some(summaries[i])
  }

  /** The test "this resource has the path". */
  function HasPath(path: string): ResourceSummary -> bool {
    (r: ResourceSummary) => r.path == path
  }

  /** `getResourceSummaryByPath`: every resource with the path, in list order; `None` (Java's
      `null`, not an empty list) when there is none. */
  function GetResourceSummaryByPath(resources: seq<ResourceSummary>, path: string): (r: Option<seq<ResourceSummary>>)
    ensures r.None? <==> forall i :: 0 <= i < |resources| ==> resources[i].path != path
    ensures r.Some? ==> && |r.value| > 0
                        && r.value == Sequences.Filter(resources, HasPath(path))
                        && forall x :: x in r.value <==> x in resources && x.path == path
  {
    var matching := Sequences.Filter(resources, HasPath(path));
    Sequences.FilterMembership(resources, HasPath(path));
    assert |matching| == 0 ==> forall i :: 0 <= i < |resources| ==> resources[i].path != path by {
      if |matching| == 0 {
        forall i | 0 <= i < |resources| ensures resources[i].path != path {
          assert resources[i] in resources;
        }
      }
    }
    assert |matching| > 0 ==> matching[0] in matching;
    if |matching| == 0 then None else Some(matching)
  }

  /** `getAllMethodsInResourceSummaries`: the methods of every resource, resource by resource. */
  function GetAllMethodsInResourceSummaries(resources: seq<ResourceSummary>): (methods: seq<string>)
    ensures forall m :: m in methods <==> exists i :: 0 <= i < |resources| && m in resources[i].methods
    ensures |resources| == 1 ==> methods == resources[0].methods
  {
    if |resources| == 0 then []
    else
      var prefix := resources[..|resources| - 1];
      var methods := GetAllMethodsInResourceSummaries(prefix) + resources[|resources| - 1].methods;
      assert forall i :: 0 <= i < |prefix| ==> prefix[i] == resources[i];
      methods
  }

  /** Collecting the methods of two lists of resources is collecting each and concatenating. */
  lemma {:induction false} AllMethodsAppend(a: seq<ResourceSummary>, b: seq<ResourceSummary>)
    ensures GetAllMethodsInResourceSummaries(a + b)
         == GetAllMethodsInResourceSummaries(a) + GetAllMethodsInResourceSummaries(b)
    decreases |b|
  {
    if |b| == 0 {
      assert a + b == a;
    } else {
      var b' := b[..|b| - 1];
      assert (a + b)[..|a + b| - 1] == a + b';
      assert (a + b)[|a + b| - 1] == b[|b| - 1];
      AllMethodsAppend(a, b');
    }
  }

  /** Reference reading of the collection: the first resource's methods in their own order,
      then those of the remaining resources. */
  function MethodsInResourceOrder(resources: seq<ResourceSummary>): seq<string>
    decreases |resources|
  {
    if |resources| == 0 then [] else resources[0].methods + MethodsInResourceOrder(resources[1..])
  }

  /** The collected methods are each resource's methods, in their own order, concatenated in
      resource order. */
  lemma {:induction false} AllMethodsInResourceOrder(resources: seq<ResourceSummary>)
    ensures GetAllMethodsInResourceSummaries(resources) == MethodsInResourceOrder(resources)
    decreases |resources|
  {
    if |resources| > 0 {
      var first, rest := resources[0], resources[1..];
      assert resources == [first] + rest;
      AllMethodsAppend([first], rest);
      AllMethodsInResourceOrder(rest);
    }
  }

  // ---------------------------------------------------------------------------------------
  // Unmatched methods

  /** `container.containsAll(items)`. */
  predicate ContainsAll(container: seq<string>, items: seq<string>) {
    forall x :: x in items ==> x in container
  }

  /** The test "not among these methods". */
  function NotIn(methods: seq<string>): string -> bool {
    (m: string) => m !in methods
  }

  /** The `noMatch` search loops: the candidates that no method in `implemented` equals, in
      candidate order. */
  method CollectUnmatchedMethods(candidates: seq<string>, implemented: seq<string>) returns (unmatched: seq<string>)
    ensures unmatched == Sequences.Filter(candidates, NotIn(implemented))
  {
    unmatched := [];
    var i := 0;
    while i < |candidates|
      invariant 0 <= i <= |candidates|
      invariant unmatched == Sequences.Filter(candidates[..i], NotIn(implemented))
    {
      var noMatch := true;
      var j := 0;
      while j < |implemented|
        invariant 0 <= j <= |implemented|
        invariant noMatch <==> candidates[i] !in implemented[..j]
      {
        assert implemented[..j + 1] == implemented[..j] + [implemented[j]];
        if implemented[j] == candidates[i] {
          noMatch := false;
          break;
        }
        j := j + 1;
      }
      assert noMatch <==> candidates[i] !in implemented by {
        if j == |implemented| {
          assert implemented[..j] == implemented;
        }
      }
      assert candidates[..i + 1][..i] == candidates[..i];
      if noMatch {
        unmatched := unmatched + [candidates[i]];
      }
      i := i + 1;
    }
    assert candidates[..i] == candidates;
  }

  /** The `containsAll` test fails exactly when some item is unmatched, for any test that picks
      out the items missing from the container. */
  lemma ContainsAllIffNoneUnmatched(container: seq<string>, items: seq<string>, missing: string -> bool)
    requires forall x :: missing(x) <==> x !in container
    ensures !ContainsAll(container, items) <==> |Sequences.Filter(items, missing)| > 0
  {
    var unmatched := Sequences.Filter(items, missing);
    Sequences.FilterMembership(items, missing);
    if |unmatched| > 0 {
      assert unmatched[0] in unmatched;
    }
  }

  // ---------------------------------------------------------------------------------------
  // Resources against the contract

  /** Tag or operation filtering is on when the annotation lists any tag or operation. */
  predicate FilteringEnabled(tags: seq<string>, operations: seq<string>) {
    |tags| > 0 || |operations| > 0
  }

  /** One resource of `validateResourcesAgainstOpenApi`: its path must be in the contract and,
      without filtering, each of its methods must be a documented operation of that path. */
  function ValidateResource(resource: ResourceSummary, summaries: seq<OpenApiPathSummary>,
                            tags: seq<string>, operations: seq<string>): (ds: seq<Diagnostic>)
    ensures |ds| <= 1
    ensures GetOpenApiSummaryByPath(summaries, resource.path).None? <==> ds == [UndocumentedPath(resource.path)]
    ensures GetOpenApiSummaryByPath(summaries, resource.path).Some? && FilteringEnabled(tags, operations) ==> ds == []
    ensures GetOpenApiSummaryByPath(summaries, resource.path).Some? && !FilteringEnabled(tags, operations) ==>
              var available := GetOpenApiSummaryByPath(summaries, resource.path).value.availableOperations;
              var missing := Sequences.Filter(resource.methods, NotIn(available));
              && (ds == [] <==> forall m :: m in resource.methods ==> m in available)
              && (ds != [] ==> ds == [UndocumentedMethods(resource.path, Join(missing))])
  {
    match GetOpenApiSummaryByPath(summaries, resource.path)
    case None => [UndocumentedPath(resource.path)]
    case Some(summary) =>
      if FilteringEnabled(tags, operations) then []
      else
        var unmatched := Sequences.Filter(resource.methods, NotIn(summary.availableOperations));
        if !ContainsAll(summary.availableOperations, resource.methods) then
          [UndocumentedMethods(resource.path, Join(unmatched))]
        else []
  }

  /** `validateResourcesAgainstOpenApi`: the diagnostics of each resource, in resource order. */
  function ValidateResourcesAgainstOpenApi(resources: seq<ResourceSummary>, summaries: seq<OpenApiPathSummary>,
                                           tags: seq<string>, operations: seq<string>): (ds: seq<Diagnostic>)
    ensures |ds| <= |resources|
    ensures forall k :: 0 <= k < |ds| ==> FromResourceSide(ds[k])
  {
    if |resources| == 0 then []
    else
      ValidateResourcesAgainstOpenApi(resources[..|resources| - 1], summaries, tags, operations)
        + ValidateResource(resources[|resources| - 1], summaries, tags, operations)
  }

  /** The test "the contract has no entry for this resource's path". */
  function UndocumentedIn(summaries: seq<OpenApiPathSummary>): ResourceSummary -> bool {
    (r: ResourceSummary) => GetOpenApiSummaryByPath(summaries, r.path).None?
  }

  function UndocumentedPathOf(r: ResourceSummary): Diagnostic {
    UndocumentedPath(r.path)
  }

  predicate IsUndocumentedPath(d: Diagnostic) {
    d.UndocumentedPath?
  }

  predicate IsUndocumentedMethods(d: Diagnostic) {
    d.UndocumentedMethods?
  }

  /** One resource yields a path mismatch exactly when the contract lacks its path. */
  lemma ResourcePathMismatch(resource: ResourceSummary, summaries: seq<OpenApiPathSummary>,
                             tags: seq<string>, operations: seq<string>)
    ensures Sequences.Filter(ValidateResource(resource, summaries, tags, operations), IsUndocumentedPath)
         == if UndocumentedIn(summaries)(resource) then [UndocumentedPath(resource.path)] else []
  {
    var own := ValidateResource(resource, summaries, tags, operations);
    if |own| == 1 {
      assert own[..0] == [];
    }
  }

  /** The path mismatches are exactly one per resource whose path the contract lacks, in
      resource order, whatever the filters. */
  lemma {:induction false} OnePathMismatchPerUndocumentedResource(
    resources: seq<ResourceSummary>, summaries: seq<OpenApiPathSummary>, tags: seq<string>, operations: seq<string>)
    ensures Sequences.Filter(ValidateResourcesAgainstOpenApi(resources, summaries, tags, operations), IsUndocumentedPath)
         == Sequences.Map(Sequences.Filter(resources, UndocumentedIn(summaries)), UndocumentedPathOf)
    decreases |resources|
  {
    if |resources| > 0 {
      var prefix := resources[..|resources| - 1];
      var tail := UndocumentedTail(resources, summaries);
      OnePathMismatchPerUndocumentedResource(prefix, summaries, tags, operations);
      PathMismatchStep(resources, summaries, tags, operations);
      Sequences.MapAppend(Sequences.Filter(prefix, UndocumentedIn(summaries)), tail, UndocumentedPathOf);
    }
  }

  /** The last resource when the contract lacks its path, and nothing otherwise. */
  function UndocumentedTail(resources: seq<ResourceSummary>, summaries: seq<OpenApiPathSummary>): seq<ResourceSummary>
    requires |resources| > 0
  {
    var last := resources[|resources| - 1];
    if UndocumentedIn(summaries)(last) then [last] else []
  }

  /** One resource more: its path mismatch, if any, follows those of the resources before it,
      just as the resource itself follows them among the undocumented resources. */
  lemma PathMismatchStep(resources: seq<ResourceSummary>, summaries: seq<OpenApiPathSummary>,
                         tags: seq<string>, operations: seq<string>)
    requires |resources| > 0
    ensures Sequences.Filter(resources, UndocumentedIn(summaries))
         == Sequences.Filter(resources[..|resources| - 1], UndocumentedIn(summaries)) + UndocumentedTail(resources, summaries)
    ensures Sequences.Filter(ValidateResourcesAgainstOpenApi(resources, summaries, tags, operations), IsUndocumentedPath)
         == Sequences.Filter(ValidateResourcesAgainstOpenApi(resources[..|resources| - 1], summaries, tags, operations),
                             IsUndocumentedPath)
            + Sequences.Map(UndocumentedTail(resources, summaries), UndocumentedPathOf)
  {
    var last := resources[|resources| - 1];
    var before := ValidateResourcesAgainstOpenApi(resources[..|resources| - 1], summaries, tags, operations);
    var own := ValidateResource(last, summaries, tags, operations);
    assert ValidateResourcesAgainstOpenApi(resources, summaries, tags, operations) == before + own;
    Sequences.FilterAppend(before, own, IsUndocumentedPath);
    ResourcePathMismatch(last, summaries, tags, operations);
    Sequences.MapOptional(last, UndocumentedIn(summaries)(last), UndocumentedPathOf);
  }

  /** With tag or operation filtering on, resources are only checked for their paths. */
  lemma {:induction false} FilteringSkipsResourceMethods(
    resources: seq<ResourceSummary>, summaries: seq<OpenApiPathSummary>, tags: seq<string>, operations: seq<string>)
    requires FilteringEnabled(tags, operations)
    ensures forall d :: d in ValidateResourcesAgainstOpenApi(resources, summaries, tags, operations) ==>
              d.UndocumentedPath? && exists r :: r in resources && r.path == d.path
    decreases |resources|
  {
    if |resources| > 0 {
      var prefix, last := resources[..|resources| - 1], resources[|resources| - 1];
      FilteringSkipsResourceMethods(prefix, summaries, tags, operations);
      assert forall r :: r in prefix ==> r in resources;
    }
  }

  // ---------------------------------------------------------------------------------------
  // The contract against the resources

  /** The operations the annotation's filters select for checking: those listed under
      `operations` and/or those carrying one of `tags`; everything when neither is given. */
  function OperationFilter(summary: OpenApiPathSummary, tags: seq<string>, operations: seq<string>,
                           hasTags: TagTest): (selected: string -> bool)
    ensures forall m :: selected(m) <==> ((|operations| > 0 ==> m in operations)
                                          && (|tags| > 0 ==> hasTags(summary, tags, m)))
  {
    if |operations| > 0 then
      if |tags| > 0 then m => m in operations && hasTags(summary, tags, m)
      else m => m in operations
    else if |tags| > 0 then m => hasTags(summary, tags, m)
    else m => true
  }

  /** The test "selected, and not among these methods". */
  function SelectedAndNotIn(selected: string -> bool, methods: seq<string>): string -> bool {
    (m: string) => selected(m) && m !in methods
  }

  /** The operations of `summary` that the filters select and that no resource with its path
      implements, in contract order. */
  function UnimplementedOperations(summary: OpenApiPathSummary, implemented: seq<string>, tags: seq<string>,
                                   operations: seq<string>, hasTags: TagTest): seq<string>
  {
    Sequences.Filter(summary.availableOperations,
                     SelectedAndNotIn(OperationFilter(summary, tags, operations, hasTags), implemented))
  }

  /** One path of `validateOpenApiAgainstResources`: some resource must have the path and, among
      the operations the filters select, each must be a method of such a resource. */
  function ValidatePath(summary: OpenApiPathSummary, resources: seq<ResourceSummary>, tags: seq<string>,
                        operations: seq<string>, hasTags: TagTest): (ds: seq<Diagnostic>)
    ensures |ds| <= 1
    ensures GetResourceSummaryByPath(resources, summary.path).None? <==> ds == [UnimplementedPath(summary.path)]
    ensures GetResourceSummaryByPath(resources, summary.path).Some? ==>
              var implemented := GetAllMethodsInResourceSummaries(GetResourceSummaryByPath(resources, summary.path).value);
              var unmatched := UnimplementedOperations(summary, implemented, tags, operations, hasTags);
              ds == if |unmatched| > 0 then [UnimplementedMethods(summary.path, Join(unmatched))] else []
  {
    match GetResourceSummaryByPath(resources, summary.path)
    case None => [UnimplementedPath(summary.path)]
    case Some(matching) =>
      var implemented := GetAllMethodsInResourceSummaries(matching);
      var unmatched := UnimplementedOperations(summary, implemented, tags, operations, hasTags);
      if FilteringEnabled(tags, operations) then
        if |unmatched| > 0 then [UnimplementedMethods(summary.path, Join(unmatched))] else []
      else
        ContainsAllIffNoneUnmatched(implemented, summary.availableOperations,
                                    SelectedAndNotIn(OperationFilter(summary, tags, operations, hasTags), implemented));
        if !ContainsAll(implemented, summary.availableOperations) then
          [UnimplementedMethods(summary.path, Join(unmatched))]
        else []
  }

  /** `validateOpenApiAgainstResources`: the diagnostics of each contract path, in contract order. */
  function ValidateOpenApiAgainstResources(summaries: seq<OpenApiPathSummary>, resources: seq<ResourceSummary>,
                                           tags: seq<string>, operations: seq<string>, hasTags: TagTest): (ds: seq<Diagnostic>)
    ensures |ds| <= |summaries|
    ensures forall k :: 0 <= k < |ds| ==> FromContractSide(ds[k])
  {
    if |summaries| == 0 then []
    else
      ValidateOpenApiAgainstResources(summaries[..|summaries| - 1], resources, tags, operations, hasTags)
        + ValidatePath(summaries[|summaries| - 1], resources, tags, operations, hasTags)
  }

  /** The test "no resource has this contract path". */
  function UnimplementedIn(resources: seq<ResourceSummary>): OpenApiPathSummary -> bool {
    (s: OpenApiPathSummary) => GetResourceSummaryByPath(resources, s.path).None?
  }

  function UnimplementedPathOf(s: OpenApiPathSummary): Diagnostic {
    UnimplementedPath(s.path)
  }

  predicate IsUnimplementedPath(d: Diagnostic) {
    d.UnimplementedPath?
  }

  /** One contract path yields a missing-implementation diagnostic exactly when no resource has it. */
  lemma ContractPathMismatch(summary: OpenApiPathSummary, resources: seq<ResourceSummary>, tags: seq<string>,
                             operations: seq<string>, hasTags: TagTest)
    ensures Sequences.Filter(ValidatePath(summary, resources, tags, operations, hasTags), IsUnimplementedPath)
         == if UnimplementedIn(resources)(summary) then [UnimplementedPath(summary.path)] else []
  {
    var own := ValidatePath(summary, resources, tags, operations, hasTags);
    if |own| == 1 {
      assert own[..0] == [];
    }
  }

  /** The "implementation is missing for the path" diagnostics are exactly one per contract path
      that no resource has, in contract order, whatever the filters. */
  lemma {:induction false} OneMissingImplementationPerPath(
    summaries: seq<OpenApiPathSummary>, resources: seq<ResourceSummary>, tags: seq<string>,
    operations: seq<string>, hasTags: TagTest)
    ensures Sequences.Filter(ValidateOpenApiAgainstResources(summaries, resources, tags, operations, hasTags), IsUnimplementedPath)
         == Sequences.Map(Sequences.Filter(summaries, UnimplementedIn(resources)), UnimplementedPathOf)
    decreases |summaries|
  {
    if |summaries| > 0 {
      var prefix := summaries[..|summaries| - 1];
      var tail := UnimplementedTail(summaries, resources);
      OneMissingImplementationPerPath(prefix, resources, tags, operations, hasTags);
      MissingImplementationStep(summaries, resources, tags, operations, hasTags);
      Sequences.MapAppend(Sequences.Filter(prefix, UnimplementedIn(resources)), tail, UnimplementedPathOf);
    }
  }

  /** The last contract path when no resource has it, and nothing otherwise. */
  function UnimplementedTail(summaries: seq<OpenApiPathSummary>, resources: seq<ResourceSummary>): seq<OpenApiPathSummary>
    requires |summaries| > 0
  {
    var last := summaries[|summaries| - 1];
    if UnimplementedIn(resources)(last) then [last] else []
  }

  /** One contract path more: its missing-implementation diagnostic, if any, follows those of
      the paths before it, just as the path itself follows them among the unimplemented paths. */
  lemma MissingImplementationStep(summaries: seq<OpenApiPathSummary>, resources: seq<ResourceSummary>,
                                  tags: seq<string>, operations: seq<string>, hasTags: TagTest)
    requires |summaries| > 0
    ensures Sequences.Filter(summaries, UnimplementedIn(resources))
         == Sequences.Filter(summaries[..|summaries| - 1], UnimplementedIn(resources)) + UnimplementedTail(summaries, resources)
    ensures Sequences.Filter(ValidateOpenApiAgainstResources(summaries, resources, tags, operations, hasTags), IsUnimplementedPath)
         == Sequences.Filter(ValidateOpenApiAgainstResources(summaries[..|summaries| - 1], resources, tags, operations, hasTags),
                             IsUnimplementedPath)
            + Sequences.Map(UnimplementedTail(summaries, resources), UnimplementedPathOf)
  {
    var last := summaries[|summaries| - 1];
    var before := ValidateOpenApiAgainstResources(summaries[..|summaries| - 1], resources, tags, operations, hasTags);
    var own := ValidatePath(last, resources, tags, operations, hasTags);
    assert ValidateOpenApiAgainstResources(summaries, resources, tags, operations, hasTags) == before + own;
    Sequences.FilterAppend(before, own, IsUnimplementedPath);
    ContractPathMismatch(last, resources, tags, operations, hasTags);
    Sequences.MapOptional(last, UnimplementedIn(resources)(last), UnimplementedPathOf);
  }
}
