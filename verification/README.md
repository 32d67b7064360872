# A Dafny model of three pieces of the Ballerina toolchain

This project models, and proves properties of, three independent pieces of sequential logic
from the Ballerina compiler and tools:

1. **`XMLAttributeValue`**, a generated node of the Ballerina parser's syntax tree
   (`syntax_tree.dfy`, module `SyntaxTree`). Internal nodes (`STNode`) are immutable values.
   External nodes (`Node`) are objects that wrap an internal node with a position and a parent.
   They materialise their children lazily, one bucket per child slot. The attribute value has
   three slots: start quote (0), content list (1) and end quote (2). The model covers the slot
   accessors, `childNames`, the visitor and transformer double dispatch, and `modify`. `modify`
   returns the receiver itself when every replacement is the very object already in its slot, and
   otherwise a fresh node built by the factory. The `Node` constructor keeps the internal node,
   position and parent it is given (`XMLAttributeValue.java:29-31`). Node identity is modelled
   with a class, so reference equality is Dafny's object identity.
2. **`PackageInfo`**, the metadata of one package in a compiled program file
   (`program_file.dfy`, module `ProgramFile`). It holds an interning constant pool and registries
   of type definitions, services and attributes. A type definition or service registered by name
   also lands in the shared structure-type registry. `LinkedMap` models the `LinkedHashMap`
   behind the type-definition registry: a map plus the order of first insertion.
3. **The OpenAPI validator compiler plugin** (`openapi_validator.dfy`, module
   `OpenApiValidator`, and `openapi_plugin.dfy`, module `OpenApiPlugin`). It compares the
   resources of an annotated service with the paths and operations of its OpenAPI contract. Each
   resource contributes a path and lower-cased HTTP methods. The comparison runs in both
   directions, can be restricted by tag and operation filters, and yields a list of diagnostics.

`sequences.dfy` holds the shared helpers: `Option` (Java's nullable result), `Filter`,
`FirstIndex`, `IndexOf` and `Map`, with their lemmas.

Inputs that the real code obtains from the compiler or from files are parameters here:
- the result of parsing the contract file (`ParseOutcome`);
- what `process` reads from the service annotation (`ServiceInput`);
- the tag test `OpenAPIPathSummary.hasTags` (`TagTest`);
- the operation-name constants (`OperationNames`).

## Model

Paths in the source column are relative to the repository root.

| member | source | states |
|---|---|---|
| SyntaxTree.XmlAttributeValueChildNames | compiler/ballerina-parser/src/main/java/io/ballerinalang/compiler/syntax/tree/XMLAttributeValue.java:55-61 | exactly three names, with "startQuote", "value" and "endQuote" at the slot indices the accessors read |
| SyntaxTree.CreateSTXmlAttributeValue | compiler/ballerina-parser/src/main/java/io/ballerinalang/compiler/syntax/tree/XMLAttributeValue.java:74-77 | the internal node the factory builds has the attribute-value kind and three children, each supplied node in its slot; its width is the sum of the three widths |
| SyntaxTree.ChildSpansTileParent | compiler/ballerina-parser/src/main/java/io/ballerinalang/compiler/syntax/tree/XMLAttributeValue.java:33-43 | a child slot starts where the previous one ends, and no child extends past its parent, so the positions the accessors hand out tile the parent |
| SyntaxTree.Node.constructor | compiler/ballerina-parser/src/main/java/io/ballerinalang/compiler/syntax/tree/XMLAttributeValue.java:29-31 | a new node keeps the internal node, position and parent it is given, satisfies the cache invariant and has no child materialised yet |
| SyntaxTree.Node.ChildInBucket | compiler/ballerina-parser/src/main/java/io/ballerinalang/compiler/syntax/tree/XMLAttributeValue.java:33-43 | the child of a slot wraps that slot's internal node at the offset after its siblings, with this node as parent; once materialised, the same object is returned every time; other buckets do not change |
| SyntaxTree.Node.StartQuote | compiler/ballerina-parser/src/main/java/io/ballerinalang/compiler/syntax/tree/XMLAttributeValue.java:33-35 | `startQuote()` is the child in slot 0 |
| SyntaxTree.Node.Value | compiler/ballerina-parser/src/main/java/io/ballerinalang/compiler/syntax/tree/XMLAttributeValue.java:37-39 | `value()` is a new `NodeList` view whose underlying node is the child in slot 1 |
| SyntaxTree.Node.EndQuote | compiler/ballerina-parser/src/main/java/io/ballerinalang/compiler/syntax/tree/XMLAttributeValue.java:41-43 | `endQuote()` is the child in slot 2 |
| SyntaxTree.Node.Accept | compiler/ballerina-parser/src/main/java/io/ballerinalang/compiler/syntax/tree/XMLAttributeValue.java:45-48 | an attribute value gets exactly the visitor's attribute-value handler applied to itself |
| SyntaxTree.Node.Apply | compiler/ballerina-parser/src/main/java/io/ballerinalang/compiler/syntax/tree/XMLAttributeValue.java:50-53 | an attribute value answers exactly what the transformer's attribute-value handler answers for it |
| SyntaxTree.Node.CheckForReferenceEquality | compiler/ballerina-parser/src/main/java/io/ballerinalang/compiler/syntax/tree/XMLAttributeValue.java:67-70 | the supplied nodes pass only if each is the very object cached in the bucket of its index, so each is then this node's own child for that slot; an unmaterialised bucket matches no non-null node |
| SyntaxTree.Node.Modify | compiler/ballerina-parser/src/main/java/io/ballerinalang/compiler/syntax/tree/XMLAttributeValue.java:63-78 | when the start quote, the list's underlying node (not the `NodeList` view) and the end quote are the objects in this node's buckets, the result is this node; otherwise it is a fresh node whose three slots hold the supplied nodes; the receiver is never changed |
| SyntaxTree.CreateXmlAttributeValue | compiler/ballerina-parser/src/main/java/io/ballerinalang/compiler/syntax/tree/XMLAttributeValue.java:74-77 | the factory's node is fresh and has no parent, and its internal node is built from the internal nodes of the supplied children |
| SyntaxTree.ModifyWithOwnChildrenIsIdentity | compiler/ballerina-parser/src/main/java/io/ballerinalang/compiler/syntax/tree/XMLAttributeValue.java:63-72 | passing a node's own accessor results back to `modify` yields the node itself, although `value()` makes a new view on every call |
| SyntaxTree.ReplaceValueSharesQuotes | compiler/ballerina-parser/src/main/java/io/ballerinalang/compiler/syntax/tree/XMLAttributeValue.java:63-78 | replacing only the content gives a different node that shares the original quote tokens and holds the new content |
| SyntaxTree.EmptyAttributeValue | compiler/ballerina-parser/src/main/java/io/ballerinalang/compiler/syntax/tree/XMLAttributeValue.java:37-39 | `""` is two characters wide, and the `NodeList` its `value()` accessor returns has size 0 |
| Sequences.IndexOf | compiler/ballerina-lang/src/main/java/org/wso2/ballerinalang/programfile/PackageInfo.java:80-82 | `List.indexOf`: -1 exactly when the value is absent, otherwise an index holding the value with no earlier occurrence |
| ProgramFile.LinkedMap.Put | compiler/ballerina-lang/src/main/java/org/wso2/ballerinalang/programfile/PackageInfo.java:96-99 | `put` on a `LinkedHashMap`: the key maps to the new value, other keys keep theirs, and the order stays duplicate-free and in step with the keys |
| ProgramFile.LinkedMap.Values | compiler/ballerina-lang/src/main/java/org/wso2/ballerinalang/programfile/PackageInfo.java:101-103 | `values()` has one value per key |
| ProgramFile.LinkedMap.PutValues | compiler/ballerina-lang/src/main/java/org/wso2/ballerinalang/programfile/PackageInfo.java:96-103 | after `put`, a known key's value is replaced at its place in `values()` and a new key's value is appended |
| ProgramFile.NewPackageInfo | compiler/ballerina-lang/src/main/java/org/wso2/ballerinalang/programfile/PackageInfo.java:45-65 | a new package entry has an empty pool and empty type-definition, service, structure and attribute registries, and satisfies the invariant: no duplicate pool entries, and the structure registry's names are those of the type definitions and services |
| ProgramFile.PackageInfo.AddCPEntry | compiler/ballerina-lang/src/main/java/org/wso2/ballerinalang/programfile/PackageInfo.java:67-74 | the returned index holds the entry; a known entry leaves everything unchanged and yields its first index; a new entry is appended at the old size; the invariant is kept |
| ProgramFile.PackageInfo.GetCPEntry | compiler/ballerina-lang/src/main/java/org/wso2/ballerinalang/programfile/PackageInfo.java:76-78 | the entry at the index; no entry (the list's out-of-bounds exception) exactly for indices outside the pool |
| ProgramFile.PackageInfo.GetCPEntryIndex | compiler/ballerina-lang/src/main/java/org/wso2/ballerinalang/programfile/PackageInfo.java:80-82 | the first index of the entry, or -1 exactly when it is absent |
| ProgramFile.PackageInfo.AddedEntryIsFound | compiler/ballerina-lang/src/main/java/org/wso2/ballerinalang/programfile/PackageInfo.java:67-82 | right after `addCPEntry(e)` returns `i`, `getCPEntryIndex(e)` is `i` and `getCPEntry(i)` is `e` |
| ProgramFile.PackageInfo.AddCPEntryExtendsPool | compiler/ballerina-lang/src/main/java/org/wso2/ballerinalang/programfile/PackageInfo.java:67-74 | interning never moves an existing entry, and afterwards the pool holds the old entries plus the new one |
| ProgramFile.PackageInfo.InternStep | compiler/ballerina-lang/src/main/java/org/wso2/ballerinalang/programfile/PackageInfo.java:67-74 | the pool either stays as it was (known entry) or grows by exactly the entry (new entry) |
| ProgramFile.PackageInfo.AddCPEntriesKeepsPoolValid | compiler/ballerina-lang/src/main/java/org/wso2/ballerinalang/programfile/PackageInfo.java:45-74 | interning any list keeps the pool duplicate-free, keeps earlier entries at their indices, and leaves exactly the old and the new entries in the pool |
| ProgramFile.PackageInfo.AddCPEntriesReturnsIndices | compiler/ballerina-lang/src/main/java/org/wso2/ballerinalang/programfile/PackageInfo.java:67-74 | every index returned while interning a list still locates its entry in the final pool |
| ProgramFile.PackageInfo.AddCPEntriesFirstOccurrenceOrder | compiler/ballerina-lang/src/main/java/org/wso2/ballerinalang/programfile/PackageInfo.java:67-74 | interning into an empty pool yields the distinct entries ordered by their first occurrence in the input |
| ProgramFile.PackageInfo.GetConstPoolEntries | compiler/ballerina-lang/src/main/java/org/wso2/ballerinalang/programfile/PackageInfo.java:84-86 | the pool in index order: element `i` is what `getCPEntry(i)` returns |
| ProgramFile.PackageInfo.AddTypeDefInfo | compiler/ballerina-lang/src/main/java/org/wso2/ballerinalang/programfile/PackageInfo.java:96-99 | the name maps to the info in both the type-definition and the structure-type registry; the pool, services and attributes are unchanged; the invariant is kept |
| ProgramFile.PackageInfo.GetTypeDefInfoEntries | compiler/ballerina-lang/src/main/java/org/wso2/ballerinalang/programfile/PackageInfo.java:101-103 | one entry per registered type-definition name |
| ProgramFile.PackageInfo.TypeDefEntriesInInsertionOrder | compiler/ballerina-lang/src/main/java/org/wso2/ballerinalang/programfile/PackageInfo.java:96-103 | re-registering a name replaces its info in place in `getTypeDefInfoEntries`; a new name's info comes last |
| ProgramFile.PackageInfo.GetServiceInfo | compiler/ballerina-lang/src/main/java/org/wso2/ballerinalang/programfile/PackageInfo.java:113-115 | the registered service, or none (Java's `null`) exactly when the name is not registered |
| ProgramFile.PackageInfo.AddServiceInfo | compiler/ballerina-lang/src/main/java/org/wso2/ballerinalang/programfile/PackageInfo.java:117-120 | the name maps to the service in both the service and the structure-type registry; the pool, type definitions and attributes are unchanged; the invariant is kept |
| ProgramFile.PackageInfo.ServiceLookupAfterAdd | compiler/ballerina-lang/src/main/java/org/wso2/ballerinalang/programfile/PackageInfo.java:113-120 | after `addServiceInfo(n, s)`, `getServiceInfo(n)` is `s`, every other name answers as before, and the structure registry holds `s` under `n` |
| ProgramFile.PackageInfo.GetAttributeInfo | compiler/ballerina-lang/src/main/java/org/wso2/ballerinalang/programfile/PackageInfo.java:122-125 | the attribute stored for the kind, or none exactly when there is none |
| ProgramFile.PackageInfo.AddAttributeInfo | compiler/ballerina-lang/src/main/java/org/wso2/ballerinalang/programfile/PackageInfo.java:127-130 | last write wins per kind: the kind now answers the new attribute, every other kind answers as before, nothing else changes |
| OpenApiValidator.GetUnmatchedMethodList | misc/openapi-ballerina/modules/openapi-validator/src/main/java/org/ballerinalang/openapi/validator/OpenAPIValidatorPlugin.java:243-254 | the loop builds the items joined by ", " in order; the empty list gives "" and a singleton gives its element |
| OpenApiValidator.JoinFront | misc/openapi-ballerina/modules/openapi-validator/src/main/java/org/ballerinalang/openapi/validator/OpenAPIValidatorPlugin.java:243-254 | the joined list read from the front: the first item, the separator, then the rest joined |
| OpenApiValidator.GetOpenApiSummaryByPath | misc/openapi-ballerina/modules/openapi-validator/src/main/java/org/ballerinalang/openapi/validator/OpenAPIValidatorPlugin.java:256-265 | the first contract summary with the path; none exactly when no summary has it |
| OpenApiValidator.GetResourceSummaryByPath | misc/openapi-ballerina/modules/openapi-validator/src/main/java/org/ballerinalang/openapi/validator/OpenAPIValidatorPlugin.java:400-413 | none (not an empty list) exactly when no resource has the path; otherwise a non-empty list of exactly the resources with that path, in list order |
| OpenApiValidator.GetAllMethodsInResourceSummaries | misc/openapi-ballerina/modules/openapi-validator/src/main/java/org/ballerinalang/openapi/validator/OpenAPIValidatorPlugin.java:391-398 | a method is in the result exactly when some resource in the list has it; a single resource contributes its methods in their own order |
| OpenApiValidator.AllMethodsAppend | misc/openapi-ballerina/modules/openapi-validator/src/main/java/org/ballerinalang/openapi/validator/OpenAPIValidatorPlugin.java:391-398 | the collected methods of two lists are the two collections concatenated, so the result follows resource order |
| OpenApiValidator.AllMethodsInResourceOrder | misc/openapi-ballerina/modules/openapi-validator/src/main/java/org/ballerinalang/openapi/validator/OpenAPIValidatorPlugin.java:391-398 | the collected methods equal an independent front-to-back reading: each resource's methods in their own order, resources in list order |
| OpenApiValidator.CollectUnmatchedMethods | misc/openapi-ballerina/modules/openapi-validator/src/main/java/org/ballerinalang/openapi/validator/OpenAPIValidatorPlugin.java:217-230 | the nested `noMatch` loops keep exactly the candidates equal to no implemented method, in candidate order |
| OpenApiValidator.ContainsAllIffNoneUnmatched | misc/openapi-ballerina/modules/openapi-validator/src/main/java/org/ballerinalang/openapi/validator/OpenAPIValidatorPlugin.java:364-384 | the `containsAll` test fails exactly when the unmatched list is non-empty |
| OpenApiValidator.ValidateResource | misc/openapi-ballerina/modules/openapi-validator/src/main/java/org/ballerinalang/openapi/validator/OpenAPIValidatorPlugin.java:210-239 | a resource whose path the contract lacks gets exactly the path-mismatch diagnostic; with filtering on, a documented resource gets none; without filtering it gets one diagnostic iff some method is undocumented, listing exactly the undocumented methods in resource order |
| OpenApiValidator.ResourcePathMismatch | misc/openapi-ballerina/modules/openapi-validator/src/main/java/org/ballerinalang/openapi/validator/OpenAPIValidatorPlugin.java:211-214 | one resource yields a path mismatch exactly when the contract lacks its path |
| OpenApiValidator.ValidateResourcesAgainstOpenApi | misc/openapi-ballerina/modules/openapi-validator/src/main/java/org/ballerinalang/openapi/validator/OpenAPIValidatorPlugin.java:205-241 | at most one diagnostic per resource, each a missing path or missing methods of a resource |
| OpenApiValidator.OnePathMismatchPerUndocumentedResource | misc/openapi-ballerina/modules/openapi-validator/src/main/java/org/ballerinalang/openapi/validator/OpenAPIValidatorPlugin.java:210-214 | the path mismatches are exactly one per resource whose path the contract lacks, in resource order, whatever the filters |
| OpenApiValidator.FilteringSkipsResourceMethods | misc/openapi-ballerina/modules/openapi-validator/src/main/java/org/ballerinalang/openapi/validator/OpenAPIValidatorPlugin.java:206-239 | with tag or operation filtering on, every diagnostic is a path mismatch for the path of some resource |
| OpenApiValidator.OperationFilter | misc/openapi-ballerina/modules/openapi-validator/src/main/java/org/ballerinalang/openapi/validator/OpenAPIValidatorPlugin.java:284-363 | an operation is selected iff it is among the listed operations (when any are listed) and carries one of the tags (when any are given) |
| OpenApiValidator.ValidatePath | misc/openapi-ballerina/modules/openapi-validator/src/main/java/org/ballerinalang/openapi/validator/OpenAPIValidatorPlugin.java:272-387 | a contract path no resource has gets exactly the missing-implementation diagnostic; otherwise a diagnostic appears iff some selected operation is a method of no resource with that path, and it lists exactly those operations in contract order, in all four filter branches |
| OpenApiValidator.ContractPathMismatch | misc/openapi-ballerina/modules/openapi-validator/src/main/java/org/ballerinalang/openapi/validator/OpenAPIValidatorPlugin.java:273-277 | one contract path yields a missing-implementation diagnostic exactly when no resource has it |
| OpenApiValidator.ValidateOpenApiAgainstResources | misc/openapi-ballerina/modules/openapi-validator/src/main/java/org/ballerinalang/openapi/validator/OpenAPIValidatorPlugin.java:267-389 | at most one diagnostic per contract path, each a missing implementation of a path or of operations |
| OpenApiValidator.OneMissingImplementationPerPath | misc/openapi-ballerina/modules/openapi-validator/src/main/java/org/ballerinalang/openapi/validator/OpenAPIValidatorPlugin.java:272-277 | the missing-implementation diagnostics are exactly one per contract path that no resource has, in contract order, whatever the filters |
| OpenApiPlugin.Rank | misc/openapi-ballerina/modules/openapi-validator/src/main/java/org/ballerinalang/openapi/validator/OpenAPIValidatorPlugin.java:425-463 | each operation's position in the order GET, POST, PUT, DELETE, HEAD, PATCH, OPTIONS, TRACE in which `summarizeOpenAPI` inspects a path item |
| OpenApiPlugin.PresentOperations | misc/openapi-ballerina/modules/openapi-validator/src/main/java/org/ballerinalang/openapi/validator/OpenAPIValidatorPlugin.java:425-463 | exactly the operations present on the path item, in that fixed order |
| OpenApiPlugin.SummarizeOpenApi | misc/openapi-ballerina/modules/openapi-validator/src/main/java/org/ballerinalang/openapi/validator/OpenAPIValidatorPlugin.java:415-468 | one summary per path entry, in entry order, with the entry's path and the names of its present operations in the fixed order |
| OpenApiPlugin.SummaryListsPresentOperations | misc/openapi-ballerina/modules/openapi-validator/src/main/java/org/ballerinalang/openapi/validator/OpenAPIValidatorPlugin.java:425-463 | with distinct operation names, a summary lists each present operation's name once and nothing else |
| OpenApiPlugin.Init | misc/openapi-ballerina/modules/openapi-validator/src/main/java/org/ballerinalang/openapi/validator/OpenAPIValidatorPlugin.java:50-55 | both summary lists start empty |
| OpenApiPlugin.Validate | misc/openapi-ballerina/modules/openapi-validator/src/main/java/org/ballerinalang/openapi/validator/OpenAPIValidatorPlugin.java:132-133 | the contract-side diagnostics are exactly those of `validateOpenApiAgainstResources` and the resource-side ones exactly those of `validateResourcesAgainstOpenApi` (so at most one per contract path and per resource); every diagnostic comes from one of the two checks, and all contract-side diagnostics precede all resource-side ones |
| OpenApiPlugin.ProcessAccumulating | misc/openapi-ballerina/modules/openapi-validator/src/main/java/org/ballerinalang/openapi/validator/OpenAPIValidatorPlugin.java:127-138 | the annotation-reading diagnostics come first; no contract: nothing else happens; an unreadable contract: its error follows, lists unchanged; a parsed contract: the service's resources and its contract's summaries are appended after the earlier ones, and both checks run over the extended lists |
| OpenApiPlugin.ParsedContractChecksWholeLists | misc/openapi-ballerina/modules/openapi-validator/src/main/java/org/ballerinalang/openapi/validator/OpenAPIValidatorPlugin.java:127-134 | for a parsed contract, both checks run, contract side first, over the whole accumulated lists |
| OpenApiPlugin.ProcessService | misc/openapi-ballerina/modules/openapi-validator/src/main/java/org/ballerinalang/openapi/validator/OpenAPIValidatorPlugin.java:127-138 | the per-service `process`: only the annotation-reading diagnostics without a contract, followed by the error for an unreadable one |
| OpenApiPlugin.ReadDiagnosticsLead | misc/openapi-ballerina/modules/openapi-validator/src/main/java/org/ballerinalang/openapi/validator/OpenAPIValidatorPlugin.java:82-138 | when the annotation-reading diagnostics are reading errors, the per-service `process` reports them first and unchanged, and nothing after them is a reading error: each later diagnostic is the contract's error or comes from one of the two checks |
| OpenApiPlugin.FirstServiceAgrees | misc/openapi-ballerina/modules/openapi-validator/src/main/java/org/ballerinalang/openapi/validator/OpenAPIValidatorPlugin.java:50-138 | for the first service after `init`, the accumulating `process` reports exactly what the per-service one reports |
| OpenApiPlugin.DocumentedResourceIsClean | misc/openapi-ballerina/modules/openapi-validator/src/main/java/org/ballerinalang/openapi/validator/OpenAPIValidatorPlugin.java:210-239 | with distinct contract paths, a resource whose path and methods the contract documents gets no diagnostic |
| OpenApiPlugin.ImplementedPathIsClean | misc/openapi-ballerina/modules/openapi-validator/src/main/java/org/ballerinalang/openapi/validator/OpenAPIValidatorPlugin.java:272-387 | a contract path with a resource implementing each of its operations gets no diagnostic, whatever the filters |
| OpenApiPlugin.ConsistentServiceIsClean | misc/openapi-ballerina/modules/openapi-validator/src/main/java/org/ballerinalang/openapi/validator/OpenAPIValidatorPlugin.java:132-133 | resources and a contract that agree in both directions produce no diagnostics |
| OpenApiPlugin.ConsistentServiceProcessesClean | misc/openapi-ballerina/modules/openapi-validator/src/main/java/org/ballerinalang/openapi/validator/OpenAPIValidatorPlugin.java:127-138 | the per-service `process` reports nothing beyond the annotation-reading diagnostics for a service that agrees with its parsed contract |
| OpenApiPlugin.EarlierServiceLeaksIntoLaterOne | misc/openapi-ballerina/modules/openapi-validator/src/main/java/org/ballerinalang/openapi/validator/OpenAPIValidatorPlugin.java:127-133 | a second service that agrees with its own contract is still reported for the first service's contract path and resource path |

## Left out

- `stdlib/messaging/rabbitmq/.../GetDeliveryTag.java` is not part of this model: it is a native runtime binding over runtime classes that are not modelled.
- Annotation reading in `process` (`OpenAPIValidatorPlugin.java:58-125`) and `summarizeResources` type-test compiler AST classes, which are not modelled. Their results are inputs (`ServiceInput`). That includes the errors reading logs for a contract, tag or operation value that is not a string (lines 84-85, 98-99, 115-116): they are the field `readDiagnostics`, which `process` emits before anything else. The model does not require that field to hold only reading errors; `IsReadDiagnostic` names their three messages, and `ReadDiagnosticsLead` assumes it where it matters.
- `ValidatorUtil.parseOpenAPIFile` reads a file through a foreign library. Its outcome is the `parse` parameter, and its exception message becomes the `ContractError` diagnostic.
- Swagger `Paths` entries that are not `PathItem`s are not modelled, nor are the `Operation` objects stored by `addOperation`; a path item is a path and the set of operations present.
- `OpenAPIPathSummary.hasTags` is not modelled; it is the uninterpreted parameter `TagTest`. The per-operation tags that `addOperation` keeps (`OpenAPIValidatorPlugin.java:427-462`) are not part of a summary, so `TagTest` sees only the path and the operation names: two summaries with the same path and operations but different tags get the same answer. The lemmas quantify over every `TagTest`, so none of them depends on this.
- The `Constants` operation names are not modelled; they are the parameter `OperationNames`; `SummaryListsPresentOperations` assumes only that they are distinct.
- Diagnostics keep their kind, path and method list. Source positions, severity and the fixed message prefixes are left out.
- A resource or contract summary with a `null` path, which makes `getPath().equals` throw, is not modelled: paths are always strings.
- `getAnnotationInfoEntries`, `getServiceInfoEntries` and `getAttributeInfoEntries` return `HashMap` values, whose order Java leaves unspecified, so they are not modelled.
- `getConstantInfoEntries`, `getPackageInfoEntries` and the public fields of `PackageInfo` outside the modelled registries are plain field access and are not part of this model.
- `typeDefInfoMap` and `serviceInfoMap` are public fields (`PackageInfo.java:57`, `PackageInfo.java:61`). A caller that writes to them directly bypasses the structure registry and can break `PackageInfo.Valid`. The model assumes that every write goes through `addTypeDefInfo` and `addServiceInfo`.
- `ConstantPoolEntry.equals` is not modelled. Pool entries are a type parameter with value equality.
- Pool indices are unbounded integers; a pool beyond Java's `int` range is not modelled.
- `NonTerminalNode`, `NodeList` and `NodeFactory` are modelled only in part. The model keeps the behaviour `XMLAttributeValue` relies on: cached per-slot children, reference comparison with those cached objects, and a factory that returns a fresh, parentless node (its position 0 is an assumption).
- SyntaxTree.Node.Accept: a visitor's side effect is modelled as a state transformation, and the visitor and transformer have handlers only for the node kinds this slice needs.
- SyntaxTree.Node.Modify: null arguments are not modelled; the parameters are non-null references. In the program a null `value` throws a `NullPointerException` at `XMLAttributeValue.java:69` before any comparison, and a null token matches a bucket that is still empty.
- SyntaxTree.Node.ChildInBucket, SyntaxTree.Node.StartQuote, SyntaxTree.Node.Value, SyntaxTree.Node.EndQuote, SyntaxTree.Node.Modify: these update the child cache of a mutable node, so their contracts are stated with `old` and `fresh`.
- OpenApiValidator.ValidateResourcesAgainstOpenApi, OpenApiValidator.ValidateOpenApiAgainstResources: their own contracts only bound the number of diagnostics and fix their kind; which diagnostics appear, and in what order, is stated by the lemmas listed under them.

## Findings

| source | as written | input that shows it | evidently intended | confidence | as-written member | corrected member |
|---|---|---|---|---|---|---|
| misc/openapi-ballerina/modules/openapi-validator/src/main/java/org/ballerinalang/openapi/validator/OpenAPIValidatorPlugin.java:127-133 | `init` creates the two summary lists once. Each `process` call only appends to them and then checks the whole lists, so a service is checked against every earlier service's resources and contract paths too | service 1 has a resource at `/x` and a contract with the single path `/a`; service 2 has a resource at `/b` and a contract with the single path `/b`; processing service 2 reports `/a` as unimplemented and `/x` as undocumented | each service is checked against its own contract only, so service 2, which matches its contract, gets no diagnostics | medium, not executed | OpenApiPlugin.EarlierServiceLeaksIntoLaterOne | OpenApiPlugin.ProcessService |
