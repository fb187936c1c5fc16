/**
 * scripts/process-specs.ts: the rewriter that strips Kubernetes metadata from an OpenAPI
 * document. This module holds its helpers: the parameter filter, the path-key rewrite and
 * the `$ref` rewrite.
 */
module ProcessSpecs {
  import opened Wrappers
  import opened JsonValue
  import Strings
  import SchemaNames

  // ---------------------------------------------------------------------------------------
  // filterNamespaceParameters
  // ---------------------------------------------------------------------------------------

  /** A parameter the filter keeps: an object with a `name` that is not the string `namespace`. */
  predicate IsKeptParameter(param: Json) {
    param.JObj? && Get(param.fields, "name").Some? && Get(param.fields, "name") != Some(JStr("namespace"))
  }

  /** A value on which `'name' in param` throws: anything that is not an object or an array. */
  predicate IsPrimitive(j: Json) {
    !j.JObj? && !j.JArr?
  }

  /** `a` is `b` with some elements left out, order kept. */
  predicate IsSubsequence<T(==)>(a: seq<T>, b: seq<T>) {
    |a| == 0
    || (|b| > 0 && ((a[0] == b[0] && IsSubsequence(a[1..], b[1..])) || IsSubsequence(a, b[1..])))
  }

  /**
   * `parameters.filter((param) => 'name' in param && param.name !== 'namespace')`; the
   * `in` test throws on the first primitive, so the filter fails exactly when there is one.
   */
  function FilterNamespaceParameters(parameters: seq<Json>): (r: Result<seq<Json>, JsError>)
    ensures r.Failure? <==> exists k :: 0 <= k < |parameters| && IsPrimitive(parameters[k])
    ensures r.Failure? ==> r.error == InOnPrimitive
    ensures r.Success? ==> IsSubsequence(r.value, parameters)
    ensures r.Success? ==> forall k :: 0 <= k < |r.value| ==> IsKeptParameter(r.value[k])
    ensures r.Success? ==> forall p :: multiset(r.value)[p] == if IsKeptParameter(p) then multiset(parameters)[p] else 0
  {
    if |parameters| == 0 then Success([])
    else
      var head := parameters[0];
      var tail := parameters[1..];
      assert parameters == [head] + tail;
      if IsPrimitive(head) then Failure(InOnPrimitive)
      else
        match FilterNamespaceParameters(tail)
        case Failure(e) => Failure(e)
        case Success(kept) =>
          if IsKeptParameter(head) then Success([head] + kept)
          else Success(kept)
  }


  // ---------------------------------------------------------------------------------------
  // The path-key rewrite: path.replace(/^\/apis\/[^\/]+\/[^\/]+\/namespaces\/\{namespace}/, '')
  // ---------------------------------------------------------------------------------------

  const ApisPrefix := "/apis/"
  const NamespaceSuffix := "/namespaces/{namespace}"

  /** What `[^\/]+` matches: a non-empty run without `/`. */
  predicate IsSegment(segment: string) {
    |segment| > 0 && '/' !in segment
  }

  /** `/apis/<group>/<version>/namespaces/{namespace}` */
  function NamespacedPrefix(group: string, version: string): string {
    ApisPrefix + group + "/" + version + NamespaceSuffix
  }

  /** The index of the first `/` at or after `from`, or `|s|` when there is none. */
  function SlashFrom(s: string, from: nat): (r: nat)
    requires from <= |s|
    ensures from <= r <= |s|
    ensures r < |s| ==> s[r] == '/'
    ensures forall k :: from <= k < r ==> s[k] != '/'
    decreases |s| - from
  {
    if from == |s| || s[from] == '/' then from else SlashFrom(s, from + 1)
  }

  /**
   * The new path key: the path with the namespaced prefix removed when it starts with one,
   * the path itself otherwise. Each `[^\/]+` takes every character up to the next `/`,
   * as backtracking to a shorter run could never be followed by the `/` the pattern needs.
   */
  function StripNamespacePrefix(path: string): (r: string)
    ensures |r| <= |path|
  {
    if !Strings.StartsWith(path, ApisPrefix) then path
    else
      var groupEnd := SlashFrom(path, |ApisPrefix|);
      if groupEnd == |ApisPrefix| || groupEnd == |path| then path
      else
        var versionEnd := SlashFrom(path, groupEnd + 1);
        if versionEnd == groupEnd + 1 || !Strings.StartsWith(path[versionEnd..], NamespaceSuffix) then path
        else path[versionEnd + |NamespaceSuffix|..]
  }

  /** A path that starts with a namespaced prefix loses exactly that prefix. */
  lemma StripNamespacedPath(group: string, version: string, rest: string)
    requires IsSegment(group) && IsSegment(version)
    ensures StripNamespacePrefix(NamespacedPrefix(group, version) + rest) == rest
  {
    var p1 := ApisPrefix + group;
    var p2 := p1 + "/";
    var p3 := p2 + version;
    var p4 := p3 + NamespaceSuffix;
    var path := p4 + rest;
    assert path == NamespacedPrefix(group, version) + rest;
    var groupEnd := |p1|;
    var versionEnd := |p3|;
    assert Strings.StartsWith(path, ApisPrefix) by {
      assert path[..|ApisPrefix|] == p1[..|ApisPrefix|] == ApisPrefix;
    }
    assert SlashFrom(path, |ApisPrefix|) == groupEnd by {
      forall k | |ApisPrefix| <= k < groupEnd ensures path[k] != '/' {
        assert path[k] == p1[k] == group[k - |ApisPrefix|];
      }
      assert path[groupEnd] == p2[groupEnd] == '/';
      SlashFromIs(path, |ApisPrefix|, groupEnd);
    }
    assert SlashFrom(path, groupEnd + 1) == versionEnd by {
      forall k | groupEnd + 1 <= k < versionEnd ensures path[k] != '/' {
        assert path[k] == p3[k] == version[k - groupEnd - 1];
      }
      assert path[versionEnd] == p4[versionEnd] == NamespaceSuffix[0];
      SlashFromIs(path, groupEnd + 1, versionEnd);
    }
    assert path[versionEnd..] == NamespaceSuffix + rest;
    assert (NamespaceSuffix + rest)[..|NamespaceSuffix|] == NamespaceSuffix;
    assert path[versionEnd + |NamespaceSuffix|..] == rest;
  }

  /** `SlashFrom` finds the first slash. */
  lemma SlashFromIs(s: string, from: nat, at: nat)
    requires from <= at < |s| && s[at] == '/'
    requires forall k :: from <= k < at ==> s[k] != '/'
    ensures SlashFrom(s, from) == at
  {
    var r := SlashFrom(s, from);
    assert !(r < at);
    assert !(r > at);
  }

  /** `path` is a namespaced prefix for `group` and `version` followed by `rest`. */
  predicate IsNamespacedPath(path: string, group: string, version: string, rest: string) {
    IsSegment(group) && IsSegment(version) && path == NamespacedPrefix(group, version) + rest
  }

  /** A path that is changed at all lost a namespaced prefix, and nothing else. */
  lemma StripOnlyNamespacedPrefix(path: string) returns (group: string, version: string)
    requires StripNamespacePrefix(path) != path
    ensures IsNamespacedPath(path, group, version, StripNamespacePrefix(path))
  {
    var groupEnd, versionEnd := StripCutPoints(path);
    group := path[|ApisPrefix|..groupEnd];
    version := path[groupEnd + 1..versionEnd];
    var rest := StripNamespacePrefix(path);
    var suffixEnd := versionEnd + |NamespaceSuffix|;
    SliceIsSegment(path, |ApisPrefix|, groupEnd);
    SliceIsSegment(path, groupEnd + 1, versionEnd);
    assert path[groupEnd..groupEnd + 1] == "/" by { assert path[groupEnd..groupEnd + 1] == [path[groupEnd]]; }
    Strings.ConcatOfSixSlices(path, |ApisPrefix|, groupEnd, groupEnd + 1, versionEnd, suffixEnd,
                              ApisPrefix, group, "/", version, NamespaceSuffix, rest);
  }

  /** Where `StripNamespacePrefix` cut a path it changed: after the group and after the version. */
  lemma StripCutPoints(path: string) returns (groupEnd: nat, versionEnd: nat)
    requires StripNamespacePrefix(path) != path
    ensures |ApisPrefix| < groupEnd && groupEnd + 1 < versionEnd && versionEnd + |NamespaceSuffix| <= |path|
    ensures path[..|ApisPrefix|] == ApisPrefix && path[groupEnd] == '/'
    ensures forall k :: |ApisPrefix| <= k < groupEnd ==> path[k] != '/'
    ensures forall k :: groupEnd + 1 <= k < versionEnd ==> path[k] != '/'
    ensures path[versionEnd..versionEnd + |NamespaceSuffix|] == NamespaceSuffix
    ensures StripNamespacePrefix(path) == path[versionEnd + |NamespaceSuffix|..]
  {
    assert Strings.StartsWith(path, ApisPrefix);
    groupEnd := SlashFrom(path, |ApisPrefix|);
    versionEnd := SlashFrom(path, groupEnd + 1);
    assert Strings.StartsWith(path[versionEnd..], NamespaceSuffix);
    Strings.PrefixOfSuffix(path, versionEnd, |NamespaceSuffix|);
  }

  /** A non-empty slice without `/` is a segment. */
  lemma SliceIsSegment(s: string, from: nat, to: nat)
    requires from < to <= |s|
    requires forall k :: from <= k < to ==> s[k] != '/'
    ensures IsSegment(s[from..to])
  {
    forall x | x in s[from..to] ensures x != '/' {
      var k :| 0 <= k < to - from && s[from..to][k] == x;
      assert s[from + k] == x;
    }
  }

  // ---------------------------------------------------------------------------------------
  // updateRefs
  // ---------------------------------------------------------------------------------------

  const SchemasRefPrefix := "#/components/schemas/"

  /** `` `#/components/schemas/${simplifySchemaName(ref.split('/').at(-1))}` `` */
  function RewriteRef(ref: string): (r: string)
    ensures Strings.StartsWith(r, SchemasRefPrefix)
  {
    var refParts := Strings.Split(ref, '/');
    var lastRefPart := refParts[|refParts| - 1];
    var r := SchemasRefPrefix + SchemaNames.SimplifySchemaName(lastRefPart);
    assert r[..|SchemasRefPrefix|] == SchemasRefPrefix;
    r
  }

  /**
   * A rewritten reference names the schema its last `/`-segment names, under its simplified
   * name: for `#/definitions/<name>` as for a bare `<name>`.
   */
  lemma RewriteRefOfLastSegment(init: string, name: string)
    requires '/' !in name
    ensures RewriteRef(init + "/" + name) == SchemasRefPrefix + SchemaNames.SimplifySchemaName(name)
    ensures RewriteRef(name) == SchemasRefPrefix + SchemaNames.SimplifySchemaName(name)
  {
    Strings.SplitLast(init, name, '/');
    Strings.SplitNoSeparator(name, '/');
  }

  /**
   * `updateRefs(obj)` on a tree: every array element and every object value under a key other
   * than `$ref` is visited, and an object's string `$ref` is rewritten.
   */
  function UpdateRefs(j: Json): (r: Json)
    ensures !j.JArr? && !j.JObj? ==> r == j
    ensures j.JArr? ==> r.JArr? && |r.items| == |j.items|
    ensures j.JObj? ==> r.JObj? && KeyList(r.fields) == KeyList(j.fields)
    decreases j, 1
  {
    match j
    case JArr(items) => JArr(UpdateRefsItems(items))
    case JObj(fields) => JObj(UpdateRefsFields(fields))
    case _ => j
  }

  function UpdateRefsItems(items: seq<Json>): (r: seq<Json>)
    ensures |r| == |items|
    decreases items, 0
  {
    if |items| == 0 then [] else [UpdateRefs(items[0])] + UpdateRefsItems(items[1..])
  }

  function UpdateRefsFields(fields: seq<Field>): (r: seq<Field>)
    ensures KeyList(r) == KeyList(fields)
    decreases fields, 0
  {
    if |fields| == 0 then [] else [UpdateRefsField(fields[0])] + UpdateRefsFields(fields[1..])
  }

  /** One object entry: a string under `$ref` is rewritten, any other value is visited. */
  function UpdateRefsField(field: Field): (r: Field)
    ensures r.0 == field.0
    decreases field, 0
  {
    var (key, value) := field;
    if key == "$ref" then (key, if value.JStr? then JStr(RewriteRef(value.s)) else value)
    else (key, UpdateRefs(value))
  }

  /** The values `UpdateRefs` gives an array's elements, one by one. */
  lemma {:induction false} UpdateRefsItemsAt(items: seq<Json>)
    ensures forall i :: 0 <= i < |items| ==> UpdateRefsItems(items)[i] == UpdateRefs(items[i])
  {
    if |items| > 0 {
      UpdateRefsItemsAt(items[1..]);
      assert forall i :: 1 <= i < |items| ==> UpdateRefsItems(items)[i] == UpdateRefsItems(items[1..])[i - 1];
    }
  }

  /** The entries `UpdateRefs` gives an object's fields, one by one. */
  lemma {:induction false} UpdateRefsFieldsAt(fields: seq<Field>)
    ensures forall i :: 0 <= i < |fields| ==> UpdateRefsFields(fields)[i] == UpdateRefsField(fields[i])
  {
    if |fields| > 0 {
      UpdateRefsFieldsAt(fields[1..]);
      assert forall i :: 1 <= i < |fields| ==> UpdateRefsFields(fields)[i] == UpdateRefsFields(fields[1..])[i - 1];
    }
  }

  /**
   * The in-place walk of `updateRefs`: each array element and each non-`$ref` value is
   * visited, and the object's own string `$ref` is overwritten. The tree has no sharing, so
   * overwriting entry `i` of `obj` is replacing element `i` of its field list.
   */
  method RewriteRefs(obj: Json) returns (r: Json)
    ensures r == UpdateRefs(obj)
    decreases obj, 1
  {
    match obj {
      case JArr(items) =>
        var newItems := items;
        var i := 0;
        UpdateRefsItemsAt(items);
        while i < |newItems|
          invariant 0 <= i <= |newItems| == |items|
          invariant forall k :: 0 <= k < i ==> newItems[k] == UpdateRefs(items[k])
          invariant forall k :: i <= k < |items| ==> newItems[k] == items[k]
        {
          var item := RewriteRefs(items[i]);
          newItems := newItems[i := item];
          i := i + 1;
        }
        assert newItems == UpdateRefsItems(items);
        r := JArr(newItems);
      case JObj(fields) =>
        var newFields := fields;
        var i := 0;
        UpdateRefsFieldsAt(fields);
        while i < |newFields|
          invariant 0 <= i <= |newFields| == |fields|
          invariant forall k :: 0 <= k < i ==> newFields[k] == UpdateRefsField(fields[k])
          invariant forall k :: i <= k < |fields| ==> newFields[k] == fields[k]
        {
          var field := RewriteRefsField(fields[i]);
          newFields := newFields[i := field];
          i := i + 1;
        }
        assert newFields == UpdateRefsFields(fields);
        r := JObj(newFields);
      case _ =>
        r := obj;
    }
  }

  /** One entry of the walk: `obj.$ref = …` for a string `$ref`, `updateRefs(obj[key])` otherwise. */
  method RewriteRefsField(field: Field) returns (r: Field)
    ensures r == UpdateRefsField(field)
    decreases field, 0
  {
    var (key, value) := field;
    if key == "$ref" {
      if value.JStr? {
        r := (key, JStr(RewriteRef(value.s)));
      } else {
        r := field;
      }
    } else {
      var newValue := RewriteRefs(value);
      r := (key, newValue);
    }
  }

  // ---------------------------------------------------------------------------------------
  // What updateRefs changes and what it keeps
  // ---------------------------------------------------------------------------------------

  /** The document with every string `$ref` blanked: all that `updateRefs` must not touch. */
  function RefsBlanked(j: Json): Json
    decreases j, 1
  {
    match j
    case JArr(items) => JArr(RefsBlankedItems(items))
    case JObj(fields) => JObj(RefsBlankedFields(fields))
    case _ => j
  }

  function RefsBlankedItems(items: seq<Json>): seq<Json>
    decreases items, 0
  {
    if |items| == 0 then [] else [RefsBlanked(items[0])] + RefsBlankedItems(items[1..])
  }

  function RefsBlankedFields(fields: seq<Field>): seq<Field>
    decreases fields, 0
  {
    if |fields| == 0 then [] else [RefsBlankedField(fields[0])] + RefsBlankedFields(fields[1..])
  }

  function RefsBlankedField(field: Field): Field
    decreases field, 0
  {
    var (key, value) := field;
    if key == "$ref" then (key, if value.JStr? then JStr("") else value)
    else (key, RefsBlanked(value))
  }

  /** The string `$ref` values `updateRefs` visits, in the order it visits them. */
  function Refs(j: Json): seq<string>
    decreases j, 1
  {
    match j
    case JArr(items) => RefsItems(items)
    case JObj(fields) => RefsFields(fields)
    case _ => []
  }

  function RefsItems(items: seq<Json>): seq<string>
    decreases items, 0
  {
    if |items| == 0 then [] else Refs(items[0]) + RefsItems(items[1..])
  }

  function RefsFields(fields: seq<Field>): seq<string>
    decreases fields, 0
  {
    if |fields| == 0 then [] else RefsField(fields[0]) + RefsFields(fields[1..])
  }

  function RefsField(field: Field): seq<string>
    decreases field, 0
  {
    var (key, value) := field;
    if key == "$ref" then (if value.JStr? then [value.s] else [])
    else Refs(value)
  }

  /** Every reference of a list rewritten. */
  function RewriteAll(refs: seq<string>): (r: seq<string>)
    ensures |r| == |refs|
  {
    if |refs| == 0 then [] else [RewriteRef(refs[0])] + RewriteAll(refs[1..])
  }

  /** The `i`-th reference rewritten is the rewrite of the `i`-th reference. */
  lemma {:induction false} RewriteAllAt(refs: seq<string>, i: nat)
    requires i < |refs|
    ensures RewriteAll(refs)[i] == RewriteRef(refs[i])
  {
    if i > 0 {
      RewriteAllAt(refs[1..], i - 1);
    }
  }

  lemma {:induction false} RewriteAllAppend(a: seq<string>, b: seq<string>)
    ensures RewriteAll(a + b) == RewriteAll(a) + RewriteAll(b)
  {
    if |a| == 0 {
      assert a + b == b;
    } else {
      assert (a + b)[0] == a[0] && (a + b)[1..] == a[1..] + b;
      RewriteAllAppend(a[1..], b);
    }
  }

  /** `updateRefs` leaves everything but the string `$ref` values exactly as it was. */
  lemma {:induction false} UpdateRefsKeepsShape(j: Json)
    ensures RefsBlanked(UpdateRefs(j)) == RefsBlanked(j)
    decreases j, 1
  {
    match j
    case JArr(items) => UpdateRefsKeepsShapeItems(items);
    case JObj(fields) => UpdateRefsKeepsShapeFields(fields);
    case _ =>
  }

  lemma {:induction false} UpdateRefsKeepsShapeItems(items: seq<Json>)
    ensures RefsBlankedItems(UpdateRefsItems(items)) == RefsBlankedItems(items)
    decreases items, 0
  {
    if |items| > 0 {
      UpdateRefsKeepsShape(items[0]);
      UpdateRefsKeepsShapeItems(items[1..]);
    }
  }

  lemma {:induction false} UpdateRefsKeepsShapeFields(fields: seq<Field>)
    ensures RefsBlankedFields(UpdateRefsFields(fields)) == RefsBlankedFields(fields)
    decreases fields, 0
  {
    if |fields| > 0 {
      UpdateRefsKeepsShapeField(fields[0]);
      UpdateRefsKeepsShapeFields(fields[1..]);
    }
  }

  lemma {:induction false} UpdateRefsKeepsShapeField(field: Field)
    ensures RefsBlankedField(UpdateRefsField(field)) == RefsBlankedField(field)
    decreases field, 0
  {
    if field.0 != "$ref" {
      UpdateRefsKeepsShape(field.1);
    }
  }

  /** `updateRefs` rewrites each string `$ref`, in place and in order, and adds or drops none. */
  lemma {:induction false} UpdateRefsRewritesRefs(j: Json)
    ensures Refs(UpdateRefs(j)) == RewriteAll(Refs(j))
    decreases j, 1
  {
    match j
    case JArr(items) => UpdateRefsRewritesRefsItems(items);
    case JObj(fields) => UpdateRefsRewritesRefsFields(fields);
    case _ =>
  }

  lemma {:induction false} UpdateRefsRewritesRefsItems(items: seq<Json>)
    ensures RefsItems(UpdateRefsItems(items)) == RewriteAll(RefsItems(items))
    decreases items, 0
  {
    if |items| > 0 {
      UpdateRefsRewritesRefs(items[0]);
      UpdateRefsRewritesRefsItems(items[1..]);
      RewriteAllAppend(Refs(items[0]), RefsItems(items[1..]));
    }
  }

  lemma {:induction false} UpdateRefsRewritesRefsFields(fields: seq<Field>)
    ensures RefsFields(UpdateRefsFields(fields)) == RewriteAll(RefsFields(fields))
    decreases fields, 0
  {
    if |fields| > 0 {
      UpdateRefsRewritesRefsField(fields[0]);
      UpdateRefsRewritesRefsFields(fields[1..]);
      RewriteAllAppend(RefsField(fields[0]), RefsFields(fields[1..]));
    }
  }

  lemma {:induction false} UpdateRefsRewritesRefsField(field: Field)
    ensures RefsField(UpdateRefsField(field)) == RewriteAll(RefsField(field))
    decreases field, 0
  {
    if field.0 != "$ref" {
      UpdateRefsRewritesRefs(field.1);
    }
  }

  /** After `updateRefs`, every string `$ref` points into `#/components/schemas/`. */
  lemma RefsAfterUpdateAreLocal(j: Json)
    ensures forall i :: 0 <= i < |Refs(UpdateRefs(j))| ==> Strings.StartsWith(Refs(UpdateRefs(j))[i], SchemasRefPrefix)
  {
    UpdateRefsRewritesRefs(j);
    forall i | 0 <= i < |Refs(UpdateRefs(j))| ensures Strings.StartsWith(Refs(UpdateRefs(j))[i], SchemasRefPrefix) {
      RewriteAllAt(Refs(j), i);
    }
  }

  // ---------------------------------------------------------------------------------------
  // Operations and path items
  // ---------------------------------------------------------------------------------------

  const AllNamespacesMarker := "ForAllNamespaces"

  /**
   * `operationId?.includes('ForAllNamespaces')`: `null` short-circuits to `undefined`, a
   * string tests for the substring, an array for an element equal to the string, and any
   * other value has no `includes` to call.
   */
  function IncludesMarker(operationId: Json): (r: Result<bool, JsError>)
    ensures r.Failure? <==> operationId.JBool? || operationId.JNum? || operationId.JObj?
    ensures r == Success(true) <==>
      (operationId.JStr? && Strings.Contains(operationId.s, AllNamespacesMarker))
      || (operationId.JArr? && JStr(AllNamespacesMarker) in operationId.items)
  {
    match operationId
    case JNull => Success(false)
    case JStr(s) => Success(Strings.Contains(s, AllNamespacesMarker))
    case JArr(items) => Success(JStr(AllNamespacesMarker) in items)
    case _ => Failure(NotAFunction)
  }

  /**
   * The skip test of the method loop: an object with an `operationId` that includes the
   * marker. Arrays have no `operationId` key and primitives are not objects.
   */
  function IsAllNamespacesOperation(operation: Json): Result<bool, JsError> {
    if operation.JObj? then
      match Get(operation.fields, "operationId")
      case None => Success(false)
      case Some(operationId) => IncludesMarker(operationId)
    else Success(false)
  }

  /**
   * `x.parameters = filterNamespaceParameters(x.parameters)` when `x` is an object whose
   * `parameters` is an array; anything else is left as it is.
   */
  function FilterParametersField(j: Json): (r: Result<Json, JsError>)
    ensures r.Success? && !j.JObj? ==> r.value == j
    ensures r.Success? && j.JObj? ==> r.value.JObj? && KeyList(r.value.fields) == KeyList(j.fields)
    ensures r.Success? && j.JObj? ==> forall k :: k != "parameters" ==> Get(r.value.fields, k) == Get(j.fields, k)
    ensures r.Failure? ==> r.error == InOnPrimitive
  {
    if j.JObj? then
      match Get(j.fields, "parameters")
      case Some(JArr(params)) =>
        (match FilterNamespaceParameters(params)
         case Failure(e) => Failure(e)
         case Success(kept) =>
           var fields := Put(j.fields, "parameters", JArr(kept));
           assert forall k :: k != "parameters" ==> Get(fields, k) == Get(j.fields, k) by {
             forall k | k != "parameters" ensures Get(fields, k) == Get(j.fields, k) {
               PutOther(j.fields, "parameters", JArr(kept), k);
             }
           }
           Success(JObj(fields)))
      case _ => Success(j)
    else Success(j)
  }

  /**
   * One entry of a path item: `None` when it is a ForAllNamespaces operation and is left
   * out, otherwise the entry with its parameters filtered and its references rewritten.
   */
  function ProcessOperation(operation: Json): Result<Option<Json>, JsError> {
    match IsAllNamespacesOperation(operation)
    case Failure(e) => Failure(e)
    case Success(skip) =>
      if skip then Success(None)
      else
        match FilterParametersField(operation)
        case Failure(e) => Failure(e)
        case Success(filtered) => Success(Some(UpdateRefs(filtered)))
  }

  /** The `newPathItem[method] = operation` assignments for a path item's entries, in order. */
  function OperationPairs(entries: seq<Field>): Result<seq<Field>, JsError> {
    if |entries| == 0 then Success([])
    else
      match OperationPairs(entries[..|entries| - 1])
      case Failure(e) => Failure(e)
      case Success(pairs) =>
        var (verb, operation) := entries[|entries| - 1];
        match ProcessOperation(operation)
        case Failure(e) => Failure(e)
        case Success(kept) =>
          if kept.Some? then Success(pairs + [(verb, kept.value)]) else Success(pairs)
  }

  /** `newPathItem` for a truthy path item, after its own `parameters` are filtered. */
  function ProcessedPathItem(pathItem: Json): (r: Result<seq<Field>, JsError>)
    requires Truthy(pathItem)
    ensures r.Success? ==> DistinctKeys(r.value)
  {
    match FilterParametersField(pathItem)
    case Failure(e) => Failure(e)
    case Success(item) =>
      match OperationPairs(Entries(item))
      case Failure(e) => Failure(e)
      case Success(pairs) =>
        PutAllDistinct(pairs);
        Success(PutAll(pairs))
  }

  /** Once processing a prefix of the entries has failed, processing all of them fails the same way. */
  lemma {:induction false} OperationPairsFailurePersists(entries: seq<Field>, n: nat)
    requires n <= |entries| && OperationPairs(entries[..n]).Failure?
    ensures OperationPairs(entries) == OperationPairs(entries[..n])
    decreases |entries| - n
  {
    if n < |entries| {
      assert entries[..n + 1][..n] == entries[..n];
      OperationPairsFailurePersists(entries, n + 1);
    } else {
      assert entries[..n] == entries;
    }
  }

  /** Processing one more entry extends the assignments by that entry's outcome. */
  lemma OperationPairsNext(entries: seq<Field>, i: nat, pairs: seq<Field>)
    requires i < |entries| && OperationPairs(entries[..i]) == Success(pairs)
    ensures OperationPairs(entries[..i + 1]) ==
      match ProcessOperation(entries[i].1)
      case Failure(e) => Failure(e)
      case Success(kept) => Success(if kept.Some? then pairs + [(entries[i].0, kept.value)] else pairs)
  {
    assert entries[..i + 1][..i] == entries[..i];
  }

  /**
   * The loop of `processOpenAPISpec` over one path item: filter the item's own parameters,
   * then visit each key, skipping ForAllNamespaces operations and assigning the rest into
   * the new path item.
   */
  method ProcessPathItem(pathItem: Json) returns (r: Result<seq<Field>, JsError>)
    requires Truthy(pathItem)
    ensures r == ProcessedPathItem(pathItem)
  {
    var item := pathItem;
    var filtered := FilterParametersField(item);
    if filtered.Failure? {
      return Failure(filtered.error);
    }
    item := filtered.value;
    var entries := Entries(item);
    var newPathItem: seq<Field> := [];
    ghost var pairs: seq<Field> := [];
    var i := 0;
    while i < |entries|
      invariant 0 <= i <= |entries|
      invariant OperationPairs(entries[..i]) == Success(pairs)
      invariant newPathItem == PutAll(pairs)
    {
      var (verb, operation) := entries[i];
      OperationPairsNext(entries, i, pairs);
      var skip := IsAllNamespacesOperation(operation);
      if skip.Failure? {
        OperationPairsFailurePersists(entries, i + 1);
        return Failure(skip.error);
      }
      if !skip.value {
        var op := FilterParametersField(operation);
        if op.Failure? {
          OperationPairsFailurePersists(entries, i + 1);
          return Failure(op.error);
        }
        var updated := RewriteRefs(op.value);
        newPathItem := Put(newPathItem, verb, updated);
        assert (pairs + [(verb, updated)])[..|pairs|] == pairs;
        pairs := pairs + [(verb, updated)];
      }
      i := i + 1;
    }
    assert entries[..i] == entries;
    return Success(newPathItem);
  }

  // ---------------------------------------------------------------------------------------
  // processOpenAPISpec
  // ---------------------------------------------------------------------------------------

  /** The `newPaths[newPathKey] = newPathItem` assignments, falsy path items skipped. */
  function PathPairs(entries: seq<Field>): Result<seq<Field>, JsError> {
    if |entries| == 0 then Success([])
    else
      match PathPairs(entries[..|entries| - 1])
      case Failure(e) => Failure(e)
      case Success(pairs) =>
        var (path, pathItem) := entries[|entries| - 1];
        if !Truthy(pathItem) then Success(pairs)
        else
          match ProcessedPathItem(pathItem)
          case Failure(e) => Failure(e)
          case Success(newPathItem) => Success(pairs + [(StripNamespacePrefix(path), JObj(newPathItem))])
  }

  /** The `newSchemas[newKey] = schemaObject` assignments. */
  function SchemaPairs(entries: seq<Field>): (r: seq<Field>)
    ensures |r| == |entries|
    ensures forall i :: 0 <= i < |r| ==> r[i] == (SchemaNames.SimplifySchemaName(entries[i].0), UpdateRefs(entries[i].1))
  {
    if |entries| == 0 then []
    else
      var (schemaKey, schemaObject) := entries[|entries| - 1];
      SchemaPairs(entries[..|entries| - 1]) + [(SchemaNames.SimplifySchemaName(schemaKey), UpdateRefs(schemaObject))]
  }

  /**
   * What `processOpenAPISpec` returns, or the TypeError it throws: `spec.paths` rebuilt
   * from its path items, `spec.components.schemas` rebuilt under simplified names, and every
   * other key of `spec` and of `spec.components` kept in place.
   */
  function ProcessedSpec(spec: Json): (r: Result<Json, JsError>)
    ensures r.Success? ==> spec.JObj? && r.value.JObj? && KeyList(r.value.fields) == KeyList(spec.fields)
    ensures spec.JNull? ==> r == Failure(ReadOfNullish)
  {
    if spec.JNull? then Failure(ReadOfNullish)
    else if !spec.JObj? then Failure(EntriesOfNullish)
    else
      match Get(spec.fields, "paths")
      case None => Failure(EntriesOfNullish)
      case Some(paths) =>
        if paths.JNull? then Failure(EntriesOfNullish)
        else
          match PathPairs(Entries(paths))
          case Failure(e) => Failure(e)
          case Success(pathPairs) =>
            var withPaths := Put(spec.fields, "paths", JObj(PutAll(pathPairs)));
            match Get(withPaths, "components")
            case None => Failure(ReadOfNullish)
            case Some(components) =>
              if components.JNull? then Failure(ReadOfNullish)
              else if !components.JObj? then Failure(EntriesOfNullish)
              else
                match Get(components.fields, "schemas")
                case None => Failure(EntriesOfNullish)
                case Some(schemas) =>
                  if schemas.JNull? then Failure(EntriesOfNullish)
                  else
                    var newSchemas := PutAll(SchemaPairs(Entries(schemas)));
                    Success(JObj(Put(withPaths, "components", JObj(Put(components.fields, "schemas", JObj(newSchemas))))))
  }

  lemma {:induction false} PathPairsFailurePersists(entries: seq<Field>, n: nat)
    requires n <= |entries| && PathPairs(entries[..n]).Failure?
    ensures PathPairs(entries) == PathPairs(entries[..n])
    decreases |entries| - n
  {
    if n < |entries| {
      assert entries[..n + 1][..n] == entries[..n];
      PathPairsFailurePersists(entries, n + 1);
    } else {
      assert entries[..n] == entries;
    }
  }

  lemma PathPairsNext(entries: seq<Field>, i: nat, pairs: seq<Field>)
    requires i < |entries| && PathPairs(entries[..i]) == Success(pairs)
    ensures PathPairs(entries[..i + 1]) ==
      if !Truthy(entries[i].1) then Success(pairs)
      else
        match ProcessedPathItem(entries[i].1)
        case Failure(e) => Failure(e)
        case Success(newPathItem) => Success(pairs + [(StripNamespacePrefix(entries[i].0), JObj(newPathItem))])
  {
    assert entries[..i + 1][..i] == entries[..i];
  }

  /** The first loop of `processOpenAPISpec`: one new path key and path item per truthy entry. */
  method ProcessPaths(entries: seq<Field>) returns (r: Result<seq<Field>, JsError>)
    ensures r.Failure? <==> PathPairs(entries).Failure?
    ensures r.Failure? ==> r.error == PathPairs(entries).error
    ensures r.Success? ==> r.value == PutAll(PathPairs(entries).value)
  {
    var newPaths: seq<Field> := [];
    ghost var pairs: seq<Field> := [];
    var i := 0;
    while i < |entries|
      invariant 0 <= i <= |entries|
      invariant PathPairs(entries[..i]) == Success(pairs)
      invariant newPaths == PutAll(pairs)
    {
      var (path, pathItem) := entries[i];
      PathPairsNext(entries, i, pairs);
      if Truthy(pathItem) {
        var newPathKey := StripNamespacePrefix(path);
        var newPathItem := ProcessPathItem(pathItem);
        if newPathItem.Failure? {
          PathPairsFailurePersists(entries, i + 1);
          return Failure(newPathItem.error);
        }
        newPaths := Put(newPaths, newPathKey, JObj(newPathItem.value));
        assert (pairs + [(newPathKey, JObj(newPathItem.value))])[..|pairs|] == pairs;
        pairs := pairs + [(newPathKey, JObj(newPathItem.value))];
      }
      i := i + 1;
    }
    assert entries[..i] == entries;
    return Success(newPaths);
  }

  /** The second loop: every schema under its simplified key, its references rewritten. */
  method ProcessSchemas(entries: seq<Field>) returns (newSchemas: seq<Field>)
    ensures newSchemas == PutAll(SchemaPairs(entries))
  {
    newSchemas := [];
    var i := 0;
    while i < |entries|
      invariant 0 <= i <= |entries|
      invariant newSchemas == PutAll(SchemaPairs(entries[..i]))
    {
      var (schemaKey, schemaObject) := entries[i];
      var newKey := SchemaNames.SimplifySchemaName(schemaKey);
      var updated := RewriteRefs(schemaObject);
      assert entries[..i + 1][..i] == entries[..i];
      newSchemas := Put(newSchemas, newKey, updated);
      i := i + 1;
    }
    assert entries[..i] == entries;
  }

  /**
   * `processOpenAPISpec(spec)`. The deep copy is the value itself: the model's documents are
   * values, so the caller's `spec` cannot be changed by what happens here.
   */
  method ProcessOpenApiSpec(spec: Json) returns (r: Result<Json, JsError>)
    ensures r == ProcessedSpec(spec)
  {
    var newSpec := spec;
    if newSpec.JNull? {
      return Failure(ReadOfNullish);
    }
    if !newSpec.JObj? {
      return Failure(EntriesOfNullish);
    }
    var paths := Get(newSpec.fields, "paths");
    if paths.None? || paths.value.JNull? {
      return Failure(EntriesOfNullish);
    }
    var newPaths := ProcessPaths(Entries(paths.value));
    if newPaths.Failure? {
      return Failure(newPaths.error);
    }
    newSpec := JObj(Put(newSpec.fields, "paths", JObj(newPaths.value)));
    var components := Get(newSpec.fields, "components");
    if components.None? || components.value.JNull? {
      return Failure(ReadOfNullish);
    }
    if !components.value.JObj? {
      return Failure(EntriesOfNullish);
    }
    var schemas := Get(components.value.fields, "schemas");
    if schemas.None? || schemas.value.JNull? {
      return Failure(EntriesOfNullish);
    }
    var newSchemas := ProcessSchemas(Entries(schemas.value));
    var newComponents := JObj(Put(components.value.fields, "schemas", JObj(newSchemas)));
    newSpec := JObj(Put(newSpec.fields, "components", newComponents));
    return Success(newSpec);
  }

  // ---------------------------------------------------------------------------------------
  // What processOpenAPISpec promises
  // ---------------------------------------------------------------------------------------

  /** A key other than `$ref` holds, after `updateRefs`, its old value with refs rewritten. */
  lemma {:induction false} GetUpdateRefsFields(fields: seq<Field>, key: string)
    requires key != "$ref"
    ensures Get(UpdateRefsFields(fields), key) ==
      match Get(fields, key)
      case None => None
      case Some(v) => Some(UpdateRefs(v))
  {
    if |fields| > 0 {
      GetUpdateRefsFields(fields[1..], key);
    }
  }

  /** Rewriting refs never changes what the ForAllNamespaces test sees in an `operationId`. */
  lemma IncludesMarkerAfterUpdate(operationId: Json)
    ensures IncludesMarker(UpdateRefs(operationId)) == IncludesMarker(operationId)
  {
    if operationId.JArr? {
      var items := operationId.items;
      UpdateRefsItemsAt(items);
      var marker := JStr(AllNamespacesMarker);
      assert forall x :: UpdateRefs(x) == marker <==> x == marker;
      assert marker in UpdateRefsItems(items) <==> marker in items by {
        if marker in items {
          var i :| 0 <= i < |items| && items[i] == marker;
          assert UpdateRefsItems(items)[i] == marker;
        }
        if marker in UpdateRefsItems(items) {
          var i :| 0 <= i < |items| && UpdateRefsItems(items)[i] == marker;
          assert items[i] == marker;
        }
      }
    }
  }

  /** A processed operation answers the ForAllNamespaces test as the original did. */
  lemma ProcessedOperationSameTest(operation: Json)
    requires FilterParametersField(operation).Success?
    ensures IsAllNamespacesOperation(UpdateRefs(FilterParametersField(operation).value))
            == IsAllNamespacesOperation(operation)
  {
    var filtered := FilterParametersField(operation).value;
    if operation.JObj? {
      GetUpdateRefsFields(filtered.fields, "operationId");
      var id := Get(operation.fields, "operationId");
      if id.Some? {
        IncludesMarkerAfterUpdate(id.value);
      }
    }
  }

  /** The entries a path item keeps: those the ForAllNamespaces test passes. */
  function KeptOperations(entries: seq<Field>): seq<Field> {
    if |entries| == 0 then []
    else
      var init := KeptOperations(entries[..|entries| - 1]);
      if IsAllNamespacesOperation(entries[|entries| - 1].1) == Success(false) then init + [entries[|entries| - 1]]
      else init
  }

  /**
   * A processed path item lists exactly the operations the test keeps, in order and under
   * their own keys, each with its parameters filtered and its refs rewritten.
   */
  lemma {:induction false} OperationPairsAreKept(entries: seq<Field>, pairs: seq<Field>)
    requires OperationPairs(entries) == Success(pairs)
    ensures var kept := KeptOperations(entries);
      |pairs| == |kept|
      && forall j :: 0 <= j < |pairs| ==>
           FilterParametersField(kept[j].1).Success?
           && pairs[j] == (kept[j].0, UpdateRefs(FilterParametersField(kept[j].1).value))
  {
    if |entries| > 0 {
      var init := entries[..|entries| - 1];
      var last := entries[|entries| - 1];
      var initPairs := OperationPairs(init).value;
      OperationPairsAreKept(init, initPairs);
    }
  }

  /** Every kept entry is an entry of the path item. */
  lemma {:induction false} KeptAreEntries(entries: seq<Field>)
    ensures forall x :: x in KeptOperations(entries) ==> x in entries
  {
    if |entries| > 0 {
      var init := entries[..|entries| - 1];
      KeptAreEntries(init);
      assert forall x :: x in init ==> x in entries;
    }
  }

  /** Leaving entries out keeps the keys distinct. */
  lemma {:induction false} KeptDistinct(entries: seq<Field>)
    requires DistinctKeys(entries)
    ensures DistinctKeys(KeptOperations(entries))
  {
    if |entries| > 0 {
      var init := entries[..|entries| - 1];
      var last := entries[|entries| - 1];
      assert DistinctKeys(init);
      KeptDistinct(init);
      KeptAreEntries(init);
      var kept := KeptOperations(init);
      forall j | 0 <= j < |kept| ensures kept[j].0 != last.0 {
        assert kept[j] in init;
        var i :| 0 <= i < |init| && init[i] == kept[j];
        assert entries[i] == init[i];
      }
    }
  }

  /**
   * The processed path item itself, for a path item whose keys are distinct (as every
   * object's are): exactly the entries the ForAllNamespaces test keeps, after the item's
   * own `parameters` are filtered, in order and under their own keys, each with its
   * parameters filtered and its refs rewritten.
   */
  lemma ProcessedPathItemKeepsOperations(pathItem: Json)
    requires pathItem.JObj? && DistinctKeys(pathItem.fields)
    requires ProcessedPathItem(pathItem).Success?
    ensures FilterParametersField(pathItem).Success?
    ensures var item := FilterParametersField(pathItem).value;
      var kept := KeptOperations(item.fields);
      var r := ProcessedPathItem(pathItem).value;
      item.JObj? && |r| == |kept|
      && forall j :: 0 <= j < |r| ==>
           FilterParametersField(kept[j].1).Success?
           && r[j] == (kept[j].0, UpdateRefs(FilterParametersField(kept[j].1).value))
  {
    var item := FilterParametersField(pathItem).value;
    assert DistinctKeys(item.fields) by {
      forall i, j | 0 <= i < j < |item.fields| ensures item.fields[i].0 != item.fields[j].0 {
        assert KeyList(item.fields)[i] == pathItem.fields[i].0;
        assert KeyList(item.fields)[j] == pathItem.fields[j].0;
      }
    }
    var pairs := OperationPairs(Entries(item)).value;
    OperationPairsAreKept(item.fields, pairs);
    var kept := KeptOperations(item.fields);
    KeptDistinct(item.fields);
    assert DistinctKeys(pairs) by {
      forall i, j | 0 <= i < j < |pairs| ensures pairs[i].0 != pairs[j].0 {
        assert pairs[i].0 == kept[i].0 && pairs[j].0 == kept[j].0;
      }
    }
    PutAllOfDistinct(pairs);
  }

  /** What `Put` leaves in an object is either the new entry or an old one. */
  lemma PutElements(fields: seq<Field>, key: string, value: Json)
    ensures forall x :: x in Put(fields, key, value) ==> x == (key, value) || x in fields
  {
    if |fields| > 0 && fields[0].0 != key {
      PutElements(fields[1..], key, value);
    }
  }

  /** Every entry of a built object comes from one of the assignments. */
  lemma {:induction false} PutAllElements(pairs: seq<Field>)
    ensures forall x :: x in PutAll(pairs) ==> x in pairs
  {
    if |pairs| > 0 {
      PutAllElements(pairs[..|pairs| - 1]);
      PutElements(PutAll(pairs[..|pairs| - 1]), pairs[|pairs| - 1].0, pairs[|pairs| - 1].1);
    }
  }

  /** No ForAllNamespaces operation survives in a processed path item. */
  lemma ProcessedPathItemHasNoAllNamespaces(pathItem: Json)
    requires Truthy(pathItem) && ProcessedPathItem(pathItem).Success?
    ensures forall x :: x in ProcessedPathItem(pathItem).value ==> IsAllNamespacesOperation(x.1) == Success(false)
  {
    var item := FilterParametersField(pathItem).value;
    var entries := Entries(item);
    var pairs := OperationPairs(entries).value;
    OperationPairsAreKept(entries, pairs);
    PutAllElements(pairs);
    var kept := KeptOperations(entries);
    forall j | 0 <= j < |pairs| ensures IsAllNamespacesOperation(pairs[j].1) == Success(false) {
      KeptAreKept(entries, j);
      ProcessedOperationSameTest(kept[j].1);
    }
  }

  lemma {:induction false} KeptAreKept(entries: seq<Field>, j: nat)
    requires j < |KeptOperations(entries)|
    ensures IsAllNamespacesOperation(KeptOperations(entries)[j].1) == Success(false)
  {
    var init := entries[..|entries| - 1];
    if j < |KeptOperations(init)| {
      KeptAreKept(init, j);
    }
  }

  /** The path entries the first loop does not skip: those with a truthy path item. */
  function TruthyEntries(entries: seq<Field>): (r: seq<Field>)
    ensures forall j :: 0 <= j < |r| ==> Truthy(r[j].1)
  {
    if |entries| == 0 then []
    else
      var init := TruthyEntries(entries[..|entries| - 1]);
      if Truthy(entries[|entries| - 1].1) then init + [entries[|entries| - 1]] else init
  }

  /** Processing the paths fails exactly when one of the truthy path items fails. */
  lemma {:induction false} PathPairsFailIff(entries: seq<Field>)
    ensures PathPairs(entries).Failure? <==>
      exists j :: 0 <= j < |TruthyEntries(entries)| && ProcessedPathItem(TruthyEntries(entries)[j].1).Failure?
  {
    if |entries| > 0 {
      var init := entries[..|entries| - 1];
      var last := entries[|entries| - 1];
      PathPairsFailIff(init);
      var initItems := TruthyEntries(init);
      var items := TruthyEntries(entries);
      assert forall j :: 0 <= j < |initItems| ==> items[j] == initItems[j];
      if PathPairs(init).Failure? {
        var j :| 0 <= j < |initItems| && ProcessedPathItem(initItems[j].1).Failure?;
        assert ProcessedPathItem(items[j].1).Failure?;
      } else if Truthy(last.1) && ProcessedPathItem(last.1).Failure? {
        assert items[|items| - 1] == last;
      } else if Truthy(last.1) {
        assert items == initItems + [last];
      } else {
        assert items == initItems;
      }
    }
  }

  /**
   * The new paths are assigned once per truthy path item, in order: its key with the
   * namespaced prefix removed, and the item processed.
   */
  lemma {:induction false} PathPairsAreTruthyEntries(entries: seq<Field>, pairs: seq<Field>)
    requires PathPairs(entries) == Success(pairs)
    ensures var items := TruthyEntries(entries);
      |pairs| == |items|
      && forall j :: 0 <= j < |items| ==>
           ProcessedPathItem(items[j].1).Success?
           && pairs[j] == (StripNamespacePrefix(items[j].0), JObj(ProcessedPathItem(items[j].1).value))
  {
    if |entries| > 0 {
      var init := entries[..|entries| - 1];
      PathPairsAreTruthyEntries(init, PathPairs(init).value);
      var initItems := TruthyEntries(init);
      var items := TruthyEntries(entries);
      assert forall j :: 0 <= j < |initItems| ==> items[j] == initItems[j];
    }
  }

  /** A key is among the new schemas exactly when some schema name simplifies to it. */
  lemma SchemaKeyPresence(entries: seq<Field>, key: string)
    ensures Get(PutAll(SchemaPairs(entries)), key).None?
            <==> forall i :: 0 <= i < |entries| ==> SchemaNames.SimplifySchemaName(entries[i].0) != key
  {
    var pairs := SchemaPairs(entries);
    GetPutAll(pairs, key);
    if Get(PutAll(pairs), key).None? {
      forall i | 0 <= i < |entries| ensures SchemaNames.SimplifySchemaName(entries[i].0) != key {
        assert pairs[i].0 != key;
      }
    } else {
      var i := LastValueIsLast(pairs, key);
      assert pairs[i].0 == key;
    }
  }

  /**
   * Under each key of the new schemas sits the last schema whose name simplifies to that
   * key, with its refs rewritten; `i` is that schema's position.
   */
  lemma SchemaLastWins(entries: seq<Field>, key: string) returns (i: nat)
    requires Get(PutAll(SchemaPairs(entries)), key).Some?
    ensures i < |entries| && SchemaNames.SimplifySchemaName(entries[i].0) == key
    ensures Get(PutAll(SchemaPairs(entries)), key).value == UpdateRefs(entries[i].1)
    ensures forall j :: i < j < |entries| ==> SchemaNames.SimplifySchemaName(entries[j].0) != key
  {
    var pairs := SchemaPairs(entries);
    GetPutAll(pairs, key);
    i := LastValueIsLast(pairs, key);
    assert pairs[i] == (SchemaNames.SimplifySchemaName(entries[i].0), UpdateRefs(entries[i].1));
    forall j | i < j < |entries| ensures SchemaNames.SimplifySchemaName(entries[j].0) != key {
      assert pairs[j].0 == SchemaNames.SimplifySchemaName(entries[j].0);
    }
  }

  /** A key is among the new paths exactly when some truthy path item's key maps to it. */
  lemma PathKeyPresence(entries: seq<Field>, pairs: seq<Field>, key: string)
    requires PathPairs(entries) == Success(pairs)
    ensures var items := TruthyEntries(entries);
      Get(PutAll(pairs), key).None? <==> forall i :: 0 <= i < |items| ==> StripNamespacePrefix(items[i].0) != key
  {
    PathPairsAreTruthyEntries(entries, pairs);
    GetPutAll(pairs, key);
    var items := TruthyEntries(entries);
    assert forall i :: 0 <= i < |items| ==> pairs[i].0 == StripNamespacePrefix(items[i].0);
  }

  /** Under each new path key sits the last truthy path item that maps to it, processed; `i` is its position. */
  lemma PathLastWins(entries: seq<Field>, pairs: seq<Field>, key: string) returns (i: nat)
    requires PathPairs(entries) == Success(pairs)
    requires Get(PutAll(pairs), key).Some?
    ensures var items := TruthyEntries(entries);
      i < |items| && StripNamespacePrefix(items[i].0) == key
      && ProcessedPathItem(items[i].1).Success?
      && Get(PutAll(pairs), key).value == JObj(ProcessedPathItem(items[i].1).value)
      && forall j :: i < j < |items| ==> StripNamespacePrefix(items[j].0) != key
  {
    PathPairsAreTruthyEntries(entries, pairs);
    GetPutAll(pairs, key);
    var items := TruthyEntries(entries);
    i := LastValueIsLast(pairs, key);
    assert pairs[i].0 == StripNamespacePrefix(items[i].0);
    forall j | i < j < |items| ensures StripNamespacePrefix(items[j].0) != key {
      assert pairs[j].0 == StripNamespacePrefix(items[j].0);
    }
  }

  /**
   * A processed document keeps its keys in their order, and every key other than `paths`
   * and `components` keeps its value; likewise inside `components` for every key other
   * than `schemas`.
   */
  lemma ProcessedSpecKeepsOtherKeys(spec: Json)
    requires ProcessedSpec(spec).Success?
    ensures var out := ProcessedSpec(spec).value;
      spec.JObj? && out.JObj? && KeyList(out.fields) == KeyList(spec.fields)
      && (forall k :: k != "paths" && k != "components" ==> Get(out.fields, k) == Get(spec.fields, k))
      && Get(spec.fields, "components").Some? && Get(spec.fields, "components").value.JObj?
      && var components := Get(spec.fields, "components").value;
         Get(out.fields, "components").Some? && Get(out.fields, "components").value.JObj?
         && var newComponents := Get(out.fields, "components").value;
         KeyList(newComponents.fields) == KeyList(components.fields)
         && forall k :: k != "schemas" ==> Get(newComponents.fields, k) == Get(components.fields, k)
  {
    var paths := Get(spec.fields, "paths").value;
    var pathPairs := PathPairs(Entries(paths)).value;
    var withPaths := Put(spec.fields, "paths", JObj(PutAll(pathPairs)));
    PutOther(spec.fields, "paths", JObj(PutAll(pathPairs)), "components");
    var components := Get(withPaths, "components").value;
    var schemas := Get(components.fields, "schemas").value;
    var newComponents := Put(components.fields, "schemas", JObj(PutAll(SchemaPairs(Entries(schemas)))));
    forall k | k != "paths" && k != "components"
      ensures Get(ProcessedSpec(spec).value.fields, k) == Get(spec.fields, k)
    {
      PutOther(spec.fields, "paths", JObj(PutAll(pathPairs)), k);
      PutOther(withPaths, "components", JObj(newComponents), k);
    }
    forall k | k != "schemas" ensures Get(newComponents, k) == Get(components.fields, k) {
      PutOther(components.fields, "schemas", JObj(PutAll(SchemaPairs(Entries(schemas)))), k);
    }
  }

  // ---------------------------------------------------------------------------------------
  // Documents on which processOpenAPISpec throws nothing
  // ---------------------------------------------------------------------------------------

  /** A `parameters` array, if there is one, holds no primitive. */
  predicate ParametersOk(j: Json) {
    j.JObj? && Get(j.fields, "parameters").Some? && Get(j.fields, "parameters").value.JArr? ==>
      forall p :: p in Get(j.fields, "parameters").value.items ==> !IsPrimitive(p)
  }

  /** An entry of a path item on which the skip test and the filter throw nothing. */
  predicate WellTypedOperation(operation: Json) {
    ParametersOk(operation)
    && (operation.JObj? && Get(operation.fields, "operationId").Some? ==>
          var operationId := Get(operation.fields, "operationId").value;
          operationId.JNull? || operationId.JStr? || operationId.JArr?)
  }

  predicate WellTypedPathItem(pathItem: Json) {
    !pathItem.JNull? && ParametersOk(pathItem)
    && forall x :: x in Entries(pathItem) ==> WellTypedOperation(x.1)
  }

  /**
   * An OpenAPI document as the rewriter expects one: `paths` and `components.schemas` are
   * present and not null, `components` is an object, parameters are objects or arrays, and
   * every `operationId` is a string, an array or null.
   */
  predicate WellTypedDocument(spec: Json) {
    spec.JObj?
    && Get(spec.fields, "paths").Some? && !Get(spec.fields, "paths").value.JNull?
    && (forall x :: x in Entries(Get(spec.fields, "paths").value) && Truthy(x.1) ==> WellTypedPathItem(x.1))
    && Get(spec.fields, "components").Some? && Get(spec.fields, "components").value.JObj?
    && var components := Get(spec.fields, "components").value;
       Get(components.fields, "schemas").Some? && !Get(components.fields, "schemas").value.JNull?
  }

  lemma FilterSucceeds(j: Json)
    requires ParametersOk(j)
    ensures FilterParametersField(j).Success?
  {
    if j.JObj? && Get(j.fields, "parameters").Some? && Get(j.fields, "parameters").value.JArr? {
      var params := Get(j.fields, "parameters").value.items;
      assert forall k :: 0 <= k < |params| ==> params[k] in params;
    }
  }

  lemma {:induction false} OperationPairsSucceed(entries: seq<Field>)
    requires forall x :: x in entries ==> WellTypedOperation(x.1)
    ensures OperationPairs(entries).Success?
  {
    if |entries| > 0 {
      var init := entries[..|entries| - 1];
      assert forall x :: x in init ==> x in entries;
      OperationPairsSucceed(init);
      var last := entries[|entries| - 1];
      assert last in entries;
      FilterSucceeds(last.1);
    }
  }

  lemma PathItemSucceeds(pathItem: Json)
    requires Truthy(pathItem) && WellTypedPathItem(pathItem)
    ensures ProcessedPathItem(pathItem).Success?
  {
    FilterSucceeds(pathItem);
    var item := FilterParametersField(pathItem).value;
    forall x | x in Entries(item) ensures WellTypedOperation(x.1) {
      if pathItem.JObj? && Get(pathItem.fields, "parameters").Some? && Get(pathItem.fields, "parameters").value.JArr? {
        var kept := FilterNamespaceParameters(Get(pathItem.fields, "parameters").value.items).value;
        PutElements(pathItem.fields, "parameters", JArr(kept));
      }
    }
    OperationPairsSucceed(Entries(item));
  }

  lemma {:induction false} PathPairsSucceed(entries: seq<Field>)
    requires forall x :: x in entries && Truthy(x.1) ==> WellTypedPathItem(x.1)
    ensures PathPairs(entries).Success?
  {
    if |entries| > 0 {
      var init := entries[..|entries| - 1];
      assert forall x :: x in init ==> x in entries;
      PathPairsSucceed(init);
      var last := entries[|entries| - 1];
      assert last in entries;
      if Truthy(last.1) {
        PathItemSucceeds(last.1);
      }
    }
  }

  /** A well-typed document is processed without a TypeError. */
  lemma WellTypedDocumentSucceeds(spec: Json)
    requires WellTypedDocument(spec)
    ensures ProcessedSpec(spec).Success?
  {
    var paths := Get(spec.fields, "paths").value;
    PathPairsSucceed(Entries(paths));
    var pathPairs := PathPairs(Entries(paths)).value;
    PutOther(spec.fields, "paths", JObj(PutAll(pathPairs)), "components");
  }
}
