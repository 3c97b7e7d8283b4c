/** Decoding Kubernetes API paths, from pkg/kubernetes/accesscontrol_round_tripper.go. */
module AccessPath {
  import opened Options
  import opened Strings

  datatype GVR = GVR(group: string, version: string, resource: string)

  function Parts(path: string): (parts: seq<string>)
    ensures parts != []
  {
    Split(Trim(path, '/'), '/')
  }

  function ParseURLToGVR(path: string): Option<GVR>
  {
    var parts := Parts(path);
    if parts[0] == "api" then
      if |parts| < 3 then None
      else if parts[2] == "namespaces" && |parts| > 4 then Some(GVR("", parts[1], parts[4]))
      else Some(GVR("", parts[1], parts[2]))
    else if parts[0] == "apis" then
      if |parts| < 4 then None
      else if parts[3] == "namespaces" && |parts| > 5 then Some(GVR(parts[1], parts[2], parts[5]))
      else Some(GVR(parts[1], parts[2], parts[3]))
    else None
  }

  function FindResourceTypeIndex(parts: seq<string>): int
  {
    if |parts| == 0 then -1
    else if parts[0] == "api" then
      if |parts| < 3 then -1 else if parts[2] == "namespaces" && |parts| > 4 then 4 else 2
    else if parts[0] == "apis" then
      if |parts| < 4 then -1 else if parts[3] == "namespaces" && |parts| > 5 then 5 else 3
    else -1
  }

  /** The segment after the first "namespaces" that has one after it. */
  function NamespaceIn(parts: seq<string>): string
  {
    if |parts| < 2 then "" else if parts[0] == "namespaces" then parts[1] else NamespaceIn(parts[1..])
  }

  function NameIn(parts: seq<string>): string
  {
    var i := FindResourceTypeIndex(parts);
    if 0 <= i && i + 1 < |parts| then parts[i + 1] else ""
  }

  method ParseURLToNamespaceAndName(path: string) returns (namespace: string, name: string)
    ensures namespace == NamespaceIn(Parts(path)) && name == NameIn(Parts(path))
  {
    namespace, name := "", "";
    var parts := Parts(path);
    var i := 0;
    assert parts[0..] == parts;
    while i < |parts|
      invariant 0 <= i <= |parts|
      invariant namespace == "" && NamespaceIn(parts[i..]) == NamespaceIn(parts)
    {
      if parts[i] == "namespaces" && i + 1 < |parts| {
        namespace := parts[i + 1];
        break;
      }
      i := i + 1;
    }
    var resourceIdx := FindResourceTypeIndex(parts);
    if resourceIdx >= 0 && resourceIdx + 1 < |parts| {
      name := parts[resourceIdx + 1];
    }
  }

  predicate IsCollectionPath(path: string)
  {
    var i := FindResourceTypeIndex(Parts(path));
    i >= 0 && i == |Parts(path)| - 1
  }

  function ToLower(s: string): string
  {
    seq(|s|, i requires 0 <= i < |s| =>
      if 'A' <= s[i] <= 'Z' then (s[i] as int - 'A' as int + 'a' as int) as char else s[i])
  }

  function HttpMethodToVerb(httpMethod: string, path: string): string
  {
    if httpMethod == "GET" then if IsCollectionPath(path) then "list" else "get"
    else if httpMethod == "POST" then "create"
    else if httpMethod == "PUT" then "update"
    else if httpMethod == "PATCH" then "patch"
    else if httpMethod == "DELETE" then if IsCollectionPath(path) then "deletecollection" else "delete"
    else ToLower(httpMethod)
  }

  function StripAPIPathPrefix(path: string, prefix: string): string
  {
    var p := TrimSuffix(prefix, "/");
    if p == "" then path
    else if path == p then "/"
    else if HasPrefix(path, p + "/") then path[|p|..]
    else path
  }

  /** The independent decoders agree on every path. */
  lemma ParsersAgree(path: string)
    ensures var parts := Parts(path);
            var i, gvr := FindResourceTypeIndex(parts), ParseURLToGVR(path);
            && (gvr.Some? <==> i >= 0)
            && (gvr.Some? ==> i < |parts| && gvr.value.resource == parts[i])
            && (gvr.None? ==> NameIn(parts) == "" && !IsCollectionPath(path))
            && (IsCollectionPath(path) ==> NameIn(parts) == "")
  {
  }

  /** Which paths name a resource, by their first segment and their length, and what group and
      version they name. */
  lemma ParsedExactly(path: string)
    ensures var parts, gvr := Parts(path), ParseURLToGVR(path);
            && (gvr.Some? <==> (parts[0] == "api" && |parts| >= 3) || (parts[0] == "apis" && |parts| >= 4))
            && (gvr.Some? && parts[0] == "api" ==> gvr.value.group == "" && gvr.value.version == parts[1])
            && (gvr.Some? && parts[0] == "apis" ==> gvr.value.group == parts[1] && gvr.value.version == parts[2])
  {
  }

  /** A path outside the host's own is left alone. */
  lemma StripElsewhere(path: string, prefix: string)
    requires var p := TrimSuffix(prefix, "/"); p == "" || !(path == p || HasPrefix(path, p + "/"))
    ensures StripAPIPathPrefix(path, prefix) == path
  {
  }

  /** Stripping the host's path from a request path undoes putting it there. */
  lemma StripUndoesPrefix(path: string, prefix: string)
    requires HasPrefix(path, "/")
    ensures StripAPIPathPrefix(TrimSuffix(prefix, "/") + path, prefix) == path
  {
    var p := TrimSuffix(prefix, "/");
    var full := p + path;
    if p != "" {
      assert full[|p|..] == path;
      assert full[..|p| + 1] == p + "/";
    }
  }

  /** Whether or not the host's path is written with a slash at its end, and for its root too. */
  lemma StripUndoesHost(path: string, base: string)
    requires HasPrefix(path, "/") && !HasSuffix(base, "/")
    ensures StripAPIPathPrefix(base + path, base) == path == StripAPIPathPrefix(base + path, base + "/")
    ensures base != "" ==> StripAPIPathPrefix(base, base) == "/" == StripAPIPathPrefix(base, base + "/")
  {
    TrimSuffixIs(base, "/");
    assert TrimSuffix(base, "/") == base;
    StripUndoesPrefix(path, base);
    StripUndoesPrefix(path, base + "/");
  }

  // Building a path, as the table listing of pkg/kubernetes/resources.go does, with an
  // object and a subresource after it. Absent pieces are empty.

  datatype Target = Target(gvr: GVR, namespace: string, name: string, subresource: string)

  function Opt(s: string): seq<string>
  {
    if s == "" then [] else [s]
  }

  function Segments(t: Target): seq<string>
  {
    (if t.gvr.group == "" then ["api"] else ["apis", t.gvr.group])
    + [t.gvr.version]
    + (if t.namespace == "" then [] else ["namespaces", t.namespace])
    + [t.gvr.resource] + Opt(t.name) + Opt(t.subresource)
  }

  function Build(t: Target): string
  {
    "/" + Join(Segments(t), '/')
  }

  ghost predicate WellFormed(t: Target)
  {
    && '/' !in t.gvr.group && '/' !in t.gvr.version && '/' !in t.gvr.resource
    && '/' !in t.namespace && '/' !in t.name && '/' !in t.subresource
    && t.gvr.version != "" && t.gvr.resource != ""
    && (t.subresource != "" ==> t.name != "")
  }

  /** No segment in front of the object is mistaken for the "namespaces" keyword. */
  predicate Unambiguous(t: Target)
  {
    if t.namespace == "" then
      && t.gvr.group != "namespaces" && t.gvr.version != "namespaces"
      && (t.gvr.resource == "namespaces" ==> t.name == "")
      && (t.name == "namespaces" ==> t.subresource == "")
    else
      && (t.gvr.group == "namespaces" ==> t.gvr.version == t.namespace)
      && (t.gvr.group != "namespaces" && t.gvr.version == "namespaces" ==> t.namespace == "namespaces")
  }

  lemma BuiltParts(t: Target)
    requires WellFormed(t)
    ensures Parts(Build(t)) == Segments(t)
  {
    var segs := Segments(t);
    TrimRooted(segs, '/');
    SplitJoin(segs, '/');
  }

  lemma NamespaceSkips(x: string, rest: seq<string>)
    ensures NamespaceIn([x] + rest) == if rest == [] then "" else if x == "namespaces" then rest[0] else NamespaceIn(rest)
  {
    assert ([x] + rest)[1..] == rest;
  }

  /** From the resource on. */
  function Tail(t: Target): seq<string>
  {
    [t.gvr.resource] + Opt(t.name) + Opt(t.subresource)
  }

  function Scoped(t: Target): seq<string>
  {
    (if t.namespace == "" then [] else ["namespaces", t.namespace]) + Tail(t)
  }

  lemma NamespaceInTail(t: Target)
    requires WellFormed(t)
    ensures NamespaceIn(Tail(t)) == if t.gvr.resource == "namespaces" then t.name
                                    else if t.name == "namespaces" then t.subresource else ""
    ensures if t.namespace == "" then Scoped(t) == Tail(t)
            else NamespaceIn(Scoped(t)) == t.namespace && Scoped(t)[0] == "namespaces"
  {
    assert Tail(t) == [t.gvr.resource] + (Opt(t.name) + Opt(t.subresource));
    NamespaceSkips(t.gvr.resource, Opt(t.name) + Opt(t.subresource));
    if t.name != "" {
      assert Opt(t.name) + Opt(t.subresource) == [t.name] + Opt(t.subresource);
      NamespaceSkips(t.name, Opt(t.subresource));
    }
  }

  lemma NamespaceSkipsTwo(x: string, y: string, rest: seq<string>)
    requires rest != []
    ensures NamespaceIn([x, y] + rest) ==
            if x == "namespaces" then y else if y == "namespaces" then rest[0] else NamespaceIn(rest)
  {
    assert [x, y] + rest == [x] + ([y] + rest);
    NamespaceSkips(x, [y] + rest);
    NamespaceSkips(y, rest);
  }

  lemma NamespaceSkipsThree(x: string, y: string, z: string, rest: seq<string>)
    requires rest != []
    ensures NamespaceIn([x, y, z] + rest) ==
            if x == "namespaces" then y else if y == "namespaces" then z
            else if z == "namespaces" then rest[0] else NamespaceIn(rest)
  {
    assert [x, y, z] + rest == [x] + ([y, z] + rest);
    NamespaceSkips(x, [y, z] + rest);
    NamespaceSkipsTwo(y, z, rest);
  }

  lemma NamespaceInBuilt(t: Target)
    requires WellFormed(t)
    ensures NamespaceIn(Segments(t)) == if t.gvr.group == "namespaces" then t.gvr.version
                                        else if t.gvr.version == "namespaces" then Scoped(t)[0]
                                        else NamespaceIn(Scoped(t))
  {
    if t.gvr.group == "" {
      assert Segments(t) == ["api", t.gvr.version] + Scoped(t);
      NamespaceSkipsTwo("api", t.gvr.version, Scoped(t));
    } else {
      assert Segments(t) == ["apis", t.gvr.group, t.gvr.version] + Scoped(t);
      NamespaceSkipsThree("apis", t.gvr.group, t.gvr.version, Scoped(t));
    }
  }

  /** Where the resource sits in a built path, and what is taken for it. */
  lemma ResourceInBuilt(t: Target)
    requires WellFormed(t)
    ensures var segs := Segments(t);
            var at := |segs| - |Tail(t)|;
            var found := FindResourceTypeIndex(segs);
            && segs[at..] == Tail(t)
            && (if t.namespace == "" && t.gvr.resource == "namespaces" && t.subresource != "" then found == at + 2
                else found == at)
  {
    var segs := Segments(t);
    assert segs[|segs| - |Tail(t)|..] == Tail(t);
  }

  lemma GVRInBuilt(t: Target)
    requires WellFormed(t)
    ensures var r := ParseURLToGVR(Build(t));
            && r.Some? && r.value.group == t.gvr.group && r.value.version == t.gvr.version
            && (!(t.namespace == "" && t.gvr.resource == "namespaces" && t.subresource != "") ==>
                  r == Some(t.gvr))
  {
    BuiltParts(t);
    ResourceInBuilt(t);
    ParsersAgree(Build(t));
  }

  lemma NameInBuilt(t: Target)
    requires WellFormed(t)
    ensures NameIn(Segments(t)) ==
            if t.namespace == "" && t.gvr.resource == "namespaces" && t.subresource != "" then "" else t.name
  {
    ResourceInBuilt(t);
    var segs := Segments(t);
    var at := |segs| - |Tail(t)|;
    assert |Tail(t)| > 1 ==> segs[at + 1] == segs[at..][1];
  }

  /** Parsing a built path gives back what it was built from exactly when the path is
      unambiguous. */
  lemma RoundTrip(t: Target)
    requires WellFormed(t)
    ensures && ParseURLToGVR(Build(t)) == Some(t.gvr)
            && NamespaceIn(Parts(Build(t))) == t.namespace
            && NameIn(Parts(Build(t))) == t.name
            <==> Unambiguous(t)
  {
    BuiltParts(t);
    NamespaceInTail(t);
    NamespaceInBuilt(t);
    GVRInBuilt(t);
    NameInBuilt(t);
    ResourceInBuilt(t);
  }

  /** A subresource of a namespace: what follows the namespace's name is taken for a resource. */
  predicate NamespaceSubresource(t: Target)
  {
    t.namespace == "" && t.gvr.resource == "namespaces" && t.subresource != ""
  }

  /** GET lists and DELETE deletes a collection exactly when a built path names no object: so it
      is for every target but the subresources of a namespace. */
  lemma VerbsInBuilt(t: Target)
    requires WellFormed(t)
    ensures HttpMethodToVerb("GET", Build(t)) == (if t.name == "" then "list" else "get") <==> !NamespaceSubresource(t)
    ensures HttpMethodToVerb("DELETE", Build(t)) == (if t.name == "" then "deletecollection" else "delete")
            <==> !NamespaceSubresource(t)
  {
    BuiltParts(t);
    ResourceInBuilt(t);
  }

  /** Kubernetes verbs by HTTP method, for a collection or an object. */
  function Verbs(collection: bool): map<string, string>
  {
    map["GET" := if collection then "list" else "get", "POST" := "create", "PUT" := "update", "PATCH" := "patch",
        "DELETE" := if collection then "deletecollection" else "delete"]
  }

  /** Any other method is its own verb, in lower case. */
  function VerbOf(httpMethod: string, collection: bool): string
  {
    if httpMethod in Verbs(collection) then Verbs(collection)[httpMethod] else ToLower(httpMethod)
  }

  /** The verb of a built path is that of the target for every method exactly when the target is no
      subresource of a namespace. */
  lemma VerbTableExactly(t: Target)
    requires WellFormed(t)
    ensures (forall httpMethod :: HttpMethodToVerb(httpMethod, Build(t)) == VerbOf(httpMethod, t.name == ""))
            <==> !NamespaceSubresource(t)
  {
    VerbsInBuilt(t);
    if NamespaceSubresource(t) {
      assert HttpMethodToVerb("GET", Build(t)) != VerbOf("GET", t.name == "");
    } else {
      forall httpMethod ensures HttpMethodToVerb(httpMethod, Build(t)) == VerbOf(httpMethod, t.name == "") {
        BuiltParts(t);
        ResourceInBuilt(t);
      }
    }
  }

  /** Lower case: no capital is left, and nothing else has changed. */
  lemma LowerCase(s: string, i: nat)
    requires i < |s|
    ensures var r := ToLower(s);
            && |r| == |s| && !('A' <= r[i] <= 'Z')
            && (if 'A' <= s[i] <= 'Z' then r[i] as int - 'a' as int == s[i] as int - 'A' as int else r[i] == s[i])
  {
  }

  /** The resource parsed from a built path is the target's for every target but the subresources
      of a namespace, unless the subresource is called `namespaces` itself. */
  lemma ResourceParsesExactly(t: Target)
    requires WellFormed(t)
    ensures ParseURLToGVR(Build(t)) == Some(if NamespaceSubresource(t) then t.gvr.(resource := t.subresource) else t.gvr)
  {
    BuiltParts(t);
    ResourceInBuilt(t);
    ParsersAgree(Build(t));
    GVRInBuilt(t);
    var segs := Segments(t);
    var at := |segs| - |Tail(t)|;
    assert NamespaceSubresource(t) ==> segs[at + 2] == segs[at..][2] == t.subresource;
  }
}
