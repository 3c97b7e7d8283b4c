/** The access gate of pkg/kubernetes/accesscontrol_round_tripper.go: which requests reach
    the Kubernetes API. The REST mapper and the validators are arbitrary functions. */
module AccessControl {
  import opened Options
  import opened Strings
  import opened AccessPath

  type Bytes = seq<bv8>

  datatype GVK = GVK(group: string, version: string, kind: string)

  datatype Mapped = Kind(gvk: GVK) | NoMatch | MapperError(error: string)

  /** A request body: absent, or a stream that reads to `bytes` or fails to read. */
  datatype Body = NoBody | Stream(bytes: Bytes, readable: bool)

  datatype ValidationRequest = ValidationRequest(
    gvr: GVR, gvk: GVK, httpMethod: string, verb: string,
    namespace: string, resourceName: string, path: string, body: Bytes)

  /** None accepts the request. */
  type Validator = ValidationRequest -> Option<string>

  datatype Gate = Gate(
    denied: Option<seq<GVK>>,
    restMapper: Option<GVR -> Mapped>,
    apiPathPrefix: string,
    validators: seq<Validator>)

  datatype Outcome =
    | Forwarded
    | MapperMissing
    | NoSuchResource(gvr: GVR)
    | MapperFailed(error: string)
    | NotAllowed(gvk: GVK)
    | BodyUnreadable
    | Rejected(error: string)

  /** An entry without a kind denies its whole group and version. */
  predicate Matches(entry: GVK, gvk: GVK)
  {
    entry.group == gvk.group && entry.version == gvk.version && (entry.kind == "" || entry.kind == gvk.kind)
  }

  predicate Denied(g: Gate, gvk: GVK)
  {
    g.denied.Some? && exists i :: 0 <= i < |g.denied.value| && Matches(g.denied.value[i], gvk)
  }

  predicate ReadsBody(httpMethod: string, body: Body)
  {
    body.Stream? && (httpMethod == "POST" || httpMethod == "PUT" || httpMethod == "PATCH")
  }

  function ToValidate(gvr: GVR, gvk: GVK, httpMethod: string, path: string, body: Body): ValidationRequest
  {
    ValidationRequest(gvr, gvk, httpMethod, HttpMethodToVerb(httpMethod, path),
                      NamespaceIn(Parts(path)), NameIn(Parts(path)), path,
                      if ReadsBody(httpMethod, body) then body.bytes else [])
  }

  /** The first objection in order. */
  function Objection(validators: seq<Validator>, r: ValidationRequest): Option<string>
  {
    if validators == [] then None
    else if validators[0](r).Some? then validators[0](r)
    else Objection(validators[1..], r)
  }

  predicate IsAccessReview(gvr: GVR)
  {
    gvr.group == "authorization.k8s.io" && gvr.resource == "selfsubjectaccessreviews"
  }

  /** What becomes of a request. */
  function Verdict(g: Gate, path: string, httpMethod: string, body: Body): Outcome
  {
    var kpath := StripAPIPathPrefix(path, g.apiPathPrefix);
    var gvr := ParseURLToGVR(kpath);
    if gvr.None? then Forwarded
    else if g.restMapper.None? then MapperMissing
    else match g.restMapper.value(gvr.value)
      case NoMatch => NoSuchResource(gvr.value)
      case MapperError(e) => MapperFailed(e)
      case Kind(gvk) =>
        if Denied(g, gvk) then NotAllowed(gvk)
        else if IsAccessReview(gvr.value) then Forwarded
        else if ReadsBody(httpMethod, body) && !body.readable then BodyUnreadable
        else
          var objection := Objection(g.validators, ToValidate(gvr.value, gvk, httpMethod, kpath, body));
          if objection.Some? then Rejected(objection.value) else Forwarded
  }

  class Request {
    const path: string
    const httpMethod: string
    var body: Body

    constructor (path: string, httpMethod: string, body: Body)
      ensures this.path == path && this.httpMethod == httpMethod && this.body == body
    {
      this.path, this.httpMethod, this.body := path, httpMethod, body;
    }
  }

  /** What the delegate is handed. */
  datatype Sent = Sent(path: string, httpMethod: string, body: Body)

  class RoundTripper {
    const gate: Gate
    var sent: seq<Sent>   // the calls of the delegate, in order

    constructor (gate: Gate)
      ensures this.gate == gate && sent == []
    {
      this.gate := gate;
      sent := [];
    }

    method Delegate(req: Request)
      modifies `sent
      ensures sent == old(sent) + [Sent(req.path, req.httpMethod, req.body)]
    {
      sent := sent + [Sent(req.path, req.httpMethod, req.body)];
    }

    method IsAllowed(gvk: GVK) returns (allowed: bool)
      ensures allowed <==> !Denied(gate, gvk)
    {
      if gate.denied.None? {
        return true;
      }
      for i := 0 to |gate.denied.value|
        invariant forall j :: 0 <= j < i ==> !Matches(gate.denied.value[j], gvk)
      {
        var val := gate.denied.value[i];
        if val.kind == "" {
          if gvk.group == val.group && gvk.version == val.version {
            return false;
          }
        }
        if gvk.group == val.group && gvk.version == val.version && gvk.kind == val.kind {
          return false;
        }
      }
      return true;
    }

    method Validate(r: ValidationRequest) returns (objection: Option<string>)
      ensures objection == Objection(gate.validators, r)
    {
      var i := 0;
      while i < |gate.validators|
        invariant 0 <= i <= |gate.validators|
        invariant Objection(gate.validators[i..], r) == Objection(gate.validators, r)
      {
        objection := gate.validators[i](r);
        if objection.Some? {
          return;
        }
        i := i + 1;
      }
      objection := None;
    }

    /** A forwarded request goes to the delegate once, with the body it came with although
        the validators have read it; any other never gets there. */
    method RoundTrip(req: Request) returns (outcome: Outcome)
      modifies `sent, req`body
      ensures outcome == Verdict(gate, req.path, req.httpMethod, old(req.body))
      ensures sent == old(sent) + if outcome.Forwarded? then [Sent(req.path, req.httpMethod, old(req.body))] else []
    {
      var kubernetesPath := StripAPIPathPrefix(req.path, gate.apiPathPrefix);
      var gvr := ParseURLToGVR(kubernetesPath);
      if gvr.None? {
        Delegate(req);
        return Forwarded;
      }
      if gate.restMapper.None? {
        return MapperMissing;
      }
      var mapped := gate.restMapper.value(gvr.value);
      match mapped
      case NoMatch =>
        return NoSuchResource(gvr.value);
      case MapperError(e) =>
        return MapperFailed(e);
      case Kind(gvk) =>
        var allowed := IsAllowed(gvk);
        if !allowed {
          return NotAllowed(gvk);
        }
        if IsAccessReview(gvr.value) {
          Delegate(req);
          return Forwarded;
        }
        var namespace, resourceName := ParseURLToNamespaceAndName(kubernetesPath);
        var r := ValidationRequest(gvr.value, gvk, req.httpMethod, HttpMethodToVerb(req.httpMethod, kubernetesPath),
                                   namespace, resourceName, kubernetesPath, []);
        if ReadsBody(req.httpMethod, req.body) {
          var stream := req.body;
          req.body := Stream([], stream.readable);
          if !stream.readable {
            return BodyUnreadable;
          }
          req.body := Stream(stream.bytes, true);
          r := r.(body := stream.bytes);
        }
        var objection := Validate(r);
        if objection.Some? {
          return Rejected(objection.value);
        }
        Delegate(req);
        return Forwarded;
    }
  }

  predicate Accepts(v: Validator, r: ValidationRequest)
  {
    v(r).None?
  }

  /** The first of the validators that does not accept. */
  ghost predicate FirstObjects(validators: seq<Validator>, r: ValidationRequest, i: nat)
  {
    i < |validators| && !Accepts(validators[i], r) && forall j :: 0 <= j < i ==> Accepts(validators[j], r)
  }

  lemma {:induction false} NoObjection(validators: seq<Validator>, r: ValidationRequest)
    ensures Objection(validators, r).None? <==> forall i :: 0 <= i < |validators| ==> Accepts(validators[i], r)
    ensures forall i: nat :: FirstObjects(validators, r, i) ==> Objection(validators, r) == validators[i](r)
  {
    if validators != [] {
      NoObjection(validators[1..], r);
      forall i: nat | FirstObjects(validators, r, i) ensures Objection(validators, r) == validators[i](r) {
        if i > 0 {
          assert Accepts(validators[0], r) && validators[i] == validators[1..][i - 1];
          assert FirstObjects(validators[1..], r, i - 1);
        }
      }
      assert forall i :: 0 < i < |validators| ==> validators[i] == validators[1..][i - 1];
      if Accepts(validators[0], r) && Objection(validators[1..], r).Some? {
        var i :| 0 <= i < |validators[1..]| && !Accepts(validators[1..][i], r);
        assert !Accepts(validators[i + 1], r);
      }
    }
  }

  /** A request for a resource reaches the API exactly when its kind is known and not
      denied and, unless it is an access review, its body can be read and every validator
      accepts. */
  lemma ForwardedExactly(g: Gate, path: string, httpMethod: string, body: Body)
    ensures Verdict(g, path, httpMethod, body).Forwarded? <==>
            var kpath := StripAPIPathPrefix(path, g.apiPathPrefix);
            var gvr := ParseURLToGVR(kpath);
            gvr.Some? ==>
              && g.restMapper.Some? && g.restMapper.value(gvr.value).Kind?
              && var gvk := g.restMapper.value(gvr.value).gvk;
              && !Denied(g, gvk)
              && (!IsAccessReview(gvr.value) ==>
                    && (ReadsBody(httpMethod, body) ==> body.readable)
                    && forall i :: 0 <= i < |g.validators| ==>
                         Accepts(g.validators[i], ToValidate(gvr.value, gvk, httpMethod, kpath, body)))
  {
    var kpath := StripAPIPathPrefix(path, g.apiPathPrefix);
    var gvr := ParseURLToGVR(kpath);
    if gvr.Some? && g.restMapper.Some? && g.restMapper.value(gvr.value).Kind? {
      NoObjection(g.validators, ToValidate(gvr.value, g.restMapper.value(gvr.value).gvk, httpMethod, kpath, body));
    }
  }

  /** A path in front of the API server's own does not change the verdict. */
  lemma PrefixChangesNothing(g: Gate, path: string, httpMethod: string, body: Body)
    requires HasPrefix(path, "/")
    ensures Verdict(g, TrimSuffix(g.apiPathPrefix, "/") + path, httpMethod, body)
            == Verdict(g.(apiPathPrefix := ""), path, httpMethod, body)
  {
    StripUndoesPrefix(path, g.apiPathPrefix);
  }

  /** A path that names no resource is forwarded by every gate: any path outside `api` and `apis`,
      and those of discovery. */
  lemma OtherPathsForwarded(g: Gate, path: string, httpMethod: string, body: Body)
    requires var parts := Parts(StripAPIPathPrefix(path, g.apiPathPrefix));
             !(parts[0] == "api" && |parts| >= 3) && !(parts[0] == "apis" && |parts| >= 4)
    ensures Verdict(g, path, httpMethod, body) == Forwarded
  {
    ParsedExactly(StripAPIPathPrefix(path, g.apiPathPrefix));
  }

  /** A kind is denied by an entry that names it, or by one that names its group and version only. */
  lemma DeniedExactly(g: Gate, gvk: GVK)
    ensures Denied(g, gvk) <==> g.denied.Some? && (gvk in g.denied.value || GVK(gvk.group, gvk.version, "") in g.denied.value)
  {
    if g.denied.Some? && gvk in g.denied.value {
      var i :| 0 <= i < |g.denied.value| && g.denied.value[i] == gvk;
      assert Matches(g.denied.value[i], gvk);
    }
    if g.denied.Some? && GVK(gvk.group, gvk.version, "") in g.denied.value {
      var i :| 0 <= i < |g.denied.value| && g.denied.value[i] == GVK(gvk.group, gvk.version, "");
      assert Matches(g.denied.value[i], gvk);
    }
    if Denied(g, gvk) {
      var i :| 0 <= i < |g.denied.value| && Matches(g.denied.value[i], gvk);
      assert g.denied.value[i] == gvk || g.denied.value[i] == GVK(gvk.group, gvk.version, "");
    }
  }

  /** The request for a target as the validators are to see it. */
  function Expected(t: Target, gvk: GVK, httpMethod: string, body: Body): ValidationRequest
  {
    ValidationRequest(t.gvr, gvk, httpMethod, VerbOf(httpMethod, t.name == ""), t.namespace, t.name, Build(t),
                      if body.Stream? && httpMethod in {"POST", "PUT", "PATCH"} then body.bytes else [])
  }

  /** What validators are given for a built path is what it was built from, for every gate, method
      and body, exactly when the path is unambiguous. */
  lemma ValidatorsSeeTarget(t: Target)
    requires WellFormed(t)
    ensures (forall gvk, httpMethod, body ::
               ParseURLToGVR(Build(t)).Some?
               && ToValidate(ParseURLToGVR(Build(t)).value, gvk, httpMethod, Build(t), body) == Expected(t, gvk, httpMethod, body))
            <==> Unambiguous(t)
  {
    RoundTrip(t);
    VerbTableExactly(t);
    if Unambiguous(t) {
      assert !NamespaceSubresource(t);
      forall gvk, httpMethod, body
        ensures ToValidate(t.gvr, gvk, httpMethod, Build(t), body) == Expected(t, gvk, httpMethod, body)
      {
        assert HttpMethodToVerb(httpMethod, Build(t)) == VerbOf(httpMethod, t.name == "");
      }
    } else {
      var gvk := GVK("", "", "");
      GVRInBuilt(t);
      var seen := ToValidate(ParseURLToGVR(Build(t)).value, gvk, "GET", Build(t), NoBody);
      assert seen != Expected(t, gvk, "GET", NoBody);
    }
  }

  /** The verdict on a request for an unambiguous target, on any gate, from the target alone. */
  lemma VerdictOnTarget(g: Gate, t: Target, httpMethod: string, body: Body)
    requires WellFormed(t) && Unambiguous(t)
    ensures var v := Verdict(g, PrefixedPath(g, t), httpMethod, body);
            && (g.restMapper.None? <==> v == MapperMissing)
            && (g.restMapper.Some? ==>
                  match g.restMapper.value(t.gvr)
                  case NoMatch => v == NoSuchResource(t.gvr)
                  case MapperError(e) => v == MapperFailed(e)
                  case Kind(gvk) => VerdictOnKind(g, t, gvk, httpMethod, body, v))
  {
    StripUndoesPrefix(Build(t), g.apiPathPrefix);
    RoundTrip(t);
    ValidatorsSeeTarget(t);
    if g.restMapper.Some? && g.restMapper.value(t.gvr).Kind? {
      var gvk := g.restMapper.value(t.gvr).gvk;
      assert ToValidate(t.gvr, gvk, httpMethod, Build(t), body) == Expected(t, gvk, httpMethod, body);
      KnownKind(g, t, gvk, httpMethod, body);
    }
  }

  lemma KnownKind(g: Gate, t: Target, gvk: GVK, httpMethod: string, body: Body)
    requires StripAPIPathPrefix(PrefixedPath(g, t), g.apiPathPrefix) == Build(t) && ParseURLToGVR(Build(t)) == Some(t.gvr)
    requires g.restMapper.Some? && g.restMapper.value(t.gvr) == Kind(gvk)
    requires ToValidate(t.gvr, gvk, httpMethod, Build(t), body) == Expected(t, gvk, httpMethod, body)
    ensures VerdictOnKind(g, t, gvk, httpMethod, body, Verdict(g, PrefixedPath(g, t), httpMethod, body))
  {
    DeniedExactly(g, gvk);
    NoObjection(g.validators, Expected(t, gvk, httpMethod, body));
  }

  /** The kind is denied, or the request is let through, unread or unobjected, or it is stopped
      because its body cannot be read or by the first validator that objects. */
  ghost predicate VerdictOnKind(g: Gate, t: Target, gvk: GVK, httpMethod: string, body: Body, v: Outcome)
  {
    var r := Expected(t, gvk, httpMethod, body);
    if g.denied.Some? && (gvk in g.denied.value || GVK(gvk.group, gvk.version, "") in g.denied.value) then v == NotAllowed(gvk)
    else if t.gvr.group == "authorization.k8s.io" && t.gvr.resource == "selfsubjectaccessreviews" then v == Forwarded
    else if body.Stream? && !body.readable && httpMethod in {"POST", "PUT", "PATCH"} then v == BodyUnreadable
    else
      && ((forall i :: 0 <= i < |g.validators| ==> Accepts(g.validators[i], r)) <==> v == Forwarded)
      && forall i: nat :: FirstObjects(g.validators, r, i) ==> v == Rejected(g.validators[i](r).value)
  }

  /** The gate knows the target's kind and denies it. */
  ghost predicate Denies(g: Gate, t: Target)
  {
    g.restMapper.Some? && g.restMapper.value(t.gvr).Kind? && Denied(g, g.restMapper.value(t.gvr).gvk)
  }

  function PrefixedPath(g: Gate, t: Target): string
  {
    TrimSuffix(g.apiPathPrefix, "/") + Build(t)
  }

  /** Denying a kind stops a built path to its resource, whatever the namespace, object or
      subresource: the gate looks at the parsed resource alone. */
  lemma DeniedResourceStops(g: Gate, t: Target, httpMethod: string, body: Body)
    requires WellFormed(t) && Denies(g, t)
    requires !NamespaceSubresource(t) || t.subresource == "namespaces"
    ensures Verdict(g, PrefixedPath(g, t), httpMethod, body) == NotAllowed(g.restMapper.value(t.gvr).gvk)
  {
    ResourceParsesExactly(t);
    StripUndoesPrefix(Build(t), g.apiPathPrefix);
  }

  /** A target is stopped by every gate that denies its kind exactly when it is no subresource of
      a namespace, or one called `namespaces` like the resource itself. */
  lemma DeniedResourceStopsExactly(t: Target)
    requires WellFormed(t)
    ensures (forall g: Gate, httpMethod: string, body: Body :: Denies(g, t) ==>
               Verdict(g, PrefixedPath(g, t), httpMethod, body) == NotAllowed(g.restMapper.value(t.gvr).gvk))
            <==> !NamespaceSubresource(t) || t.subresource == "namespaces"
  {
    if !NamespaceSubresource(t) || t.subresource == "namespaces" {
      forall g: Gate, httpMethod: string, body: Body | Denies(g, t)
        ensures Verdict(g, PrefixedPath(g, t), httpMethod, body) == NotAllowed(g.restMapper.value(t.gvr).gvk)
      {
        DeniedResourceStops(g, t, httpMethod, body);
      }
    } else {
      var g := SubresourceUnseen(t, "GET", NoBody);
    }
  }

  /** A gate that denies the kind of namespaces and nothing else, and knows the parsed resource as
      another kind: it forwards. */
  lemma SubresourceUnseen(t: Target, httpMethod: string, body: Body) returns (g: Gate)
    requires WellFormed(t) && NamespaceSubresource(t) && t.subresource != "namespaces"
    requires ReadsBody(httpMethod, body) ==> body.readable
    ensures Denies(g, t) && Verdict(g, PrefixedPath(g, t), httpMethod, body) == Forwarded
  {
    var denied, other := GVK("", "v1", "Namespace"), GVK("", "v1", "Other");
    g := Gate(Some([denied]), Some((gvr: GVR) => Kind(if gvr == t.gvr then denied else other)), "", []);
    assert Matches(g.denied.value[0], denied);
    assert !Denied(g, other);
    ResourceParsesExactly(t);
    StripUndoesPrefix(Build(t), g.apiPathPrefix);
  }

  /** The status of a namespace is read as a collection of its own. */
  lemma NamespaceStatusMisread() returns (t: Target)
    ensures t == Target(GVR("", "v1", "namespaces"), "", "foo", "status")
    ensures WellFormed(t) && ParseURLToGVR(Build(t)) == Some(GVR("", "v1", "status"))
    ensures HttpMethodToVerb("GET", Build(t)) == "list"
  {
    t := Target(GVR("", "v1", "namespaces"), "", "foo", "status");
    ResourceParsesExactly(t);
    BuiltParts(t);
    ResourceInBuilt(t);
  }
}
