/** The cache of pkg/http/wellknown.go and the fallback part of its handler, on the heap and for
    one request at a time. The upstream answer and the time are parameters. */
module OidcCache {
  import opened Options
  import opened OidcMetadata

  /** A map that is passed around and edited in place. */
  class Metadata {
    var entries: Document

    constructor (entries: Document)
      ensures this.entries == entries
    {
      this.entries := entries;
    }
  }

  method CopyMap(src: Metadata) returns (dst: Metadata)
    ensures fresh(dst) && dst.entries == src.entries
  {
    dst := new Metadata(map[]);
    var todo := src.entries.Keys;
    while todo != {}
      invariant todo <= src.entries.Keys && dst.entries == src.entries - todo
      invariant fresh(dst) && src.entries == old(src.entries)
      decreases todo
    {
      var k :| k in todo;
      dst.entries := dst.entries[k := src.entries[k]];
      todo := todo - {k};
    }
  }

  datatype Snapshot = Snapshot(disableDynamicClientRegistration: bool, oauthScopes: seq<string>)

  /** The configuration's say over a document. */
  function Overridden(doc: Document, snap: Option<Snapshot>): Document
  {
    if snap.None? then doc
    else
      var registered := if snap.value.disableDynamicClientRegistration
                        then (doc - {"registration_endpoint"})["require_request_uri_registration" := Flag(false)] else doc;
      if snap.value.oauthScopes != [] then registered["scopes_supported" := Strings(snap.value.oauthScopes)] else registered
  }

  method ApplyConfigOverrides(m: Metadata, snap: Option<Snapshot>)
    modifies m
    ensures m.entries == Overridden(old(m.entries), snap)
  {
    if snap.Some? && snap.value.disableDynamicClientRegistration {
      m.entries := m.entries - {"registration_endpoint"};
      m.entries := m.entries["require_request_uri_registration" := Flag(false)];
    }
    if snap.Some? && |snap.value.oauthScopes| > 0 {
      m.entries := m.entries["scopes_supported" := Strings(snap.value.oauthScopes)];
    }
  }

  /** Overriding again changes nothing, and what the configuration forbids is not offered. */
  lemma OverridesHold(doc: Document, snap: Snapshot)
    ensures var out := Overridden(doc, Some(snap));
            && Overridden(out, Some(snap)) == out
            && (snap.disableDynamicClientRegistration ==>
                  "registration_endpoint" !in out && "require_request_uri_registration" in out
                  && out["require_request_uri_registration"] == Flag(false))
            && (snap.oauthScopes != [] ==> "scopes_supported" in out && out["scopes_supported"] == Strings(snap.oauthScopes))
            && forall k :: k !in {"registration_endpoint", "require_request_uri_registration", "scopes_supported"} ==>
                 (k in out <==> k in doc) && (k in doc ==> out[k] == doc[k])
  {
    var out := Overridden(doc, Some(snap));
    assert Overridden(out, Some(snap)).Keys == out.Keys;
  }

  /** Metadata of a protected resource, section 2 of RFC 9728. */
  function ProtectedResource(doc: Document, serverURL: string): Document
  {
    var scopes := if "scopes_supported" in doc then map["scopes_supported" := doc["scopes_supported"]] else map[];
    map["authorization_servers" := Strings([serverURL]), "bearer_methods_supported" := Strings(["header"])] + scopes
  }

  /** Its members: the server named as the authorization server, tokens in the header, the scopes of
      the document if it has any, and nothing else. */
  lemma ProtectedResourceExactly(doc: Document, serverURL: string, k: string)
    ensures var out := ProtectedResource(doc, serverURL);
            && (k in out <==> k == "authorization_servers" || k == "bearer_methods_supported"
                              || (k == "scopes_supported" && k in doc))
            && out["authorization_servers"] == Strings([serverURL]) && out["bearer_methods_supported"] == Strings(["header"])
            && ("scopes_supported" in doc ==> out["scopes_supported"] == doc["scopes_supported"])
  {
  }

  method GenerateProtectedResourceMetadata(oidcConfig: Metadata, serverURL: string) returns (m: Metadata)
    ensures fresh(m) && m.entries == ProtectedResource(oidcConfig.entries, serverURL)
  {
    m := new Metadata(map["authorization_servers" := Strings([serverURL])]);
    if "scopes_supported" in oidcConfig.entries {
      m.entries := m.entries["scopes_supported" := oidcConfig.entries["scopes_supported"]];
    }
    m.entries := m.entries["bearer_methods_supported" := Strings(["header"])];
  }

  /** The end of an upstream request; a JSON null counts as no document. */
  datatype Upstream = UpstreamError | NotFound | Body(doc: Document)

  datatype Endpoint = AuthorizationServer | ProtectedResourceEndpoint | OtherEndpoint

  datatype Response = Served(doc: Document) | Status(code: int)

  class WellKnown {
    var oidcConfigCache: Metadata?
    var oidcConfigCacheTime: real
    var oidcConfigCacheURL: string

    constructor ()
      ensures oidcConfigCache == null
    {
      oidcConfigCache, oidcConfigCacheTime, oidcConfigCacheURL := null, 0.0, "";
    }

    predicate Hit(authURL: string, now: real)
      reads this
    {
      oidcConfigCache != null && oidcConfigCacheURL == authURL && now - oidcConfigCacheTime < TTL
    }

    /** The document a request for `authURL` is based on. */
    function Known(authURL: string, now: real, upstream: Upstream): Option<Document>
      reads this, oidcConfigCache
    {
      if Hit(authURL, now) then Some(oidcConfigCache.entries)
      else if upstream.Body? then Some(upstream.doc)
      else None
    }

    /** The cache after such a request holds that document, as of now unless it was a hit. */
    ghost predicate Remembers(authURL: string, doc: Document, since: real)
      reads this, oidcConfigCache
    {
      oidcConfigCache != null && oidcConfigCacheURL == authURL && oidcConfigCacheTime == since && oidcConfigCache.entries == doc
    }

    method FetchOpenIDConfiguration(authURL: string, now: real, upstream: Upstream) returns (r: Metadata?, failed: bool)
      modifies this
      ensures r != null ==> fresh(r) && r != oidcConfigCache && Some(r.entries) == old(Known(authURL, now, upstream))
      ensures r == null <==> old(Known(authURL, now, upstream)).None?
      ensures failed <==> !old(Hit(authURL, now)) && upstream.UpstreamError?
      ensures old(oidcConfigCache != null && oidcConfigCacheURL == authURL && now - oidcConfigCacheTime < 300.0) ==>
                !failed && r != null && r.entries == old(oidcConfigCache.entries)
      ensures !old(oidcConfigCache != null && oidcConfigCacheURL == authURL && now - oidcConfigCacheTime < 300.0) ==>
                && failed == upstream.UpstreamError? && (r != null <==> upstream.Body?)
                && (r != null ==> r.entries == upstream.doc)
      ensures old(Hit(authURL, now)) || r == null ==> unchanged(this)
      ensures !old(Hit(authURL, now)) && r != null ==> fresh(oidcConfigCache) && Remembers(authURL, upstream.doc, now)
    {
      failed := false;
      if oidcConfigCache != null && oidcConfigCacheURL == authURL && now - oidcConfigCacheTime < TTL {
        r := CopyMap(oidcConfigCache);
        return;
      }
      match upstream
      case UpstreamError => r, failed := null, true;
      case NotFound => r := null;
      case Body(doc) =>
        var oidcConfig := new Metadata(doc);
        oidcConfigCache := CopyMap(oidcConfig);
        oidcConfigCacheTime := now;
        oidcConfigCacheURL := authURL;
        r := CopyMap(oidcConfig);
    }

    /** What the handler answers when the upstream server lacks the endpoint. */
    function Fallback(endpoint: Endpoint, known: Option<Document>, failed: bool, serverURL: string, snap: Option<Snapshot>): Response
    {
      if endpoint.OtherEndpoint? then Status(404)
      else if failed then Status(500)
      else if known.None? then Status(404)
      else
        Served(Overridden(if endpoint.AuthorizationServer? then known.value else ProtectedResource(known.value, serverURL), snap))
    }

    /** What is served carries the document's own members, or those of a protected resource, but for
        the three the configuration has a say over. */
    lemma ServedMembers(endpoint: Endpoint, doc: Document, serverURL: string, snap: Snapshot, k: string)
      requires !endpoint.OtherEndpoint?
      requires k !in {"registration_endpoint", "require_request_uri_registration", "scopes_supported"}
      ensures var response := Fallback(endpoint, Some(doc), false, serverURL, Some(snap));
              && response.Served?
              && (endpoint.AuthorizationServer? ==>
                    (k in response.doc <==> k in doc) && (k in doc ==> response.doc[k] == doc[k]))
              && (endpoint.ProtectedResourceEndpoint? ==>
                    && (k in response.doc <==> k in {"authorization_servers", "bearer_methods_supported"})
                    && response.doc["authorization_servers"] == Strings([serverURL]))
    {
      OverridesHold(doc, snap);
      OverridesHold(ProtectedResource(doc, serverURL), snap);
      ProtectedResourceExactly(doc, serverURL, k);
    }

    /** The fallback with the default generator, which for an authorization server answers with
        the caller's map itself. The overrides never reach the cached map. */
    method ServeFallback(endpoint: Endpoint, authURL: string, serverURL: string, snap: Option<Snapshot>, now: real,
                         upstream: Upstream) returns (response: Response)
      modifies this
      ensures response == Fallback(endpoint, old(Known(authURL, now, upstream)),
                                   !old(Hit(authURL, now)) && upstream.UpstreamError?, serverURL, snap)
      ensures response == Status(404) <==> endpoint.OtherEndpoint? || (!old(Hit(authURL, now)) && upstream.NotFound?)
      ensures response == Status(500) <==> !endpoint.OtherEndpoint? && !old(Hit(authURL, now)) && upstream.UpstreamError?
      ensures response.Served? <==> !endpoint.OtherEndpoint? && (old(Hit(authURL, now)) || upstream.Body?)
      ensures response.Served? && snap.None? ==>
                response.doc == if endpoint.AuthorizationServer? then old(Known(authURL, now, upstream)).value
                                else ProtectedResource(old(Known(authURL, now, upstream)).value, serverURL)
      ensures endpoint.OtherEndpoint? || old(Hit(authURL, now)) || !upstream.Body? ==> unchanged(this)
      ensures old(oidcConfigCache) != null ==> old(oidcConfigCache).entries == old(oidcConfigCache.entries)
      ensures !endpoint.OtherEndpoint? && !old(Hit(authURL, now)) && upstream.Body? ==> Remembers(authURL, upstream.doc, now)
    {
      if endpoint.OtherEndpoint? {
        return Status(404);
      }
      var oidcConfig, failed := FetchOpenIDConfiguration(authURL, now, upstream);
      if failed {
        return Status(500);
      }
      if oidcConfig == null {
        return Status(404);
      }
      var metadata := oidcConfig;
      if endpoint.ProtectedResourceEndpoint? {
        metadata := GenerateProtectedResourceMetadata(oidcConfig, serverURL);
      }
      ApplyConfigOverrides(metadata, snap);
      response := Served(metadata.entries);
    }

    /** Two requests within the cache's time give the same answer, whatever the second would
        have found upstream. */
    method ServeTwice(endpoint: Endpoint, authURL: string, serverURL: string, snap: Option<Snapshot>, now: real,
                      upstream: Upstream, later: real, upstream': Upstream) returns (first: Response, second: Response)
      requires upstream.Body? && now <= later < now + 300.0
      modifies this
      ensures !old(Hit(authURL, now)) ==> second == first
    {
      first := ServeFallback(endpoint, authURL, serverURL, snap, now, upstream);
      second := ServeFallback(endpoint, authURL, serverURL, snap, later, upstream');
    }
  }
}
