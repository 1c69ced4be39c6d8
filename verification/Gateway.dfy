/** The gateway's `opa-authz` plugin: path splitting, the roles it takes from a token, and its decision order. */
module Gateway {
  import opened Options
  import opened OpaPolicy
  import opened Roles
  import opened Routes

  // ----- split_path: each match of "[^/]+" in turn -----

  // The length of the leading run without a slash.
  function RunLength(s: string): (n: nat)
    ensures n <= |s| && '/' !in s[..n] && (n < |s| ==> s[n] == '/')
    ensures s != "" && s[0] != '/' ==> n > 0
  {
    if s == "" || s[0] == '/' then 0 else 1 + RunLength(s[1..])
  }

  function Segments(path: string): seq<string>
    decreases |path|
  {
    if path == "" then []
    else if path[0] == '/' then Segments(path[1..])
    else [path[..RunLength(path)]] + Segments(path[RunLength(path)..])
  }

  method SplitPath(path: string) returns (segments: seq<string>)
    ensures segments == Segments(path)
  {
    segments := [];
    var rest := path;
    while rest != ""
      invariant segments + Segments(rest) == Segments(path)
      decreases |rest|
    {
      if rest[0] == '/' {
        rest := rest[1..];
      } else {
        var n := RunLength(rest);
        assert segments + ([rest[..n]] + Segments(rest[n..])) == (segments + [rest[..n]]) + Segments(rest[n..]);
        segments, rest := segments + [rest[..n]], rest[n..];
      }
    }
  }

  ghost predicate AreClean(segments: seq<string>) {
    forall i :: 0 <= i < |segments| ==> segments[i] != "" && '/' !in segments[i]
  }

  lemma {:induction false} SegmentsAreClean(path: string)
    ensures AreClean(Segments(path))
    decreases |path|
  {
    if path != "" {
      SegmentsAreClean(path[if path[0] == '/' then 1 else RunLength(path)..]);
    }
  }

  lemma {:induction false} RunBeforeSlash(a: string, b: string)
    ensures RunLength(a + "/" + b) == RunLength(a)
  {
    if a != "" && a[0] != '/' {
      assert (a + "/" + b)[1..] == a[1..] + "/" + b;
      RunBeforeSlash(a[1..], b);
    }
  }

  /** A slash only separates: leading, trailing and doubled slashes add no segment. */
  lemma {:induction false} SegmentsSplit(a: string, b: string)
    ensures Segments(a + "/" + b) == Segments(a) + Segments(b)
    decreases |a|
  {
    var s := a + "/" + b;
    if a == "" {
      assert s[1..] == b;
    } else if a[0] == '/' {
      assert s[1..] == a[1..] + "/" + b;
      SegmentsSplit(a[1..], b);
    } else {
      RunBeforeSlash(a, b);
      var n := RunLength(a);
      assert s[..n] == a[..n] && s[n..] == a[n..] + "/" + b;
      SegmentsSplit(a[n..], b);
    }
  }

  lemma {:induction false} RunOfClean(s: string)
    requires '/' !in s
    ensures RunLength(s) == |s|
  {
    if s != "" {
      assert s[0] in s;
      RunOfClean(s[1..]);
    }
  }

  // The path text of a list of segments.
  function PathText(segments: seq<string>): string {
    if segments == [] then "" else PathText(segments[..|segments| - 1]) + "/" + segments[|segments| - 1]
  }

  lemma {:induction false} SegmentsOfPathText(segments: seq<string>)
    requires AreClean(segments)
    ensures Segments(PathText(segments)) == segments
  {
    if segments != [] {
      var n := |segments| - 1;
      var last := segments[n];
      SegmentsOfPathText(segments[..n]);
      SegmentsSplit(PathText(segments[..n]), last);
      RunOfClean(last);
      assert last[..|last|] == last && last[|last|..] == "";
    }
  }

  // ----- the token -----

  datatype Audience = NoAudience | One(name: string) | Many(names: seq<string>)

  // `realmRoles` is realm_access.roles, `topRoles` the claim "roles".
  datatype Claims = Claims(aud: Audience, tenant: Option<string>, sub: Option<string>,
                           realmRoles: Option<seq<string>>, topRoles: Option<seq<string>>)

  predicate HasAudience(aud: Audience, expected: string) {
    match aud
    case NoAudience => false
    case One(name) => name == expected
    case Many(names) => expected in names
  }

  method Contains(aud: Audience, expected: string) returns (found: bool)
    ensures found == HasAudience(aud, expected)
  {
    if aud.One? {
      return aud.name == expected;
    }
    if aud.Many? {
      for i := 0 to |aud.names|
        invariant expected !in aud.names[..i]
      {
        if aud.names[i] == expected {
          return true;
        }
      }
    }
    found := false;
  }

  function RolesFromClaims(c: Claims): seq<string> {
    c.realmRoles.GetOr(c.topRoles.GetOr([]))
  }

  // The roles the services read from the same token.
  function ServiceRoles(c: Claims): seq<string> {
    c.realmRoles.GetOr([])
  }

  // ----- access -----

  datatype Conf = Conf(enforceJson: bool, audience: string)

  // Whether the policy server answers at all.
  datatype Opa = Down | HttpError | Answering

  datatype Decision = Forward | Reject(status: nat)

  const TENANT_HEADER := "X-Tenant-ID"
  const USER_HEADER := "X-User-ID"
  const ROLES_HEADER := "X-Roles"

  function Concat(roles: seq<string>): string {
    if roles == [] then ""
    else if |roles| == 1 then roles[0]
    else roles[0] + "," + Concat(roles[1..])
  }

  class Request {
    const verb: string
    const path: string
    const json: bool             // the Content-Type names application/json
    const claims: Option<Claims> // None when the bearer token is missing or cannot be decoded
    var headers: map<string, string>

    constructor (verb: string, path: string, json: bool, claims: Option<Claims>, headers: map<string, string>)
      ensures this.verb == verb && this.path == path && this.json == json && this.claims == claims
      ensures this.headers == headers
    {
      this.verb, this.path, this.json, this.claims, this.headers := verb, path, json, claims, headers;
    }

    method Access(conf: Conf, opa: Opa) returns (decision: Decision)
      modifies this
      ensures decision == Decide(conf, verb, path, json, claims, opa)
      ensures headers == if Screened(conf, verb, json, claims).Forward? then Stamped(old(headers), claims.value)
                         else old(headers)
    {
      if conf.enforceJson && (verb == "POST" || verb == "PUT" || verb == "PATCH") {
        if !json {
          return Reject(415);
        }
      }
      if claims.None? {
        return Reject(401);
      }
      var c := claims.value;
      var audible := Contains(c.aud, conf.audience);
      if conf.audience != "" && !audible {
        return Reject(401);
      }
      var tenant, user, roles := c.tenant.GetOr(""), c.sub.GetOr(""), RolesFromClaims(c);
      if tenant != "" {
        headers := headers[TENANT_HEADER := tenant];
      }
      if user != "" {
        headers := headers[USER_HEADER := user];
      }
      headers := headers[ROLES_HEADER := Concat(roles)];
      var segments := SplitPath(path);
      if opa.Down? || opa.HttpError? {
        return Reject(503);
      }
      if !Allow(Input(verb, segments, Some(tenant), roles)) {
        return Reject(403);
      }
      decision := Forward;
    }
  }

  // What the plugin decides before it asks the policy.
  function Screened(conf: Conf, verb: string, json: bool, claims: Option<Claims>): Decision {
    if conf.enforceJson && verb in ["POST", "PUT", "PATCH"] && !json then Reject(415)
    else if claims.None? then Reject(401)
    else if conf.audience != "" && !HasAudience(claims.value.aud, conf.audience) then Reject(401)
    else Forward
  }

  function PolicyInput(verb: string, path: string, c: Claims): Input {
    Input(verb, Segments(path), Some(c.tenant.GetOr("")), RolesFromClaims(c))
  }

  function Decide(conf: Conf, verb: string, path: string, json: bool, claims: Option<Claims>, opa: Opa): Decision {
    if Screened(conf, verb, json, claims).Reject? then Screened(conf, verb, json, claims)
    else if !opa.Answering? then Reject(503)
    else if Allow(PolicyInput(verb, path, claims.value)) then Forward
    else Reject(403)
  }

  function Stamped(headers: map<string, string>, c: Claims): map<string, string> {
    var h1 := if c.tenant.GetOr("") != "" then headers[TENANT_HEADER := c.tenant.value] else headers;
    var h2 := if c.sub.GetOr("") != "" then h1[USER_HEADER := c.sub.value] else h1;
    h2[ROLES_HEADER := Concat(RolesFromClaims(c))]
  }

  // ----- the decision and the headers, spelled out -----

  /**
   The plugin's whole decision: 415 for a body that is not JSON where that is asked for, 401 without readable
   claims or for another audience, 503 without an answer of the policy, 403 when the policy refuses the
   token's tenant and roles, and only otherwise the request is forwarded.
   */
  lemma DecisionMeaning(conf: Conf, verb: string, path: string, json: bool, claims: Option<Claims>, opa: Opa)
    ensures Decide(conf, verb, path, json, claims, opa)
         == if conf.enforceJson && (verb == "POST" || verb == "PUT" || verb == "PATCH") && !json then Reject(415)
            else if claims.None? then Reject(401)
            else
              var c := claims.value;
              if && conf.audience != "" && c.aud != One(conf.audience)
                 && !(c.aud.Many? && exists i :: 0 <= i < |c.aud.names| && c.aud.names[i] == conf.audience)
              then Reject(401)
              else if opa == Down || opa == HttpError then Reject(503)
              else if Allow(Input(verb, Segments(path), Some(if c.tenant.Some? then c.tenant.value else ""),
                                  if c.realmRoles.Some? then c.realmRoles.value
                                  else if c.topRoles.Some? then c.topRoles.value else []))
              then Forward
              else Reject(403)
  {
  }

  lemma {:induction false} ConcatAppends(a: seq<string>, b: seq<string>)
    requires a != [] && b != []
    ensures Concat(a + b) == Concat(a) + "," + Concat(b)
    ensures Concat([a[0]]) == a[0] && Concat([]) == ""
  {
    assert (a + b)[1..] == a[1..] + b;
    if |a| > 1 {
      ConcatAppends(a[1..], b);
      assert a[0] + "," + (Concat(a[1..]) + "," + Concat(b)) == (a[0] + "," + Concat(a[1..])) + "," + Concat(b);
    }
  }

  /** The headers a screened request carries: the token's tenant, subject and comma-joined roles, all else as sent. */
  lemma HeadersMeaning(sent: map<string, string>, c: Claims, name: string)
    ensures var headers := Stamped(sent, c);
            && (c.tenant.Some? && c.tenant.value != "" ==>
                  "X-Tenant-ID" in headers && headers["X-Tenant-ID"] == c.tenant.value)
            && (c.sub.Some? && c.sub.value != "" ==> "X-User-ID" in headers && headers["X-User-ID"] == c.sub.value)
            && "X-Roles" in headers
            && headers["X-Roles"] == Concat(if c.realmRoles.Some? then c.realmRoles.value
                                            else if c.topRoles.Some? then c.topRoles.value else [])
            && (|| (name != "X-Tenant-ID" && name != "X-User-ID" && name != "X-Roles")
                || (name == "X-Tenant-ID" && c.tenant.GetOr("") == "")
                || (name == "X-User-ID" && c.sub.GetOr("") == "") ==>
                  (name in headers <==> name in sent) && (name in sent ==> headers[name] == sent[name]))
  {
  }

  // ----- what a forwarded request guarantees to the service behind -----

  /** The guard in the policy against empty segments is never needed for the gateway's own input. */
  lemma GatewayPathsAreNormal(path: string)
    ensures Normalized(Segments(path)) == Segments(path)
  {
    SegmentsAreClean(path);
    NormalizedClean(Segments(path));
  }

  /** Gateway and services see the same roles if and only if the token's realm has roles, or nothing else names any. */
  lemma RolesAgree(c: Claims)
    ensures RolesFromClaims(c) == ServiceRoles(c) <==> c.realmRoles.Some? || c.topRoles.GetOr([]) == []
  {
  }

  // The parts of an implemented route's path.
  predicate CleanId(id: string) {
    id != "" && '/' !in id
  }

  lemma RouteSegments(route: Route, id: string)
    requires CleanId(id)
    ensures Segments(PathText(PathOf(route, id))) == PathOf(route, id)
  {
    SegmentsOfPathText(PathOf(route, id));
  }

  /**
   A request for an implemented route that the gateway forwards for a caller without platform_admin passes
   the service's role gate if and only if the token's realm lists roles, which the gateway reads first.
   */
  lemma ForwardedPassesGate(conf: Conf, route: Route, id: string, json: bool, c: Claims, opa: Opa)
    requires CleanId(id)
    requires Decide(conf, MethodOf(route), PathText(PathOf(route, id)), json, Some(c), opa) == Forward
    requires PLATFORM_ADMIN !in RolesFromClaims(c)
    ensures PassesGate(ServiceRoles(c), GateOf(route)) <==> c.realmRoles.Some?
  {
    RouteSegments(route, id);
    GatewayAgainstGate(route, id, c.tenant.GetOr(""), RolesFromClaims(c));
  }

  /** With roles only in the top-level claim the gateway forwards what the service then refuses. */
  lemma TopLevelRolesMislead(conf: Conf, id: string)
    requires CleanId(id)
    ensures var c := Claims(One(conf.audience), Some("t"), Some("u"), None, Some([TENANT_ADMIN]));
            && Decide(conf, MethodOf(ListUsers), PathText(PathOf(ListUsers, id)), true, Some(c), Answering) == Forward
            && !PassesGate(ServiceRoles(c), GateOf(ListUsers))
  {
    RouteSegments(ListUsers, id);
    GatewayAgainstGate(ListUsers, id, "t", [TENANT_ADMIN]);
    assert [TENANT_ADMIN][0] in GateOf(ListUsers);
  }

  /**
   A forwarded request of a caller without platform_admin carries the tenant of its own token in the
   tenant header, whatever the client sent; in general it does exactly when the token names a tenant or
   the client happened to send the same.
   */
  lemma ForwardedTenantHeader(conf: Conf, verb: string, path: string, json: bool, c: Claims, opa: Opa,
                              sent: map<string, string>)
    requires Decide(conf, verb, path, json, Some(c), opa) == Forward
    ensures var headers := Stamped(sent, c);
            && (PLATFORM_ADMIN !in RolesFromClaims(c) ==>
                  c.tenant.Some? && TENANT_HEADER in headers && headers[TENANT_HEADER] == c.tenant.value != "")
            && (c.tenant.GetOr("") == "" ==> (TENANT_HEADER in headers <==> TENANT_HEADER in sent))
            && (TENANT_HEADER in headers && headers[TENANT_HEADER] == c.tenant.GetOr("") <==>
                  c.tenant.GetOr("") != "" || (TENANT_HEADER in sent && sent[TENANT_HEADER] == ""))
  {
  }
}
