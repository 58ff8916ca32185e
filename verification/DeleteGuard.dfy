/** The in-use guard on deleting a server: assign.ServedBy, the controller's
    reconcileDelete, and what they keep over whole runs of the cluster. */
module DeleteGuard {
  import opened Wrappers
  import opened Ordering
  import opened Assign

  // ---- Which server an applied URL names ----

  const SCHEME := "https://"
  const SERVICE_SUFFIX := "-webhook-server"

  predicate HasPrefix(s: string, prefix: string) {
    |prefix| <= |s| && s[..|prefix|] == prefix
  }

  function ServiceName(server: string): string {
    server + SERVICE_SUFFIX
  }

  /** The URL the config controller records after a successful apply. */
  function WebhookURL(server: string, namespace: string, target: string): string {
    SCHEME + ServiceName(server) + "." + namespace + ".svc/convert/" + target
  }

  predicate TargetPointsAt(url: string, server: string) {
    url != "" && HasPrefix(url, SCHEME + ServiceName(server) + ".")
  }

  predicate DotFree(s: string) {
    '.' !in s
  }

  const DELIMITED := SERVICE_SUFFIX + "."

  lemma DelimitedShape()
    ensures |DELIMITED| == 16 && DELIMITED[15] == '.'
    ensures forall k :: 0 <= k < 15 ==> DELIMITED[k] != '.'
  {
    assert DELIMITED == "-webhook-server.";
  }

  lemma UrlPrefix(a: string, namespace: string, target: string, b: string)
    ensures TargetPointsAt(WebhookURL(a, namespace, target), b) <==>
      HasPrefix(a + DELIMITED + (namespace + ".svc/convert/" + target), b + DELIMITED)
  {
    var rest := namespace + ".svc/convert/" + target;
    var url := WebhookURL(a, namespace, target);
    assert url == SCHEME + (a + DELIMITED + rest);
    var prefix := SCHEME + ServiceName(b) + ".";
    assert prefix == SCHEME + (b + DELIMITED);
    var body, p := a + DELIMITED + rest, b + DELIMITED;
    assert url[|SCHEME|..] == body;
    if HasPrefix(url, prefix) {
      assert body[..|p|] == url[|SCHEME|..][..|p|] == url[..|prefix|][|SCHEME|..] == p;
    }
    if HasPrefix(body, p) {
      assert url[..|prefix|] == SCHEME + body[..|p|];
    }
  }

  /** The one dot of the delimiter pins down where the two names end. */
  lemma DelimiterAligns(a: string, rest: string, b: string)
    requires HasPrefix(a + DELIMITED + rest, b + DELIMITED)
    ensures |a| == |b| ==> a == b
    ensures |a| > |b| ==> HasPrefix(a, b + DELIMITED)
    ensures |a| < |b| ==> Continues(a, rest, b)
  {
    DelimitedShape();
    var x, p := a + DELIMITED + rest, b + DELIMITED;
    assert forall k :: 0 <= k < |p| ==> x[k] == p[k];
    SecondDot(a, rest);
    SecondDot(b, "");
    assert p + "" == p;
    if |a| == |b| {
      assert a == x[..|a|] == p[..|a|] == b;
    } else if |a| > |b| {
      assert x[|b| + 15] == '.';
      assert a[..|p|] == x[..|p|];
    } else {
      assert p[|a| + 15] == '.';
      var at := |a| + 16;
      assert b[..at] == p[..at] == x[..at] == a + DELIMITED;
      assert x[at..] == rest && p[at..] == b[at..] + DELIMITED;
      assert p[at..] == x[..|p|][at..] == x[at..][..|p| - at];
    }
  }

  /** b continues a's delimited service name, and what follows it in the URL continues b's. */
  predicate Continues(a: string, rest: string, b: string) {
    HasPrefix(b, a + DELIMITED) && HasPrefix(rest, b[|a + DELIMITED|..] + DELIMITED)
  }

  lemma SecondDot(a: string, rest: string)
    ensures var x := a + DELIMITED + rest;
      && |x| >= |a| + 16 && x[|a| + 15] == '.'
      && (forall k :: 0 <= k < |a| ==> x[k] == a[k])
      && (forall k :: |a| <= k < |a| + 15 ==> x[k] != '.')
  {
    DelimitedShape();
    var x := a + DELIMITED + rest;
    assert forall k :: |a| <= k < |a| + 16 ==> x[k] == DELIMITED[k - |a|];
  }

  /** Exactly when the URL of a names b: a is b, or a continues b's delimited service name,
      or b continues a's into the namespace. */
  lemma PointsAtExactly(a: string, namespace: string, target: string, b: string)
    ensures TargetPointsAt(WebhookURL(a, namespace, target), b) <==>
      a == b || HasPrefix(a, b + DELIMITED) || Continues(a, namespace + ".svc/convert/" + target, b)
  {
    var rest := namespace + ".svc/convert/" + target;
    UrlPrefix(a, namespace, target, b);
    var x, p := a + DELIMITED + rest, b + DELIMITED;
    if HasPrefix(x, p) {
      DelimiterAligns(a, rest, b);
    }
    if HasPrefix(a, p) {
      assert x[..|p|] == a[..|p|];
    }
    if a == b {
      assert x[..|p|] == p;
    }
    if Continues(a, rest, b) {
      var at := |a + DELIMITED|;
      assert p == (a + DELIMITED) + p[at..] && p[at..] == b[at..] + DELIMITED;
      assert x == (a + DELIMITED) + rest;
      assert x[..|p|] == (a + DELIMITED) + rest[..|p| - at];
    }
  }

  /** Read off the names, for a namespace without dots and a server name without slashes. */
  lemma PointsAtByName(a: string, namespace: string, target: string, b: string)
    requires DotFree(namespace) && '/' !in b
    ensures TargetPointsAt(WebhookURL(a, namespace, target), b) <==>
      || a == b
      || HasPrefix(a, b + DELIMITED)
      || (HasPrefix(b, a + DELIMITED) && namespace == b[|a + DELIMITED|..] + SERVICE_SUFFIX)
  {
    PointsAtExactly(a, namespace, target, b);
    if HasPrefix(b, a + DELIMITED) {
      var part := b[|a + DELIMITED|..];
      forall k | 0 <= k < |part| ensures part[k] != '/' {
        assert part[k] == b[|a + DELIMITED| + k] && part[k] in b;
      }
      NamespaceEnds(namespace, target, part);
    }
  }

  lemma NamespaceEnds(namespace: string, target: string, part: string)
    requires DotFree(namespace) && '/' !in part
    ensures HasPrefix(namespace + ".svc/convert/" + target, part + DELIMITED) <==> namespace == part + SERVICE_SUFFIX
  {
    DelimitedShape();
    var rest, p := namespace + ".svc/convert/" + target, part + DELIMITED;
    var n := |namespace|;
    assert DELIMITED == "-webhook-server.";
    assert rest == namespace + (".svc/convert/" + target);
    assert rest[n] == '.' && rest[n + 1] == 's' && rest[n + 2] == 'v' && rest[n + 3] == 'c' && rest[n + 4] == '/';
    if HasPrefix(rest, p) {
      assert forall k :: 0 <= k < |p| ==> rest[k] == p[k];
      assert forall k :: |part| <= k < |p| ==> p[k] == DELIMITED[k - |part|];
      assert p[|part| + 15] == '.';
      assert '/' !in DELIMITED;
      assert '/' !in p;
      assert |p| <= n + 4;
      assert |part| + 15 == n;
      assert namespace == rest[..n] == p[..n] == part + SERVICE_SUFFIX;
    }
    if namespace == part + SERVICE_SUFFIX {
      assert rest[..|p|] == p;
    }
  }

  lemma DelimitedHasDot(a: string, b: string)
    requires HasPrefix(a, b + DELIMITED)
    ensures !DotFree(a)
  {
    DelimitedShape();
    assert a[..|b + DELIMITED|][|b| + 15] == (b + DELIMITED)[|b| + 15] == DELIMITED[15];
    assert a[|b| + 15] in a;
  }

  /** Between dot-free names the delimiting is exact. */
  lemma PointsAtOnlyItself(a: string, namespace: string, target: string, b: string)
    requires DotFree(a) && DotFree(b)
    ensures TargetPointsAt(WebhookURL(a, namespace, target), b) <==> a == b
  {
    PointsAtExactly(a, namespace, target, b);
    if HasPrefix(a, b + DELIMITED) {
      DelimitedHasDot(a, b);
    }
    if HasPrefix(b, a + DELIMITED) {
      DelimitedHasDot(b, a);
    }
  }

  /** Whatever the names, the URL written for a server does name that server. */
  lemma PointsAtItself(a: string, namespace: string, target: string)
    ensures TargetPointsAt(WebhookURL(a, namespace, target), a)
  {
    UrlPrefix(a, namespace, target, a);
    var p := a + DELIMITED;
    assert (p + (namespace + ".svc/convert/" + target))[..|p|] == p;
  }

  /** A dotted name can be mistaken for another server. */
  lemma DottedNamePointsElsewhere()
    ensures "a-webhook-server.b" != "a" && TargetPointsAt(WebhookURL("a-webhook-server.b", "ns", "t"), "a")
  {
    PointsAtExactly("a-webhook-server.b", "ns", "t", "a");
    assert "a" + DELIMITED == "a-webhook-server.";
    assert "a-webhook-server.b"[..17] == "a-webhook-server.";
  }

  /** And a server whose name continues another's delimited service name can be named by
      that one's URLs, through their namespace. */
  lemma NamespacePointsElsewhere(a: string, part: string, target: string)
    ensures TargetPointsAt(WebhookURL(a, part + SERVICE_SUFFIX, target), a + DELIMITED + part)
  {
    var b, rest := a + DELIMITED + part, part + SERVICE_SUFFIX + ".svc/convert/" + target;
    PointsAtExactly(a, part + SERVICE_SUFFIX, target, b);
    assert b[..|a + DELIMITED|] == a + DELIMITED && b[|a + DELIMITED|..] == part;
    assert rest == (part + DELIMITED) + ("svc/convert/" + target);
  }

  lemma NamespaceWitness()
    ensures TargetPointsAt(WebhookURL("a", "x-webhook-server", "t"), "a-webhook-server.x")
  {
    NamespacePointsElsewhere("a", "x", "t");
    assert "x" + SERVICE_SUFFIX == "x-webhook-server";
    assert "a" + DELIMITED + "x" == "a-webhook-server.x";
  }

  // ---- The guard ----

  /** Assigned to the server, or still pointed at it. */
  predicate ServedBy(h: Hash, cfg: Config, servers: seq<Server>, server: string) {
    IsAssignedTo(h, cfg, servers, server) || TargetPointsAt(cfg.url, server)
  }

  function Served(h: Hash, configs: seq<Config>, servers: seq<Server>, server: string): (out: seq<Config>)
    ensures forall c :: c in out <==> c in configs && ServedBy(h, c, servers, server)
    decreases |configs|
  {
    if configs == [] then []
    else
      var n := |configs| - 1;
      var init := Served(h, configs[..n], servers, server);
      assert configs == configs[..n] + [configs[n]];
      if ServedBy(h, configs[n], servers, server) then init + [configs[n]] else init
  }

  method ConfigsServedBy(h: Hash, configs: seq<Config>, servers: seq<Server>, server: string) returns (out: seq<Config>)
    ensures out == Served(h, configs, servers, server)
  {
    out := [];
    for i := 0 to |configs|
      invariant out == Served(h, configs[..i], servers, server)
    {
      assert configs[..i + 1][..i] == configs[..i];
      var r := ResolveAssignment(h, configs[i], servers);
      if r == Success(server) || TargetPointsAt(configs[i].url, server) {
        out := out + [configs[i]];
      }
    }
    assert configs[..|configs|] == configs;
  }

  function ConfigNames(configs: seq<Config>): (names: seq<string>)
    ensures |names| == |configs| && forall i :: 0 <= i < |configs| ==> names[i] == configs[i].name
  {
    seq(|configs|, i requires 0 <= i < |configs| => configs[i].name)
  }

  const FORCE_ANNOTATION := "conversion.terasky.com/allow-force-delete"

  predicate Forced(annotations: map<string, string>) {
    FORCE_ANNOTATION in annotations && annotations[FORCE_ANNOTATION] == "true"
  }

  /** One reconcile of a server being deleted: nothing to do, finalizer removed, or held
      back by the listed configs. */
  datatype Verdict = Ignored | Released | Held(names: seq<string>)

  function DeleteVerdict(h: Hash, xrds: seq<Config>, crds: seq<Config>, servers: seq<Server>, server: string, annotations: map<string, string>, finalizer: bool): Verdict {
    if !finalizer then Ignored
    else if Forced(annotations) then Released
    else
      var names := ConfigNames(Served(h, xrds, servers, server)) + ConfigNames(Served(h, crds, servers, server));
      if names == [] then Released else Held(SortBy(Itself, names))
  }

  /** The parts of a ConversionWebhookServer object that its deletion reads and writes. */
  class ServerObject {
    const name: string
    var annotations: map<string, string>
    var finalizer: bool
    var deletionBlocked: Option<seq<string>>

    constructor (name: string, annotations: map<string, string>)
      ensures this.name == name && this.annotations == annotations && finalizer && deletionBlocked == None
    {
      this.name := name;
      this.annotations := annotations;
      finalizer := true;
      deletionBlocked := None;
    }

    method ReconcileDelete(h: Hash, xrds: seq<Config>, crds: seq<Config>, servers: seq<Server>) returns (requeue: bool)
      modifies this`finalizer, this`deletionBlocked
      ensures var verdict := DeleteVerdict(h, xrds, crds, servers, name, annotations, old(finalizer));
        && finalizer == (old(finalizer) && verdict != Released)
        && deletionBlocked == (if verdict.Held? then Some(verdict.names) else old(deletionBlocked))
        && requeue == verdict.Held?
    {
      if !finalizer {
        return false;
      }
      if !Forced(annotations) {
        var dependentXRD := ConfigsServedBy(h, xrds, servers, name);
        var dependentCRD := ConfigsServedBy(h, crds, servers, name);
        if |dependentXRD| + |dependentCRD| > 0 {
          var names := ConfigNames(dependentXRD);
          names := names + ConfigNames(dependentCRD);
          deletionBlocked := Some(SortBy(Itself, names));
          return true;
        }
      }
      finalizer := false;
      requeue := false;
    }
  }

  ghost predicate InUse(h: Hash, xrds: seq<Config>, crds: seq<Config>, servers: seq<Server>, server: string) {
    exists c :: (c in xrds || c in crds) && ServedBy(h, c, servers, server)
  }

  /** An unforced delete is held exactly while some config of either kind is assigned to
      the server or has its target pointed at it, and names exactly those configs. */
  lemma HeldExactlyWhileInUse(h: Hash, xrds: seq<Config>, crds: seq<Config>, servers: seq<Server>, server: string, annotations: map<string, string>)
    requires !Forced(annotations)
    ensures var v := DeleteVerdict(h, xrds, crds, servers, server, annotations, true);
      && (v.Held? <==> InUse(h, xrds, crds, servers, server))
      && (v.Released? <==> !InUse(h, xrds, crds, servers, server))
  {
    var x, c := Served(h, xrds, servers, server), Served(h, crds, servers, server);
    var names := ConfigNames(x) + ConfigNames(c);
    if names != [] {
      var d := if x != [] then x[0] else c[0];
      assert d in x || d in c;
      assert InUse(h, xrds, crds, servers, server);
    } else {
      assert x == [] && c == [];
    }
  }

  lemma HeldNames(h: Hash, xrds: seq<Config>, crds: seq<Config>, servers: seq<Server>, server: string, annotations: map<string, string>, n: string)
    requires !Forced(annotations) && InUse(h, xrds, crds, servers, server)
    ensures var v := DeleteVerdict(h, xrds, crds, servers, server, annotations, true);
      v.Held? && (n in v.names <==> exists c :: (c in xrds || c in crds) && ServedBy(h, c, servers, server) && c.name == n)
  {
    HeldExactlyWhileInUse(h, xrds, crds, servers, server, annotations);
    NamedBy(Served(h, xrds, servers, server), n);
    NamedBy(Served(h, crds, servers, server), n);
  }

  lemma NamedBy(configs: seq<Config>, n: string)
    ensures n in ConfigNames(configs) <==> exists c :: c in configs && c.name == n
  {
    if n in ConfigNames(configs) {
      var i :| 0 <= i < |configs| && ConfigNames(configs)[i] == n;
      assert configs[i] in configs;
    }
    if exists c :: c in configs && c.name == n {
      var c :| c in configs && c.name == n;
      var i :| 0 <= i < |configs| && configs[i] == c;
      assert ConfigNames(configs)[i] == n;
    }
  }
}
