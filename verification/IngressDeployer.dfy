/** Bringing the Ingress objects of an application in line with its groups of hosts. */
module IngressDeployer {
  import opened Values
  import opened HostPairs
  import opened IngressItems
  import opened IngressGroups
  import opened CommonNames
  import Text

  type Strings = map<string, string>

  const APP := "app"
  const DEPLOYMENT_ID := "fiaas/deployment_id"
  const EXPOSE := "fiaas/expose"
  const TLS_ACME := "kubernetes.io/tls-acme"

  datatype Rule = Rule(host: string, paths: seq<PathMapping>)
  datatype TlsEntry = TlsEntry(hosts: seq<string>, secretName: string)
  datatype Ingress = Ingress(labels: Strings, annotations: Strings, rules: seq<Rule>, tls: seq<TlsEntry>)

  /** What a deployment brings with it besides the hosts. */
  datatype Setting = Setting(app: AppSpec, customLabels: Strings, customAnnotations: Strings, labels: Strings, deploymentId: string,
                             useTls: bool, anyIssuer: bool, entryPerHost: bool, digest: Digest, suffixes: seq<string>)
  {
    /** The labels of the deployment override those of the application. */
    function Labels(): Strings {
      customLabels + (labels + map[APP := app.name, DEPLOYMENT_ID := deploymentId])
    }
  }

  // ---- One object ----

  function RulesOf(items: seq<Item>): seq<Rule> {
    seq(|items|, i requires 0 <= i < |items| => Rule(items[i].host, Firsts(items[i].paths)))
  }

  function HostsOf(items: seq<Item>): seq<string> {
    seq(|items|, i requires 0 <= i < |items| => items[i].host)
  }

  function EntriesPerHost(hosts: seq<string>): seq<TlsEntry> {
    if hosts == [] then []
    else (if |hosts[0]| < 64 then [TlsEntry([hosts[0]], hosts[0])] else []) + EntriesPerHost(hosts[1..])
  }

  function TlsOf(s: Setting, g: Group): seq<TlsEntry> {
    if !s.useTls then []
    else
      var hosts := HostsOf(g.items);
      (if s.entryPerHost then EntriesPerHost(hosts) else [])
      + [TlsEntry(if g.serial == 0 then CollapseHosts(s.digest, s.suffixes, hosts) else hosts, g.Name(s.app.name) + "-ingress-tls")]
  }

  function TlsAnnotations(s: Setting, g: Group): Strings {
    if !s.useTls then map[]
    else if s.anyIssuer then map[g.issuer.kind := Shown(g.issuer.name)]
    else map[TLS_ACME := "true"]
  }

  function Rendered(s: Setting, g: Group): Ingress {
    Ingress(s.Labels(),
            s.customAnnotations + g.annotations + map[EXPOSE := if g.explicitHost then "true" else "false"] + TlsAnnotations(s, g),
            RulesOf(g.items), TlsOf(s, g))
  }

  // ---- What one object holds ----

  /** The rule serves the item: its host, and each of its paths exactly once. */
  ghost predicate ServesItem(rule: Rule, x: Item) {
    && rule.host == x.host
    && (forall p :: p in rule.paths <==> p in x.paths)
    && (forall i, j :: 0 <= i < j < |rule.paths| ==> rule.paths[i] != rule.paths[j])
  }

  /** One rule for each item, in order. */
  lemma RulesServeItems(s: Setting, g: Group)
    ensures var rules := Rendered(s, g).rules;
            |rules| == |g.items| && forall i :: 0 <= i < |rules| ==> ServesItem(rules[i], g.items[i])
  {
    forall i | 0 <= i < |g.items| ensures ServesItem(RulesOf(g.items)[i], g.items[i]) {
      FirstsAreExact(g.items[i].paths);
    }
  }

  /** The annotation that asks for a certificate: the issuer's kind if there is an issuer, and a general one otherwise. */
  function Issuance(s: Setting, g: Group): string {
    if s.anyIssuer then g.issuer.kind else "kubernetes.io/tls-acme"
  }

  /** With TLS, it names the issuer or says `true`. */
  lemma IssuanceIsAnnotated(s: Setting, g: Group)
    requires s.useTls
    ensures var a := Rendered(s, g).annotations;
      && Issuance(s, g) in a
      && a[Issuance(s, g)] == if !s.anyIssuer then "true" else match g.issuer.name case Some(n) => n case None => "None"
  {}

  /** The object says whether the ingress names its host, unless that is the annotation for certificates. */
  lemma ExposureIsAnnotated(s: Setting, g: Group)
    requires !(s.useTls && Issuance(s, g) == "fiaas/expose")
    ensures var a := Rendered(s, g).annotations;
            "fiaas/expose" in a && a["fiaas/expose"] == if g.explicitHost then "true" else "false"
  {}

  /** The others are those of the ingress, over those of the application. */
  lemma OtherAnnotationsAreKept(s: Setting, g: Group, k: string)
    requires k != "fiaas/expose" && !(s.useTls && k == Issuance(s, g))
    ensures var a := Rendered(s, g).annotations;
      && (k in a <==> k in g.annotations || k in s.customAnnotations)
      && (k in a ==> a[k] == if k in g.annotations then g.annotations[k] else s.customAnnotations[k])
  {}

  /** The labels are the application's, over them those of the deployment, over them its name and the deployment id. */
  lemma LabelsAreExact(s: Setting, g: Group)
    ensures var l := Rendered(s, g).labels;
      && l.Keys == s.customLabels.Keys + s.labels.Keys + {"app", "fiaas/deployment_id"}
      && l["app"] == s.app.name && l["fiaas/deployment_id"] == s.deploymentId
      && forall k :: k in l && k != "app" && k != "fiaas/deployment_id" ==>
           l[k] == if k in s.labels then s.labels[k] else s.customLabels[k]
  {}

  /** The hosts short enough for a certificate of their own. */
  lemma {:induction false} EntriesAreForShortHosts(hosts: seq<string>, host: string)
    ensures TlsEntry([host], host) in EntriesPerHost(hosts) <==> host in hosts && |host| < 64
    ensures forall e :: e in EntriesPerHost(hosts) ==> e == TlsEntry([e.secretName], e.secretName)
    decreases |hosts|
  {
    if hosts == [] {
    } else {
      EntriesAreForShortHosts(hosts[1..], host);
      assert hosts == [hosts[0]] + hosts[1..];
    }
  }

  predicate AreHosts(hosts: seq<string>, items: seq<Item>) {
    |hosts| == |items| && forall i :: 0 <= i < |hosts| ==> hosts[i] == items[i].host
  }

  /**
   Without TLS there are no entries. With it the last entry is for all hosts of the object, in order, and
   in the default object a common name may stand before them.
   */
  lemma LastEntryIsForAllHosts(s: Setting, g: Group, hosts: seq<string>)
    requires AreHosts(hosts, g.items)
    ensures var tls := Rendered(s, g).tls;
      && (!s.useTls <==> tls == [])
      && (s.useTls ==> tls[|tls|-1].secretName == g.Name(s.app.name) + "-ingress-tls")
      && (s.useTls ==> tls[|tls|-1].hosts == if g.serial == 0 then CollapseHosts(s.digest, s.suffixes, hosts) else hosts)
  {
    assert hosts == HostsOf(g.items);
  }

  /** Other entries are there only if each host is to have its own, and are for exactly the hosts of fewer than 64 characters. */
  lemma OtherEntriesAreForShortHosts(s: Setting, g: Group, hosts: seq<string>, host: string)
    requires AreHosts(hosts, g.items) && s.useTls
    ensures var tls := Rendered(s, g).tls;
      && tls != []
      && (!s.entryPerHost ==> |tls| == 1)
      && (s.entryPerHost ==> (TlsEntry([host], host) in tls[..|tls|-1] <==> host in hosts && |host| < 64))
  {
    assert hosts == HostsOf(g.items);
    EntriesAreForShortHosts(hosts, host);
    var others := if s.entryPerHost then EntriesPerHost(hosts) else [];
    var tls := Rendered(s, g).tls;
    assert |tls| == |others| + 1 && tls[..|others|] == others;
  }

  // ---- The objects of a namespace ----

  type Objects = map<string, Ingress>

  predicate OwnedBy(i: Ingress, app: string) {
    APP in i.labels && i.labels[APP] == app && DEPLOYMENT_ID in i.labels
  }

  predicate Stale(i: Ingress, s: Setting) {
    OwnedBy(i, s.app.name) && i.labels[DEPLOYMENT_ID] != s.deploymentId
  }

  /** The names under which the groups that have items are created. */
  function NamesOf(s: Setting, groups: seq<Group>): set<string> {
    set i | 0 <= i < |groups| && groups[i].items != [] :: groups[i].Name(s.app.name)
  }

  ghost predicate DistinctNames(s: Setting, groups: seq<Group>) {
    forall i, j :: 0 <= i < j < |groups| ==> groups[i].Name(s.app.name) != groups[j].Name(s.app.name)
  }

  ghost predicate InPlace(objects: Objects, s: Setting, g: Group) {
    g.Name(s.app.name) in objects && objects[g.Name(s.app.name)] == Rendered(s, g)
  }

  ghost predicate AllInPlace(objects: Objects, s: Setting, groups: seq<Group>) {
    forall i :: 0 <= i < |groups| && groups[i].items != [] ==> InPlace(objects, s, groups[i])
  }

  /** The groups are in place, and otherwise only stale objects of the application are gone. */
  ghost predicate Reconciled(before: Objects, after: Objects, s: Setting, groups: seq<Group>) {
    && AllInPlace(after, s, groups)
    && (forall n :: n !in NamesOf(s, groups) ==>
          (n in after <==> n in before && !Stale(before[n], s)) && (n in after ==> after[n] == before[n]))
  }

  class Cluster {
    var ingresses: Objects

    constructor ()
      ensures ingresses == map[]
    {
      ingresses := map[];
    }

    /** Creates the object, or overwrites the one of that name. */
    method CreateIngress(s: Setting, g: Group)
      modifies this
      ensures ingresses == old(ingresses)[g.Name(s.app.name) := Rendered(s, g)]
    {
      ingresses := ingresses[g.Name(s.app.name) := Rendered(s, g)];
    }

    /** Deletes by label selector: of the application's objects, those of this deployment stay. */
    method DeleteUnused(s: Setting)
      modifies this
      ensures forall n :: n in ingresses <==>
                && n in old(ingresses)
                && (OwnedBy(old(ingresses)[n], s.app.name) ==> old(ingresses)[n].labels[DEPLOYMENT_ID] == s.deploymentId)
      ensures forall n :: n in ingresses ==> ingresses[n] == old(ingresses)[n]
    {
      ingresses := map n | n in ingresses && !Stale(ingresses[n], s) :: ingresses[n];
    }

    method Create(s: Setting, groups: seq<Group>)
      requires DistinctNames(s, groups)
      modifies this
      ensures Reconciled(old(ingresses), ingresses, s, groups)
    {
      for k := 0 to |groups|
        invariant Created(old(ingresses), ingresses, s, groups[..k])
      {
        ghost var now := ingresses;
        if |groups[k].items| != 0 {
          CreateIngress(s, groups[k]);
        }
        CreatedGrows(old(ingresses), now, ingresses, s, groups, k);
      }
      assert groups[..|groups|] == groups;
      ghost var created := ingresses;
      DeleteUnused(s);
      UnusedIsDeleted(old(ingresses), created, ingresses, s, groups);
    }
  }

  /** The groups are in place, and everything else is as before. */
  ghost predicate Created(before: Objects, now: Objects, s: Setting, groups: seq<Group>) {
    && AllInPlace(now, s, groups)
    && (forall n :: n !in NamesOf(s, groups) ==> (n in now <==> n in before) && (n in now ==> now[n] == before[n]))
  }

  lemma CreatedGrows(before: Objects, now: Objects, next: Objects, s: Setting, groups: seq<Group>, k: nat)
    requires DistinctNames(s, groups) && k < |groups| && Created(before, now, s, groups[..k])
    requires next == if groups[k].items != [] then now[groups[k].Name(s.app.name) := Rendered(s, groups[k])] else now
    ensures Created(before, next, s, groups[..k+1])
  {
    NamesGrow(s, groups, k);
    forall i | 0 <= i <= k && groups[i].items != [] ensures InPlace(next, s, groups[i]) {
      if i < k {
        EarlierStaysInPlace(before, now, next, s, groups, k, i);
      }
    }
  }

  lemma EarlierStaysInPlace(before: Objects, now: Objects, next: Objects, s: Setting, groups: seq<Group>, k: nat, i: nat)
    requires DistinctNames(s, groups) && i < k < |groups| && Created(before, now, s, groups[..k]) && groups[i].items != []
    requires next == if groups[k].items != [] then now[groups[k].Name(s.app.name) := Rendered(s, groups[k])] else now
    ensures InPlace(next, s, groups[i])
  {
    assert groups[..k][i] == groups[i] && groups[i].Name(s.app.name) != groups[k].Name(s.app.name);
    assert InPlace(now, s, groups[i]);
  }

  lemma UnusedIsDeleted(before: Objects, created: Objects, after: Objects, s: Setting, groups: seq<Group>)
    requires Created(before, created, s, groups)
    requires forall n :: n in after <==> n in created && !Stale(created[n], s)
    requires forall n :: n in after ==> after[n] == created[n]
    ensures Reconciled(before, after, s, groups)
  {
    forall i | 0 <= i < |groups| && groups[i].items != [] ensures InPlace(after, s, groups[i]) {
      assert InPlace(created, s, groups[i]);
      RenderedIsOwned(s, groups[i]);
    }
  }

  lemma NamesGrow(s: Setting, groups: seq<Group>, k: nat)
    requires k < |groups|
    ensures NamesOf(s, groups[..k+1]) ==
            NamesOf(s, groups[..k]) + if groups[k].items != [] then {groups[k].Name(s.app.name)} else {}
  {
    var a, b := groups[..k], groups[..k+1];
    assert forall i :: 0 <= i < k ==> a[i] == b[i];
    assert b[k] == groups[k];
    forall n ensures n in NamesOf(s, b) <==> n in NamesOf(s, a) || (groups[k].items != [] && n == groups[k].Name(s.app.name)) {
      if n in NamesOf(s, a) {
        var i :| 0 <= i < |a| && a[i].items != [] && a[i].Name(s.app.name) == n;
        assert b[i] == a[i];
      }
      if groups[k].items != [] && n == groups[k].Name(s.app.name) { assert b[k].Name(s.app.name) == n; }
    }
  }

  // ---- What reconciliation achieves ----

  lemma RenderedIsOwned(s: Setting, g: Group)
    ensures OwnedBy(Rendered(s, g), s.app.name) && !Stale(Rendered(s, g), s)
  {}

  /** No object of the application carries the deployment id already, other than under a name about to be written. */
  predicate IdIsNew(before: Objects, s: Setting, groups: seq<Group>) {
    forall n :: n in before && OwnedBy(before[n], s.app.name) && before[n].labels[DEPLOYMENT_ID] == s.deploymentId ==>
      n in NamesOf(s, groups)
  }

  /** The application's objects are exactly its groups with items, if and only if the deployment id was not in use. */
  lemma OwnObjectsAreTheGroups(before: Objects, after: Objects, s: Setting, groups: seq<Group>)
    requires Reconciled(before, after, s, groups)
    ensures (forall n :: n in after && OwnedBy(after[n], s.app.name) <==> n in NamesOf(s, groups)) <==> IdIsNew(before, s, groups)
  {
    forall n | n in NamesOf(s, groups) ensures n in after && OwnedBy(after[n], s.app.name) {
      var i :| 0 <= i < |groups| && groups[i].items != [] && groups[i].Name(s.app.name) == n;
      assert InPlace(after, s, groups[i]);
      RenderedIsOwned(s, groups[i]);
    }
  }

  /** No name about to be written belongs to somebody else. */
  predicate NamesAreFree(before: Objects, s: Setting, groups: seq<Group>) {
    forall n :: n in NamesOf(s, groups) && n in before ==> OwnedBy(before[n], s.app.name)
  }

  /** What belongs to others stays as it is, if and only if none of it has the name of one of the groups. */
  lemma OtherObjectsAreUntouched(before: Objects, after: Objects, s: Setting, groups: seq<Group>)
    requires Reconciled(before, after, s, groups)
    ensures (forall n :: n in before && !OwnedBy(before[n], s.app.name) ==> n in after && after[n] == before[n])
            <==> NamesAreFree(before, s, groups)
    ensures after.Keys <= before.Keys + NamesOf(s, groups)
  {
    forall n | n in NamesOf(s, groups) ensures n in after && OwnedBy(after[n], s.app.name) {
      var i :| 0 <= i < |groups| && groups[i].items != [] && groups[i].Name(s.app.name) == n;
      assert InPlace(after, s, groups[i]);
      RenderedIsOwned(s, groups[i]);
    }
  }

  /** Reconciling again changes nothing. */
  lemma ReconcilingTwiceIsOnce(before: Objects, after: Objects, again: Objects, s: Setting, groups: seq<Group>)
    requires Reconciled(before, after, s, groups) && Reconciled(after, again, s, groups)
    ensures again == after
  {
    forall n ensures (n in again <==> n in after) && (n in again ==> again[n] == after[n]) {
      if n in NamesOf(s, groups) {
        var i :| 0 <= i < |groups| && groups[i].items != [] && groups[i].Name(s.app.name) == n;
        assert InPlace(after, s, groups[i]) && InPlace(again, s, groups[i]);
      }
    }
  }

  // ---- The whole deployment ----

  predicate ShouldHaveIngress(app: AppSpec, suffixes: seq<string>) {
    && (suffixes != [] || HasExplicitHost(app.ingresses))
    && app.ingresses != []
    && exists i :: 0 <= i < |app.ports| && app.ports[i].protocol == "http"
  }

  /** All items of an application, paired; None where no http port can be found. */
  function AllItems(cfg: Config, app: AppSpec, rewrite: string -> string, pairs: Pairs, defaultPath: string): Option<seq<Item>> {
    match DefaultItems(app, cfg.suffixes, defaultPath)
    case None => None
    case Some(defaults) =>
      var items := ExplicitItems(app.ingresses, rewrite) + defaults;
      Some(Paired(items, items, pairs))
  }

  method GroupIngresses(cfg: Config, app: AppSpec, rewrite: string -> string, pairs: Pairs, defaultPath: string)
    returns (groups: Option<seq<Group>>)
    ensures groups == match AllItems(cfg, app, rewrite, pairs, defaultPath)
                      case None => None
                      case Some(items) => Some(Grouped(RulesFor(cfg, app), items).Groups())
  {
    match DefaultItems(app, cfg.suffixes, defaultPath) {
      case None => groups := None;
      case Some(defaults) =>
        var items := PairHosts(ExplicitItems(app.ingresses, rewrite) + defaults, pairs);
        var all := GroupItems(RulesFor(cfg, app), items);
        groups := Some(all);
    }
  }

  /** Returns false where the deployment raises, which it does before touching the cluster. */
  method Deploy(cluster: Cluster, cfg: Config, s: Setting, rewrite: string -> string, pairs: Pairs, defaultPath: string)
    returns (ok: bool)
    modifies cluster
    ensures if !ShouldHaveIngress(s.app, cfg.suffixes) then ok && Reconciled(old(cluster.ingresses), cluster.ingresses, s, [])
            else
              match AllItems(cfg, s.app, rewrite, pairs, defaultPath)
              case None => !ok && cluster.ingresses == old(cluster.ingresses)
              case Some(items) =>
                ok && Reconciled(old(cluster.ingresses), cluster.ingresses, s, Grouped(RulesFor(cfg, s.app), items).Groups())
  {
    if !ShouldHaveIngress(s.app, cfg.suffixes) {
      cluster.DeleteUnused(s);
      return true;
    }
    var groups := GroupIngresses(cfg, s.app, rewrite, pairs, defaultPath);
    match groups {
      case None => ok := false;
      case Some(gs) =>
        var items := AllItems(cfg, s.app, rewrite, pairs, defaultPath).value;
        forall i, j | 0 <= i < j < |gs| ensures gs[i].Name(s.app.name) != gs[j].Name(s.app.name) {
          NamesAreDistinct(RulesFor(cfg, s.app), items, s.app.name, i, j);
        }
        cluster.Create(s, gs);
        ok := true;
    }
  }

  /** An item that comes first and is annotated gets the group with serial 1 to itself. */
  lemma {:induction false} FirstAnnotatedIsSecond(r: Rules, items: seq<Item>)
    requires items != [] && items[0].annotations != map[]
    ensures var g := Grouped(r, items); g.annotated != [] && g.annotated[0].serial == 1 && g.annotated[0].items == [items[0]]
    decreases |items|
  {
    if |items| == 1 {
      assert items[..0] == [] && Grouped(r, items[..0]) == Start(r);
    } else {
      FirstAnnotatedIsSecond(r, items[..|items|-1]);
    }
  }

  lemma GroupTakesName(before: Objects, after: Objects, s: Setting, groups: seq<Group>, i: nat)
    requires Reconciled(before, after, s, groups) && i < |groups| && groups[i].items != []
    ensures var name := groups[i].Name(s.app.name);
            name in after && forall app :: OwnedBy(after[name], app) <==> app == s.app.name
  {
    assert InPlace(after, s, groups[i]);
    RenderedIsOwned(s, groups[i]);
  }

  lemma FirstAnnotatedTakesName(before: Objects, after: Objects, s: Setting, r: Rules, items: seq<Item>)
    requires items != [] && items[0].annotations != map[] && Reconciled(before, after, s, Grouped(r, items).Groups())
    ensures var other := s.app.name + "-1";
            other in after && OwnedBy(after[other], s.app.name) && !OwnedBy(after[other], other)
  {
    SecondGroup(r, items);
    SecondName(Grouped(r, items).Groups()[1], s.app.name);
    GroupTakesName(before, after, s, Grouped(r, items).Groups(), 1);
  }

  lemma SecondGroup(r: Rules, items: seq<Item>)
    requires items != [] && items[0].annotations != map[]
    ensures var groups := Grouped(r, items).Groups(); |groups| > 1 && groups[1].serial == 1 && groups[1].items != []
  {
    FirstAnnotatedIsSecond(r, items);
    assert Grouped(r, items).Groups()[1] == Grouped(r, items).annotated[0];
  }

  lemma SecondName(g: Group, app: string)
    requires g.serial == 1
    ensures g.Name(app) == app + "-1" && g.Name(app) != app
  {
    assert Text.Decimal(1) == "1";
    assert |app + "-1"| > |app|;
    assert app + "-" + "1" == app + "-1";
  }

  lemma FirstIngressIsFirstItem(cfg: Config, app: AppSpec, rewrite: string -> string, pairs: Pairs, defaultPath: string)
    requires app.ingresses != [] && app.ingresses[0].host.Some? && app.ingresses[0].host != Some("")
    requires AllItems(cfg, app, rewrite, pairs, defaultPath).Some?
    ensures var items := AllItems(cfg, app, rewrite, pairs, defaultPath).value;
            items != [] && items[0].annotations == app.ingresses[0].annotations
  {
    var items := ExplicitItems(app.ingresses, rewrite) + DefaultItems(app, cfg.suffixes, defaultPath).value;
    PairedIsExact(items, items, pairs);
    assert items[0].annotations == app.ingresses[0].annotations;
  }

  /**
   Two applications can be after one name. An application whose first ingress names a host and is
   annotated, say `a`, takes over the object of the application that has its name with `-1` appended.
   */
  lemma NamesOfApplicationsCollide(before: Objects, after: Objects, cfg: Config, s: Setting,
                                   rewrite: string -> string, pairs: Pairs, defaultPath: string)
    requires var first := s.app.ingresses;
             first != [] && first[0].host.Some? && first[0].host != Some("") && first[0].annotations != map[]
    requires AllItems(cfg, s.app, rewrite, pairs, defaultPath).Some?
    requires var items := AllItems(cfg, s.app, rewrite, pairs, defaultPath).value;
             Reconciled(before, after, s, Grouped(RulesFor(cfg, s.app), items).Groups())
    requires var other := s.app.name + "-1"; other in before && OwnedBy(before[other], other)
    ensures var other := s.app.name + "-1";
            other in after && OwnedBy(after[other], s.app.name) && !OwnedBy(after[other], other)
  {
    FirstIngressIsFirstItem(cfg, s.app, rewrite, pairs, defaultPath);
    FirstAnnotatedTakesName(before, after, s, RulesFor(cfg, s.app), AllItems(cfg, s.app, rewrite, pairs, defaultPath).value);
  }

  /** For instance, this application `a` takes the object of `a-1`. */
  lemma AnnotatedIngressTakesName(before: Objects, after: Objects, cfg: Config, s: Setting,
                                  rewrite: string -> string, pairs: Pairs, defaultPath: string)
    requires s.app == AppSpec("a", [SpecItem(Some("h"), [], map["x" := "y"])], [Port("http", "http", 80)], None)
    requires cfg.suffixes == ["s"]
    ensures ShouldHaveIngress(s.app, cfg.suffixes) && AllItems(cfg, s.app, rewrite, pairs, defaultPath).Some?
    ensures var items := AllItems(cfg, s.app, rewrite, pairs, defaultPath).value;
            && "a-1" in before && OwnedBy(before["a-1"], "a-1")
            && Reconciled(before, after, s, Grouped(RulesFor(cfg, s.app), items).Groups())
            ==> "a-1" in after && OwnedBy(after["a-1"], "a") && !OwnedBy(after["a-1"], "a-1")
  {
    assert "x" in s.app.ingresses[0].annotations;
    PortIsFound(s.app, cfg.suffixes, defaultPath);
    var items := AllItems(cfg, s.app, rewrite, pairs, defaultPath).value;
    assert "a" + "-1" == "a-1";
    if "a-1" in before && OwnedBy(before["a-1"], "a-1") && Reconciled(before, after, s, Grouped(RulesFor(cfg, s.app), items).Groups()) {
      NamesOfApplicationsCollide(before, after, cfg, s, rewrite, pairs, defaultPath);
    }
  }

  lemma PortIsFound(app: AppSpec, suffixes: seq<string>, defaultPath: string)
    requires |app.ingresses| == 1 && app.ingresses[0].annotations != map[]
    requires |app.ports| == 1 && app.ports[0].name == "http"
    ensures DefaultItems(app, suffixes, defaultPath).Some?
  {
    assert AllPaths(app.ingresses) == [];
  }

  // ---- What is served ----

  ghost predicate ServedBy(i: Ingress, x: Item) {
    exists k :: 0 <= k < |i.rules| && ServesItem(i.rules[k], x)
  }

  lemma {:induction false} CopiedIsGrouped(groups: seq<Group>, x: Item)
    ensures Copies(groups, x) > 0 <==> exists i :: 0 <= i < |groups| && x in groups[i].items
    decreases |groups|
  {
    if groups == [] {
    } else {
      CopiedIsGrouped(groups[1..], x);
      if exists i :: 0 <= i < |groups[1..]| && x in groups[1..][i].items {
        var i :| 0 <= i < |groups[1..]| && x in groups[1..][i].items;
        assert groups[i+1] == groups[1..][i];
      }
      if exists i :: 0 <= i < |groups| && x in groups[i].items {
        var i :| 0 <= i < |groups| && x in groups[i].items;
        assert i > 0 ==> groups[1..][i-1] == groups[i];
      }
    }
  }

  lemma ItemIsServed(s: Setting, g: Group, x: Item)
    requires x in g.items
    ensures ServedBy(Rendered(s, g), x)
  {
    RulesServeItems(s, g);
    var k :| 0 <= k < |g.items| && g.items[k] == x;
    assert ServesItem(Rendered(s, g).rules[k], x);
  }

  /** After a deployment every host is served by one of the application's objects, with exactly its paths. */
  lemma EveryItemIsServed(before: Objects, after: Objects, s: Setting, r: Rules, items: seq<Item>, x: Item)
    requires Reconciled(before, after, s, Grouped(r, items).Groups()) && x in items
    ensures exists n :: n in after && OwnedBy(after[n], s.app.name) && ServedBy(after[n], x)
  {
    var groups := Grouped(r, items).Groups();
    EveryItemInOneGroup(r, items, x);
    CopiedIsGrouped(groups, x);
    var i :| 0 <= i < |groups| && x in groups[i].items;
    assert InPlace(after, s, groups[i]);
    RenderedIsOwned(s, groups[i]);
    ItemIsServed(s, groups[i], x);
  }

  /** And the application's objects serve nothing else, if the deployment id was not in use. */
  lemma NothingElseIsServed(before: Objects, after: Objects, s: Setting, r: Rules, items: seq<Item>, n: string, k: nat)
    requires var groups := Grouped(r, items).Groups(); Reconciled(before, after, s, groups) && IdIsNew(before, s, groups)
    requires n in after && OwnedBy(after[n], s.app.name) && k < |after[n].rules|
    ensures exists x :: x in items && ServesItem(after[n].rules[k], x)
  {
    var groups := Grouped(r, items).Groups();
    OwnObjectsAreTheGroups(before, after, s, groups);
    var i :| 0 <= i < |groups| && groups[i].items != [] && groups[i].Name(s.app.name) == n;
    assert InPlace(after, s, groups[i]);
    RulesServeItems(s, groups[i]);
    var x := groups[i].items[k];
    EveryItemInOneGroup(r, items, x);
    assert x in groups[i].items;
    CopiedIsGrouped(groups, x);
    assert x in multiset(items);
  }

  /**
   The first group has the application's name, and each other one a number of its own below the number of
   groups behind a dash.
   */
  lemma GroupsAreNumbered(r: Rules, items: seq<Item>, app: string, i: nat)
    requires i < |Grouped(r, items).Groups()|
    ensures var groups := Grouped(r, items).Groups();
      && (i == 0 ==> groups[i].Name(app) == app)
      && (i > 0 ==> 0 < groups[i].serial < |groups| && groups[i].Name(app) == app + "-" + Text.Decimal(groups[i].serial))
  {
    DefaultIsClass(r, items);
    SerialsAreDistinct(r, items);
    assert Grouped(r, items).Groups()[0] == Grouped(r, items).default;
  }

  /**
   A group of an annotated ingress counts as naming its host; any other one does so exactly if some
   ingress without annotations has a host.
   */
  lemma GroupsAreExposed(cfg: Config, app: AppSpec, items: seq<Item>, i: nat)
    requires i < |Grouped(RulesFor(cfg, app), items).Groups()|
    ensures var g := Grouped(RulesFor(cfg, app), items).Groups()[i];
      g.explicitHost <==> g.annotations != map[] || exists x :: x in app.ingresses && x.host != None && x.annotations == map[]
  {
    ExplicitHostIsNamed(app.ingresses);
    GroupIsExposedByRules(RulesFor(cfg, app), items, i);
  }

  predicate ExposedBy(r: Rules, g: Group) {
    g.explicitHost <==> g.annotations != map[] || r.explicitHost
  }

  lemma GroupIsExposedByRules(r: Rules, items: seq<Item>, i: nat)
    requires i < |Grouped(r, items).Groups()|
    ensures ExposedBy(r, Grouped(r, items).Groups()[i])
  {
    var g := Grouped(r, items);
    var k := i - 1 - |g.annotated|;
    assert g.Groups()[i] == if i == 0 then g.default else if k < 0 then g.annotated[i-1] else g.keyed[k].1;
    if i == 0 {
      DefaultIsClass(r, items);
    } else if k < 0 {
      AnnotatedIsExposed(r, items, i - 1);
    } else {
      KeyedIsExposed(r, items, k);
    }
  }

  lemma AnnotatedIsExposed(r: Rules, items: seq<Item>, i: nat)
    requires i < |Grouped(r, items).annotated|
    ensures ExposedBy(r, Grouped(r, items).annotated[i])
  {
    AnnotatedAreSingles(r, items);
    OfClass(r, items, Annotated, Of(r, items, Annotated)[i]);
  }

  lemma KeyedIsExposed(r: Rules, items: seq<Item>, k: nat)
    requires k < |Grouped(r, items).keyed|
    ensures ExposedBy(r, Grouped(r, items).keyed[k].1)
  {
    KeyedAreCollected(r, items);
    assert EntryFor(r, items, Firsts(KeysOf(r, items))[k], Grouped(r, items).keyed[k]);
  }

  lemma ExplicitHostIsNamed(ingresses: seq<SpecItem>)
    ensures HasExplicitHost(ingresses) <==> exists x :: x in ingresses && x.host != None && x.annotations == map[]
  {
    if HasExplicitHost(ingresses) {
      var i :| 0 <= i < |ingresses| && ingresses[i].host.Some? && ingresses[i].annotations == map[];
      assert ingresses[i] in ingresses;
    }
  }

  /** An application has ingresses unless it asks for none, has no http port, or none of its hosts can be told. */
  lemma ShouldHaveIngressExactly(app: AppSpec, suffixes: seq<string>)
    ensures !ShouldHaveIngress(app, suffixes) <==>
              || app.ingresses == []
              || (forall p :: p in app.ports ==> p.protocol != "http")
              || (suffixes == [] && forall x :: x in app.ingresses ==> x.host == None || x.annotations != map[])
  {
    if HasExplicitHost(app.ingresses) {
      var i :| 0 <= i < |app.ingresses| && app.ingresses[i].host.Some? && app.ingresses[i].annotations == map[];
      assert app.ingresses[i] in app.ingresses;
    }
    if exists i :: 0 <= i < |app.ports| && app.ports[i].protocol == "http" {
      var i :| 0 <= i < |app.ports| && app.ports[i].protocol == "http";
      assert app.ports[i] in app.ports;
    }
  }
}
