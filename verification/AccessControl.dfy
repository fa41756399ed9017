/** Access control: building the rules, first-match evaluation, and the companion lookup of credentials. */
module AccessControl {
  import opened Bytes
  import opened Address
  import opened Credentials
  import opened DomainFilter

  datatype Ip = V4(v4: Octets4) | V6(v6: Octets16)

  datatype Net = Net(base: Ip, prefix: nat)

  datatype Action = Allow | Deny | Authenticate

  /** Pattern matching, network parsing and containment, and upper-casing: the libraries' part. */
  datatype Libraries = Libraries(
    matchers: Matchers, parseNet: Text -> Option<Net>, contains: (Net, Ip) -> bool, upper: Text -> Text)

  datatype AuthConfig = AuthConfig(basic: bool, users: Option<seq<Credential>>)

  datatype RuleConfig = RuleConfig(
    action: Action, srcIp: Option<seq<Text>>, dstDomain: Option<seq<Text>>, httpMethod: Option<seq<Text>>,
    auth: Option<AuthConfig>)

  datatype Rule = Rule(
    action: Action, srcIp: Option<seq<Net>>, dstDomain: Option<Filter>, httpMethods: Option<set<Text>>,
    authUsers: Option<seq<Credential>>)

  datatype Controller = Controller(defaultAction: Action, rules: seq<Rule>)

  datatype Request = Request(ip: Ip, domain: Option<Text>, verb: Option<Text>)

  // Matching a rule.

  predicate MatchesIp(libs: Libraries, rule: Rule, ip: Ip) {
    rule.srcIp.Some? ==> exists net :: net in rule.srcIp.value && libs.contains(net, ip)
  }

  predicate MatchesDomain(libs: Libraries, rule: Rule, domain: Option<Text>) {
    match (rule.dstDomain, domain)
    case (Some(filter), Some(d)) => Matches(libs.matchers, filter, d)
    case (Some(_), None) => false
    case (None, _) => true
  }

  predicate MatchesMethod(libs: Libraries, rule: Rule, verb: Option<Text>) {
    match (rule.httpMethods, verb)
    case (Some(methods), Some(m)) => libs.upper(m) in methods
    case (Some(_), None) => false
    case (None, _) => true
  }

  predicate RuleMatches(libs: Libraries, rule: Rule, r: Request) {
    MatchesIp(libs, rule, r.ip) && MatchesDomain(libs, rule, r.domain)
  }

  predicate RuleMatchesFull(libs: Libraries, rule: Rule, r: Request) {
    MatchesIp(libs, rule, r.ip) && MatchesDomain(libs, rule, r.domain) && MatchesMethod(libs, rule, r.verb)
  }

  /** The least index, from `i` on, of a rule that matches; `full` says whether methods count. */
  function FirstMatch(libs: Libraries, rules: seq<Rule>, i: nat, r: Request, full: bool): (k: Option<nat>)
    requires i <= |rules|
    ensures k.Some? ==>
              && i <= k.value < |rules| && Applies(libs, rules[k.value], r, full)
              && forall j :: i <= j < k.value ==> !Applies(libs, rules[j], r, full)
    ensures k.None? ==> forall j :: i <= j < |rules| ==> !Applies(libs, rules[j], r, full)
    decreases |rules| - i
  {
    if i == |rules| then None
    else if Applies(libs, rules[i], r, full) then Some(i)
    else FirstMatch(libs, rules, i + 1, r, full)
  }

  predicate Applies(libs: Libraries, rule: Rule, r: Request, full: bool) {
    if full then RuleMatchesFull(libs, rule, r) else RuleMatches(libs, rule, r)
  }

  function CheckRequest(libs: Libraries, c: Controller, r: Request): Action {
    match FirstMatch(libs, c.rules, 0, r, true)
    case Some(k) => c.rules[k].action
    case None => c.defaultAction
  }

  function CheckAccess(libs: Libraries, c: Controller, ip: Ip, domain: Option<Text>): Action {
    CheckRequest(libs, c, Request(ip, domain, None))
  }

  function GetAuthUsersForRule(libs: Libraries, c: Controller, ip: Ip, domain: Option<Text>): Option<seq<Credential>> {
    match FirstMatch(libs, c.rules, 0, Request(ip, domain, None), false)
    case Some(k) => if c.rules[k].action == Authenticate then c.rules[k].authUsers else None
    case None => if c.defaultAction == Authenticate then Some([]) else None
  }

  // Building the rules.

  predicate RuleCompiles(libs: Libraries, cfg: RuleConfig) {
    && (cfg.srcIp.Some? ==> forall s :: s in cfg.srcIp.value ==> libs.parseNet(s).Some?)
    && (cfg.dstDomain.Some? ==> forall p :: p in cfg.dstDomain.value ==> Compiles(libs.matchers, p))
  }

  /** `rule` is what `cfg` says. */
  ghost predicate Built(libs: Libraries, cfg: RuleConfig, rule: Rule) {
    && rule.action == cfg.action
    && (cfg.srcIp.Some? <==> rule.srcIp.Some?)
    && (cfg.srcIp.Some? ==> NetsOf(libs, cfg.srcIp.value, rule.srcIp.value))
    && (cfg.dstDomain.Some? <==> rule.dstDomain.Some?)
    && (cfg.dstDomain.Some? ==> Compiled(libs.matchers, cfg.dstDomain.value, rule.dstDomain.value))
    && (cfg.httpMethod.Some? <==> rule.httpMethods.Some?)
    && (cfg.httpMethod.Some? ==>
          forall m :: m in rule.httpMethods.value <==> exists v :: v in cfg.httpMethod.value && libs.upper(v) == m)
    && rule.authUsers == if cfg.auth.Some? && cfg.auth.value.basic then cfg.auth.value.users else None
  }

  predicate NetsOf(libs: Libraries, texts: seq<Text>, nets: seq<Net>) {
    |nets| == |texts| && forall i :: 0 <= i < |texts| ==> libs.parseNet(texts[i]) == Some(nets[i])
  }

  method ParseNets(libs: Libraries, texts: seq<Text>) returns (nets: Option<seq<Net>>)
    ensures nets.Some? <==> forall s :: s in texts ==> libs.parseNet(s).Some?
    ensures nets.Some? ==> NetsOf(libs, texts, nets.value)
  {
    var parsed: seq<Net> := [];
    for i := 0 to |texts|
      invariant NetsOf(libs, texts[..i], parsed)
    {
      var net := libs.parseNet(texts[i]);
      if net.None? {
        assert texts[i] in texts;
        return None;
      }
      parsed := parsed + [net.value];
    }
    assert texts[..|texts|] == texts;
    return Some(parsed);
  }

  method UpperSet(libs: Libraries, verbs: seq<Text>) returns (upper: set<Text>)
    ensures forall m :: m in upper <==> exists v :: v in verbs && libs.upper(v) == m
  {
    upper := {};
    for i := 0 to |verbs|
      invariant forall m :: m in upper <==> exists v :: v in verbs[..i] && libs.upper(v) == m
    {
      assert verbs[..i + 1] == verbs[..i] + [verbs[i]];
      upper := upper + {libs.upper(verbs[i])};
    }
    assert verbs[..|verbs|] == verbs;
  }

  method BuildRule(libs: Libraries, cfg: RuleConfig) returns (rule: Option<Rule>)
    ensures rule.Some? <==> RuleCompiles(libs, cfg)
    ensures rule.Some? ==> Built(libs, cfg, rule.value)
  {
    var srcIp: Option<seq<Net>> := None;
    if cfg.srcIp.Some? {
      srcIp := ParseNets(libs, cfg.srcIp.value);
      if srcIp.None? {
        return None;
      }
    }
    var dstDomain: Option<Filter> := None;
    if cfg.dstDomain.Some? {
      dstDomain := NewFilter(libs.matchers, cfg.dstDomain.value);
      if dstDomain.None? {
        return None;
      }
    }
    var httpMethods: Option<set<Text>> := None;
    if cfg.httpMethod.Some? {
      var methods := UpperSet(libs, cfg.httpMethod.value);
      httpMethods := Some(methods);
    }
    var authUsers := if cfg.auth.Some? && cfg.auth.value.basic then cfg.auth.value.users else None;
    return Some(Rule(cfg.action, srcIp, dstDomain, httpMethods, authUsers));
  }

  /** The controller of a configuration; one rule that does not compile refuses the whole. */
  method FromConfig(libs: Libraries, defaultAction: Action, configs: seq<RuleConfig>) returns (c: Option<Controller>)
    ensures c.Some? <==> forall i :: 0 <= i < |configs| ==> RuleCompiles(libs, configs[i])
    ensures c.Some? ==> BuiltAll(libs, defaultAction, configs, c.value)
  {
    var rules: seq<Rule> := [];
    for i := 0 to |configs|
      invariant |rules| == i
      invariant forall j :: 0 <= j < i ==> RuleCompiles(libs, configs[j]) && Built(libs, configs[j], rules[j])
    {
      var rule := BuildRule(libs, configs[i]);
      if rule.None? {
        return None;
      }
      rules := rules + [rule.value];
    }
    return Some(Controller(defaultAction, rules));
  }

  ghost predicate BuiltAll(libs: Libraries, defaultAction: Action, configs: seq<RuleConfig>, c: Controller) {
    && c.defaultAction == defaultAction && |c.rules| == |configs|
    && forall i :: 0 <= i < |configs| ==> Built(libs, configs[i], c.rules[i])
  }

  // What the configuration itself says about a request.

  ghost predicate ConfigMatches(libs: Libraries, cfg: RuleConfig, r: Request) {
    && (cfg.srcIp.Some? ==> exists i :: 0 <= i < |cfg.srcIp.value| && InNet(libs, cfg.srcIp.value[i], r.ip))
    && (cfg.dstDomain.Some? ==> r.domain.Some? && SomeMatches(libs.matchers, cfg.dstDomain.value, r.domain.value))
    && (cfg.httpMethod.Some? ==>
          r.verb.Some? && exists v :: v in cfg.httpMethod.value && libs.upper(v) == libs.upper(r.verb.value))
  }

  predicate InNet(libs: Libraries, text: Text, ip: Ip) {
    libs.parseNet(text).Some? && libs.contains(libs.parseNet(text).value, ip)
  }

  lemma BuiltRuleMeans(libs: Libraries, cfg: RuleConfig, rule: Rule, r: Request)
    requires Built(libs, cfg, rule)
    ensures RuleMatchesFull(libs, rule, r) <==> ConfigMatches(libs, cfg, r)
  {
  }

  /** First match, from the configuration to the decision: the least rule whose own conditions hold decides. */
  lemma FirstConfiguredRuleDecides(libs: Libraries, defaultAction: Action, configs: seq<RuleConfig>, c: Controller,
                                   r: Request, k: nat)
    requires BuiltAll(libs, defaultAction, configs, c)
    ensures && k < |configs| && ConfigMatches(libs, configs[k], r)
            && (forall j :: 0 <= j < k ==> !ConfigMatches(libs, configs[j], r))
       ==> CheckRequest(libs, c, r) == configs[k].action
    ensures (forall j :: 0 <= j < |configs| ==> !ConfigMatches(libs, configs[j], r))
       ==> CheckRequest(libs, c, r) == defaultAction
  {
    forall j | 0 <= j < |configs|
      ensures Applies(libs, c.rules[j], r, true) <==> ConfigMatches(libs, configs[j], r)
    {
      BuiltRuleMeans(libs, configs[j], c.rules[j], r);
    }
  }

  lemma FirstMatchIs(libs: Libraries, rules: seq<Rule>, r: Request, full: bool, k: nat)
    requires k < |rules| && Applies(libs, rules[k], r, full)
    requires forall j :: 0 <= j < k ==> !Applies(libs, rules[j], r, full)
    ensures FirstMatch(libs, rules, 0, r, full) == Some(k)
  {
  }

  /** Without a method, a rule with a method filter never decides, and the others decide as for any method. */
  lemma AccessSkipsMethodRules(libs: Libraries, c: Controller, ip: Ip, domain: Option<Text>, k: nat)
    ensures && k < |c.rules| && c.rules[k].httpMethods.None?
            && MatchesIp(libs, c.rules[k], ip) && MatchesDomain(libs, c.rules[k], domain)
            && (forall j :: 0 <= j < k && MatchesIp(libs, c.rules[j], ip) && MatchesDomain(libs, c.rules[j], domain)
                  ==> c.rules[j].httpMethods.Some?)
       ==> CheckAccess(libs, c, ip, domain) == c.rules[k].action
    ensures (forall j ::
               0 <= j < |c.rules| && MatchesIp(libs, c.rules[j], ip) && MatchesDomain(libs, c.rules[j], domain)
               ==> c.rules[j].httpMethods.Some?)
       ==> CheckAccess(libs, c, ip, domain) == c.defaultAction
  {
  }

  /** A rule that an earlier one subsumes can be deleted: no decision changes. */
  lemma SubsumedRuleIsDead(libs: Libraries, c: Controller, j: nat, k: nat, r: Request)
    requires j < k < |c.rules|
    requires forall q: Request :: RuleMatchesFull(libs, c.rules[k], q) ==> RuleMatchesFull(libs, c.rules[j], q)
    ensures CheckRequest(libs, c.(rules := c.rules[..k] + c.rules[k + 1..]), r) == CheckRequest(libs, c, r)
  {
    var shorter := c.rules[..k] + c.rules[k + 1..];
    match FirstMatch(libs, c.rules, 0, r, true)
    case Some(n) =>
      assert n != k by {
        assert Applies(libs, c.rules[k], r, true) ==> Applies(libs, c.rules[j], r, true);
      }
      FirstMatchIs(libs, shorter, r, true, if n < k then n else n - 1);
    case None =>
      assert FirstMatch(libs, shorter, 0, r, true) == None;
  }

  /** What the deciding rule of an access check says about credentials. */
  function UsersOfDecision(libs: Libraries, c: Controller, r: Request): Option<seq<Credential>> {
    match FirstMatch(libs, c.rules, 0, r, true)
    case Some(k) => if c.rules[k].action == Authenticate then c.rules[k].authUsers else None
    case None => if c.defaultAction == Authenticate then Some([]) else None
  }

  /** They are those of the deciding rule, nobody for the default, and only if the decision is to authenticate. */
  lemma DecidedUsersMean(libs: Libraries, c: Controller, r: Request)
    ensures var k := FirstMatch(libs, c.rules, 0, r, true);
            var users := if k.Some? then c.rules[k.value].authUsers else Some([]);
            UsersOfDecision(libs, c, r) == if CheckRequest(libs, c, r) == Authenticate then users else None
  {
  }

  /** The rule the lookup settles on, if any, lets this request through its method filter. */
  predicate SettledRuleTakes(libs: Libraries, c: Controller, r: Request) {
    var looked := FirstMatch(libs, c.rules, 0, r, false);
    looked.Some? ==> MatchesMethod(libs, c.rules[looked.value], r.verb)
  }

  /**
   * For every request: the lookup of credentials, which does not see the method, settles on the rule that decides the
   * request exactly when that rule's method filter lets it through.
   */
  lemma LookupFollowsDecisionIff(libs: Libraries, c: Controller, r: Request)
    ensures FirstMatch(libs, c.rules, 0, r, false) == FirstMatch(libs, c.rules, 0, r, true)
       <==> SettledRuleTakes(libs, c, r)
  {
    var looked := FirstMatch(libs, c.rules, 0, r, false);
    if looked.Some? && SettledRuleTakes(libs, c, r) {
      FirstMatchIs(libs, c.rules, r, true, looked.value);
    }
  }

  lemma {:induction false} LookupSeesNoVerb(libs: Libraries, rules: seq<Rule>, i: nat, r: Request)
    requires i <= |rules|
    ensures FirstMatch(libs, rules, i, r, false) == FirstMatch(libs, rules, i, r.(verb := None), false)
    decreases |rules| - i
  {
    if i < |rules| {
      LookupSeesNoVerb(libs, rules, i + 1, r);
    }
  }

  /** The same conditions, rule by rule, with any actions and any credentials. */
  predicate SameConditions(c: Controller, d: Controller) {
    && |c.rules| == |d.rules|
    && forall i :: 0 <= i < |c.rules| ==>
         && c.rules[i].srcIp == d.rules[i].srcIp && c.rules[i].dstDomain == d.rules[i].dstDomain
         && c.rules[i].httpMethods == d.rules[i].httpMethods
  }

  lemma {:induction false} SameMatches(libs: Libraries, c: Controller, d: Controller, i: nat, r: Request, full: bool)
    requires SameConditions(c, d) && i <= |c.rules|
    ensures FirstMatch(libs, c.rules, i, r, full) == FirstMatch(libs, d.rules, i, r, full)
    decreases |c.rules| - i
  {
    if i < |c.rules| {
      SameMatches(libs, c, d, i + 1, r, full);
    }
  }

  /** The lookup yields what the decision calls for. */
  predicate LookupFits(libs: Libraries, c: Controller, r: Request) {
    GetAuthUsersForRule(libs, c, r.ip, r.domain) == UsersOfDecision(libs, c, r)
  }

  /**
   * Whatever actions and credentials are configured, the lookup yields exactly the users of the decision, if and only
   * if the rule it settles on lets the method through. Otherwise some configuration with the same conditions offers
   * users for a request it does not authenticate.
   */
  lemma LookupYieldsDecidingUsersIff(libs: Libraries, c: Controller, r: Request)
    ensures (forall d :: SameConditions(c, d) ==> LookupFits(libs, d, r)) <==> SettledRuleTakes(libs, c, r)
  {
    if SettledRuleTakes(libs, c, r) {
      forall d | SameConditions(c, d) ensures LookupFits(libs, d, r) {
        SameMatches(libs, c, d, 0, r, false);
        LookupFollowsDecisionIff(libs, d, r);
        LookupSeesNoVerb(libs, d.rules, 0, r);
      }
    } else {
      var d := OffersWithoutAsking(libs, c, r, Credential([], []));
      assert !LookupFits(libs, d, r);
    }
  }

  /** Otherwise some rules with the same conditions offer any user for a request that is allowed without asking. */
  lemma OffersWithoutAsking(libs: Libraries, c: Controller, r: Request, user: Credential) returns (d: Controller)
    requires !SettledRuleTakes(libs, c, r)
    ensures SameConditions(c, d) && CheckRequest(libs, d, r) == Allow && UsersOfDecision(libs, d, r) == None
    ensures GetAuthUsersForRule(libs, d, r.ip, r.domain) == Some([user])
  {
    var k := FirstMatch(libs, c.rules, 0, r, false).value;
    var rules := seq(|c.rules|, i requires 0 <= i < |c.rules| =>
      c.rules[i].(action := if i == k then Authenticate else Allow, authUsers := Some([user])));
    d := Controller(Allow, rules);
    SameMatches(libs, c, d, 0, r, false);
    SameMatches(libs, c, d, 0, r, true);
    LookupSeesNoVerb(libs, d.rules, 0, r);
  }

  /** For example, a rule for one method offers its users for an access that the default allows. */
  lemma LookupIgnoresMethodFilter(libs: Libraries, ip: Ip, get: Text, user: Credential)
    ensures var c := Controller(Allow, [Rule(Authenticate, None, None, Some({get}), Some([user]))]);
            GetAuthUsersForRule(libs, c, ip, None) == Some([user]) && CheckAccess(libs, c, ip, None) == Allow
  {
  }

  /** No rule carries users. */
  predicate NoUsers(c: Controller) {
    forall i :: 0 <= i < |c.rules| ==> c.rules[i].authUsers.None?
  }

  ghost predicate OffersNobody(libs: Libraries, c: Controller) {
    forall ip, domain :: GetAuthUsersForRule(libs, c, ip, domain) == None
  }

  ghost predicate EveryAddressHasRule(libs: Libraries, c: Controller) {
    forall ip, domain :: FirstMatch(libs, c.rules, 0, Request(ip, domain, None), false).Some?
  }

  /**
   * The lookup says that there are no users, for every address and name, when no rule carries any, exactly when the
   * default is not to authenticate or is never used.
   */
  lemma NoUsersIff(libs: Libraries, c: Controller)
    requires NoUsers(c)
    ensures OffersNobody(libs, c) <==> c.defaultAction != Authenticate || EveryAddressHasRule(libs, c)
  {
    if c.defaultAction == Authenticate && !EveryAddressHasRule(libs, c) {
      var ip, domain :| FirstMatch(libs, c.rules, 0, Request(ip, domain, None), false).None?;
      assert GetAuthUsersForRule(libs, c, ip, domain) == Some([]);
    }
  }

  /** With no rules and `Authenticate` as the default the lookup gives an empty list, not `None`. */
  lemma DefaultGivesEmptyList(libs: Libraries, ip: Ip, domain: Option<Text>)
    ensures GetAuthUsersForRule(libs, Controller(Authenticate, []), ip, domain) == Some([])
  {
  }
}
