/**
  Role assignments, their compilation into flat rules, and the decision on a request:
  proxy_agent/src/proxy/authorization_rules.rs and the matching half of
  proxy_agent/src/key_keeper/key.rs.
 */
module AuthorizationRules {
  import opened Prelude
  import opened Text
  import opened Request

  datatype Privilege = Privilege(name: string, path: string, queryParameters: Option<map<string, string>>)
  datatype Role = Role(name: string, privileges: seq<string>)
  datatype Identity = Identity(name: string, userName: Option<string>, groupName: Option<string>,
                               exePath: Option<string>, processName: Option<string>)
  datatype RoleAssignment = RoleAssignment(role: string, identities: seq<string>)
  datatype AccessControlRules = AccessControlRules(
    privileges: Option<seq<Privilege>>, roles: Option<seq<Role>>,
    identities: Option<seq<Identity>>, roleAssignments: Option<seq<RoleAssignment>>)
  datatype AuthorizationItem = AuthorizationItem(defaultAccess: string, mode: string, id: string,
                                                 rules: Option<AccessControlRules>)

  datatype Rule = Rule(roleName: string, privileges: seq<Privilege>, identities: seq<Identity>)
  datatype Rules = Rules(defaultAllowed: bool, mode: string, rules: Option<seq<Rule>>)

  datatype Claims = Claims(userId: nat, userName: string, userGroups: seq<string>, processName: string,
                           processFullPath: string, processCmdLine: string, runAsElevated: bool, clientIp: string)

  const DISABLED: string := "disabled"

  function ListOf<T>(o: Option<seq<T>>): seq<T> {
    match o case None => [] case Some(s) => s
  }

  // ---------- matching ----------

  /** Value of the first query pair with this name. */
  function FirstValue(query: seq<(string, string)>, key: string): Option<string> {
    if query == [] then None
    else if query[0].0 == key then Some(query[0].1)
    else FirstValue(query[1..], key)
  }

  predicate ParameterMatches(query: seq<(string, string)>, key: string, value: string) {
    var v := FirstValue(query, key);
    v.Some? && Lower(v.value) == Lower(value)
  }

  predicate PrivilegeMatches(p: Privilege, url: Url) {
    && p.path <= Lower(url.path)
    && (p.queryParameters.Some? ==>
          forall k | k in p.queryParameters.value :: ParameterMatches(url.query, k, p.queryParameters.value[k]))
  }

  predicate FieldMatches(wanted: Option<string>, actual: string) {
    wanted.Some? ==> Lower(wanted.value) == Lower(actual)
  }

  predicate IdentityMatches(i: Identity, c: Claims) {
    && FieldMatches(i.userName, c.userName)
    && FieldMatches(i.processName, c.processName)
    && FieldMatches(i.exePath, c.processFullPath)
    && (i.groupName.Some? ==> exists g | g in c.userGroups :: Lower(g) == Lower(i.groupName.value))
  }

  // ---------- what each field of an identity asks for ----------

  function Nobody(name: string): Identity {
    Identity(name, None, None, None, None)
  }

  /** An identity that names one field alone matches exactly the claims whose own field agrees up to case, and one
      that names nothing matches everyone. */
  lemma OneFieldMatches(name: string, v: string, c: Claims)
    ensures IdentityMatches(Nobody(name).(userName := Some(v)), c) <==> Lower(c.userName) == Lower(v)
    ensures IdentityMatches(Nobody(name).(processName := Some(v)), c) <==> Lower(c.processName) == Lower(v)
    ensures IdentityMatches(Nobody(name).(exePath := Some(v)), c) <==> Lower(c.processFullPath) == Lower(v)
    ensures IdentityMatches(Nobody(name).(groupName := Some(v)), c) <==>
            exists g | g in c.userGroups :: Lower(g) == Lower(v)
    ensures IdentityMatches(Nobody(name), c)
  {
  }

  /** An identity matches exactly when each of its fields does alone. */
  lemma FieldsMatchTogether(i: Identity, c: Claims)
    ensures IdentityMatches(i, c) <==>
            && IdentityMatches(Nobody(i.name).(userName := i.userName), c)
            && IdentityMatches(Nobody(i.name).(processName := i.processName), c)
            && IdentityMatches(Nobody(i.name).(exePath := i.exePath), c)
            && IdentityMatches(Nobody(i.name).(groupName := i.groupName), c)
  {
  }

  // ---------- what each part of a privilege asks for ----------

  /** A privilege without parameters matches exactly the URLs whose lower-cased path starts with its own. */
  lemma PathAloneMatches(name: string, path: string, url: Url)
    ensures PrivilegeMatches(Privilege(name, path, None), url) <==> path <= Lower(url.path)
  {
  }

  /** A parameter asks for its name as written, and for its value up to case in the first pair of that name: a
      request without the name, or with another value first, does not match. */
  lemma ParameterAloneMatches(name: string, path: string, k: string, v: string, url: Url)
    ensures PrivilegeMatches(Privilege(name, path, Some(map[k := v])), url) <==>
            && path <= Lower(url.path)
            && exists i | 0 <= i < |url.query| :: FirstOf(url.query, k, i) && Lower(url.query[i].1) == Lower(v)
  {
    var m := map[k := v];
    assert k in m && m[k] == v;
    if i :| 0 <= i < |url.query| && url.query[i].0 == k {
      var first := FirstOccurrence(url.query, k, i);
      FirstValueAt(url.query, k, first);
    } else {
      FirstValueNone(url.query, k);
    }
  }

  /** Pair `i` is the first of its name. */
  predicate FirstOf(query: seq<(string, string)>, k: string, i: nat) {
    i < |query| && query[i].0 == k && forall j | 0 <= j < i :: query[j].0 != k
  }

  lemma {:induction false} FirstOccurrence(query: seq<(string, string)>, k: string, at: nat) returns (i: nat)
    requires at < |query| && query[at].0 == k
    ensures FirstOf(query, k, i)
  {
    i := 0;
    while query[i].0 != k
      invariant i <= at && forall j | 0 <= j < i :: query[j].0 != k
      decreases at - i
    {
      i := i + 1;
    }
  }

  lemma {:induction false} FirstValueAt(query: seq<(string, string)>, k: string, i: nat)
    requires FirstOf(query, k, i)
    ensures FirstValue(query, k) == Some(query[i].1)
  {
    if i > 0 {
      assert query[0].0 != k;
      FirstValueAt(query[1..], k, i - 1);
    }
  }

  lemma {:induction false} FirstValueNone(query: seq<(string, string)>, k: string)
    requires forall j | 0 <= j < |query| :: query[j].0 != k
    ensures FirstValue(query, k).None?
  {
    if query != [] { FirstValueNone(query[1..], k); }
  }

  /** All parameters are asked for together. */
  lemma ParametersMatchTogether(p: Privilege, url: Url)
    requires p.queryParameters.Some?
    ensures PrivilegeMatches(p, url) <==>
            && p.path <= Lower(url.path)
            && forall k | k in p.queryParameters.value ::
                 PrivilegeMatches(Privilege(p.name, p.path, Some(map[k := p.queryParameters.value[k]])), url)
  {
    var m := p.queryParameters.value;
    forall k | k in m && p.path <= Lower(url.path)
      ensures PrivilegeMatches(Privilege(p.name, p.path, Some(map[k := m[k]])), url)
         <==> ParameterMatches(url.query, k, m[k])
    {
      assert k in map[k := m[k]];
    }
  }

  // ---------- the loops ----------

  /** The loop runs over the rule's parameters in whatever order the hash map yields them. */
  method PrivilegeIsMatch(p: Privilege, url: Url) returns (matched: bool)
    ensures matched == PrivilegeMatches(p, url)
  {
    if !(p.path <= Lower(url.path)) { return false; }
    match p.queryParameters {
      case None =>
      case Some(parameters) =>
        var rest := parameters.Keys;
        while rest != {}
          invariant rest <= parameters.Keys
          invariant forall k | k in parameters && k !in rest :: ParameterMatches(url.query, k, parameters[k])
          decreases |rest|
        {
          var key :| key in rest;
          rest := rest - {key};
          match FirstValue(url.query, key) {
            case Some(v) => if Lower(v) != Lower(parameters[key]) { return false; }
            case None => return false;
          }
        }
    }
    return true;
  }

  method IdentityIsMatch(i: Identity, claims: Claims) returns (matched: bool)
    ensures matched == IdentityMatches(i, claims)
  {
    if i.userName.Some? && Lower(i.userName.value) != Lower(claims.userName) { return false; }
    if i.processName.Some? && Lower(i.processName.value) != Lower(claims.processName) { return false; }
    if i.exePath.Some? && Lower(i.exePath.value) != Lower(claims.processFullPath) { return false; }
    match i.groupName {
      case None =>
      case Some(group) =>
        var found := false;
        var n := 0;
        while n < |claims.userGroups|
          invariant 0 <= n <= |claims.userGroups|
          invariant !found
          invariant forall g | g in claims.userGroups[..n] :: Lower(g) != Lower(group)
        {
          if Lower(claims.userGroups[n]) == Lower(group) {
            found := true;
            break;
          }
          n := n + 1;
        }
        if !found { return false; }
    }
    return true;
  }

  predicate NoUpper(s: string) {
    forall i | 0 <= i < |s| :: !('A' <= s[i] <= 'Z')
  }

  lemma LowerHasNoUpper(s: string)
    ensures NoUpper(Lower(s)) && (NoUpper(s) ==> Lower(s) == s)
  {
    assert forall c: char :: !('A' <= LowerChar(c) <= 'Z');
  }

  function PairsOf(m: map<string, string>, order: seq<string>): seq<(string, string)>
    requires forall k | k in order :: k in m
  {
    seq(|order|, i requires 0 <= i < |order| => (order[i], m[order[i]]))
  }

  lemma {:induction false} PairsMatch(m: map<string, string>, order: seq<string>, k: string)
    requires (forall j | j in order :: j in m) && k in order
    ensures FirstValue(PairsOf(m, order), k) == Some(m[k])
  {
    var pairs := PairsOf(m, order);
    if order[0] != k {
      PairsMatch(m, order[1..], k);
      assert pairs[1..] == PairsOf(m, order[1..]);
    }
  }

  /** Only the request's path is folded after parsing, so some request can match a privilege exactly when its path
      has no upper-case letter. */
  lemma MatchableExactly(p: Privilege)
    ensures (exists url :: PrivilegeMatches(p, url)) <==> NoUpper(p.path)
  {
    if NoUpper(p.path) {
      LowerHasNoUpper(p.path);
      var query := MatchingQuery(p);
      assert PrivilegeMatches(p, Url(p.path, query));
    }
    forall url | PrivilegeMatches(p, url) ensures NoUpper(p.path) {
      LowerHasNoUpper(url.path);
      assert forall i | 0 <= i < |p.path| :: p.path[i] == Lower(url.path)[i];
    }
  }

  /** Whatever the names of its parameters, some decoded query has them all. */
  lemma MatchingQuery(p: Privilege) returns (query: seq<(string, string)>)
    ensures forall path | p.path <= Lower(path) :: PrivilegeMatches(p, Url(path, query))
  {
    query := [];
    if p.queryParameters.Some? {
      var m := p.queryParameters.value;
      var order := OrderExists(m.Keys);
      query := PairsOf(m, order);
      forall k | k in m ensures ParameterMatches(query, k, m[k]) { PairsMatch(m, order, k); }
    }
  }

  // ---------- compilation ----------

  function NamedPrivileges(all: seq<Privilege>, name: string): seq<Privilege> {
    if all == [] then []
    else NamedPrivileges(all[..|all| - 1], name) + (if all[|all| - 1].name == name then [all[|all| - 1]] else [])
  }

  function PrivilegesNamed(all: seq<Privilege>, names: seq<string>): seq<Privilege> {
    if names == [] then []
    else PrivilegesNamed(all, names[..|names| - 1]) + NamedPrivileges(all, names[|names| - 1])
  }

  function RolePrivileges(all: seq<Privilege>, roles: seq<Role>, role: string): seq<Privilege> {
    if roles == [] then []
    else
      var last := roles[|roles| - 1];
      RolePrivileges(all, roles[..|roles| - 1], role)
      + (if last.name == role then PrivilegesNamed(all, last.privileges) else [])
  }

  function NamedIdentities(all: seq<Identity>, name: string): seq<Identity> {
    if all == [] then []
    else NamedIdentities(all[..|all| - 1], name) + (if all[|all| - 1].name == name then [all[|all| - 1]] else [])
  }

  function IdentitiesNamed(all: seq<Identity>, names: seq<string>): seq<Identity> {
    if names == [] then []
    else IdentitiesNamed(all, names[..|names| - 1]) + NamedIdentities(all, names[|names| - 1])
  }

  function CompileAssignment(acr: AccessControlRules, a: RoleAssignment): Rule {
    Rule(a.role,
         RolePrivileges(ListOf(acr.privileges), ListOf(acr.roles), a.role),
         IdentitiesNamed(ListOf(acr.identities), a.identities))
  }

  function CompileAssignments(acr: AccessControlRules, assignments: seq<RoleAssignment>): (rules: seq<Rule>)
    ensures |rules| == |assignments|
    ensures forall i | 0 <= i < |rules| :: rules[i] == CompileAssignment(acr, assignments[i])
  {
    if assignments == [] then []
    else CompileAssignments(acr, assignments[..|assignments| - 1])
         + [CompileAssignment(acr, assignments[|assignments| - 1])]
  }

  function Compile(item: AuthorizationItem): Rules {
    Rules(Lower(item.defaultAccess) == "allow", Lower(item.mode),
          match item.rules
          case None => None
          case Some(acr) =>
            match acr.roleAssignments
            case None => None
            case Some(assignments) => Some(CompileAssignments(acr, assignments)))
  }

  method CollectPrivileges(input: seq<Privilege>, names: seq<string>, before: seq<Privilege>)
    returns (privileges: seq<Privilege>)
    ensures privileges == before + PrivilegesNamed(input, names)
  {
    privileges := before;
    for n := 0 to |names|
      invariant privileges == before + PrivilegesNamed(input, names[..n])
    {
      assert names[..n + 1][..n] == names[..n];
      ghost var start := privileges;
      for j := 0 to |input|
        invariant privileges == start + NamedPrivileges(input[..j], names[n])
      {
        assert input[..j + 1][..j] == input[..j];
        if input[j].name == names[n] {
          privileges := privileges + [input[j]];
        }
      }
      assert input[..|input|] == input;
    }
    assert names[..|names|] == names;
  }

  method CollectIdentities(input: seq<Identity>, names: seq<string>) returns (identities: seq<Identity>)
    ensures identities == IdentitiesNamed(input, names)
  {
    identities := [];
    for n := 0 to |names|
      invariant identities == IdentitiesNamed(input, names[..n])
    {
      assert names[..n + 1][..n] == names[..n];
      ghost var start := identities;
      for j := 0 to |input|
        invariant identities == start + NamedIdentities(input[..j], names[n])
      {
        assert input[..j + 1][..j] == input[..j];
        if input[j].name == names[n] {
          identities := identities + [input[j]];
        }
      }
      assert input[..|input|] == input;
    }
    assert names[..|names|] == names;
  }

  method RuleOf(acr: AccessControlRules, a: RoleAssignment) returns (rule: Rule)
    ensures rule == CompileAssignment(acr, a)
  {
    var privileges: seq<Privilege> := [];
    if acr.privileges.Some? && acr.roles.Some? {
      var roles := acr.roles.value;
      for r := 0 to |roles|
        invariant privileges == RolePrivileges(acr.privileges.value, roles[..r], a.role)
      {
        assert roles[..r + 1][..r] == roles[..r];
        if roles[r].name == a.role {
          privileges := CollectPrivileges(acr.privileges.value, roles[r].privileges, privileges);
        }
      }
      assert roles[..|roles|] == roles;
    } else {
      NoPrivileges(acr, a.role);
    }
    var identities: seq<Identity> := [];
    if acr.identities.Some? {
      identities := CollectIdentities(acr.identities.value, a.identities);
    } else {
      NoIdentities(a.identities);
    }
    rule := Rule(a.role, privileges, identities);
  }

  method FromAuthorizationItem(item: AuthorizationItem) returns (compiled: Rules)
    ensures compiled == Compile(item)
  {
    var rules: Option<seq<Rule>> := None;
    if item.rules.Some? && item.rules.value.roleAssignments.Some? {
      var acr := item.rules.value;
      var assignments := acr.roleAssignments.value;
      var list: seq<Rule> := [];
      for i := 0 to |assignments|
        invariant list == CompileAssignments(acr, assignments[..i])
      {
        assert assignments[..i + 1][..i] == assignments[..i];
        var rule := RuleOf(acr, assignments[i]);
        list := list + [rule];
      }
      assert assignments[..|assignments|] == assignments;
      rules := Some(list);
    }
    compiled := Rules(Lower(item.defaultAccess) == "allow", Lower(item.mode), rules);
  }

  lemma {:induction false} NoPrivilegesNamed(names: seq<string>)
    ensures PrivilegesNamed([], names) == []
  {
    if names != [] { NoPrivilegesNamed(names[..|names| - 1]); }
  }

  lemma {:induction false} NoRolePrivileges(roles: seq<Role>, role: string)
    ensures RolePrivileges([], roles, role) == []
  {
    if roles != [] {
      NoRolePrivileges(roles[..|roles| - 1], role);
      NoPrivilegesNamed(roles[|roles| - 1].privileges);
    }
  }

  lemma NoPrivileges(acr: AccessControlRules, role: string)
    requires acr.privileges.None? || acr.roles.None?
    ensures RolePrivileges(ListOf(acr.privileges), ListOf(acr.roles), role) == []
  {
    NoRolePrivileges(ListOf(acr.roles), role);
  }

  lemma {:induction false} NoIdentities(names: seq<string>)
    ensures IdentitiesNamed([], names) == []
  {
    if names != [] { NoIdentities(names[..|names| - 1]); }
  }

  // ---------- evaluation ----------

  predicate RuleCovers(rule: Rule, url: Url) {
    exists p | p in rule.privileges :: PrivilegeMatches(p, url)
  }

  predicate RuleGrants(rule: Rule, url: Url, claims: Claims) {
    RuleCovers(rule, url) && exists i | i in rule.identities :: IdentityMatches(i, claims)
  }

  /** The decision of flat rules; `url` is None when the lower-cased request URL does not parse. */
  predicate Allowed(r: Rules, url: Option<Url>, claims: Claims) {
    if Lower(r.mode) == DISABLED then true
    else if url.None? then false
    else if exists rule | rule in ListOf(r.rules) :: RuleGrants(rule, url.value, claims) then true
    else if exists rule | rule in ListOf(r.rules) :: RuleCovers(rule, url.value) then false
    else r.defaultAllowed
  }

  method IdentityListed(identities: seq<Identity>, claims: Claims) returns (found: bool)
    ensures found == exists i | i in identities :: IdentityMatches(i, claims)
  {
    for n := 0 to |identities|
      invariant forall m | 0 <= m < n :: !IdentityMatches(identities[m], claims)
    {
      var matched := IdentityIsMatch(identities[n], claims);
      if matched { return true; }
    }
    return false;
  }

  method RuleDecides(rule: Rule, url: Url, claims: Claims) returns (covers: bool, grants: bool)
    ensures grants == RuleGrants(rule, url, claims)
    ensures !grants ==> covers == RuleCovers(rule, url)
  {
    covers := false;
    for n := 0 to |rule.privileges|
      invariant covers == exists p | p in rule.privileges[..n] :: PrivilegeMatches(p, url)
      invariant covers ==> !exists i | i in rule.identities :: IdentityMatches(i, claims)
    {
      assert rule.privileges[..n + 1] == rule.privileges[..n] + [rule.privileges[n]];
      var matched := PrivilegeIsMatch(rule.privileges[n], url);
      if matched {
        covers := true;
        var listed := IdentityListed(rule.identities, claims);
        if listed {
          assert rule.privileges[n] in rule.privileges;
          return true, true;
        }
        assert rule.privileges[n] in rule.privileges[..n + 1];
      }
    }
    assert rule.privileges[..|rule.privileges|] == rule.privileges;
    grants := false;
  }

  method IsAllowed(r: Rules, requestUrl: string, lib: UrlLibrary, claims: Claims) returns (allowed: bool)
    ensures allowed == Allowed(r, lib.parse(Lower(requestUrl)), claims)
  {
    if Lower(r.mode) == DISABLED { return true; }
    var parsed := lib.parse(Lower(requestUrl));
    if parsed.None? { return false; }
    var url := parsed.value;
    match r.rules {
      case None =>
      case Some(rules) =>
        var covered := false;
        for n := 0 to |rules|
          invariant forall m | 0 <= m < n :: !RuleGrants(rules[m], url, claims)
          invariant covered == exists m | 0 <= m < n :: RuleCovers(rules[m], url)
        {
          var covers, grants := RuleDecides(rules[n], url, claims);
          if grants {
            assert rules[n] in rules;
            return true;
          }
          covered := covered || covers;
        }
        assert covered <==> exists rule | rule in rules :: RuleCovers(rule, url);
        if covered { return false; }
    }
    return r.defaultAllowed;
  }

  // ---------- meaning of an item, without compiling it ----------

  ghost predicate AssignedPrivilege(acr: AccessControlRules, a: RoleAssignment, p: Privilege) {
    p in ListOf(acr.privileges)
    && exists role | role in ListOf(acr.roles) :: role.name == a.role && p.name in role.privileges
  }

  ghost predicate AssignedIdentity(acr: AccessControlRules, a: RoleAssignment, i: Identity) {
    i in ListOf(acr.identities) && i.name in a.identities
  }

  ghost predicate Covered(acr: AccessControlRules, a: RoleAssignment, url: Url) {
    exists p | AssignedPrivilege(acr, a, p) :: PrivilegeMatches(p, url)
  }

  ghost predicate Granted(acr: AccessControlRules, a: RoleAssignment, url: Url, claims: Claims) {
    Covered(acr, a, url) && exists i | AssignedIdentity(acr, a, i) :: IdentityMatches(i, claims)
  }

  /** The relational reading of assignments, roles, privileges and identities with the default access. */
  ghost predicate Meaning(item: AuthorizationItem, url: Option<Url>, claims: Claims) {
    if Lower(item.mode) == DISABLED then true
    else if url.None? then false
    else if item.rules.None? then Lower(item.defaultAccess) == "allow"
    else
      var acr := item.rules.value;
      var assignments := ListOf(acr.roleAssignments);
      if exists a | a in assignments :: Granted(acr, a, url.value, claims) then true
      else if exists a | a in assignments :: Covered(acr, a, url.value) then false
      else Lower(item.defaultAccess) == "allow"
  }

  lemma {:induction false} NamedPrivilegesMember(all: seq<Privilege>, name: string, p: Privilege)
    ensures p in NamedPrivileges(all, name) <==> p in all && p.name == name
  {
    if all != [] {
      NamedPrivilegesMember(all[..|all| - 1], name, p);
      assert all == all[..|all| - 1] + [all[|all| - 1]];
    }
  }

  lemma {:induction false} PrivilegesNamedMember(all: seq<Privilege>, names: seq<string>, p: Privilege)
    ensures p in PrivilegesNamed(all, names) <==> p in all && p.name in names
  {
    if names != [] {
      PrivilegesNamedMember(all, names[..|names| - 1], p);
      NamedPrivilegesMember(all, names[|names| - 1], p);
      assert names == names[..|names| - 1] + [names[|names| - 1]];
    }
  }

  lemma {:induction false} RolePrivilegesMember(all: seq<Privilege>, roles: seq<Role>, role: string, p: Privilege)
    ensures p in RolePrivileges(all, roles, role)
       <==> p in all && exists r | r in roles :: r.name == role && p.name in r.privileges
  {
    if roles != [] {
      var last := roles[|roles| - 1];
      RolePrivilegesMember(all, roles[..|roles| - 1], role, p);
      PrivilegesNamedMember(all, last.privileges, p);
      assert roles == roles[..|roles| - 1] + [last];
      assert forall r :: r in roles <==> r in roles[..|roles| - 1] || r == last;
    }
  }

  lemma {:induction false} NamedIdentitiesMember(all: seq<Identity>, name: string, i: Identity)
    ensures i in NamedIdentities(all, name) <==> i in all && i.name == name
  {
    if all != [] {
      NamedIdentitiesMember(all[..|all| - 1], name, i);
      assert all == all[..|all| - 1] + [all[|all| - 1]];
    }
  }

  lemma {:induction false} IdentitiesNamedMember(all: seq<Identity>, names: seq<string>, i: Identity)
    ensures i in IdentitiesNamed(all, names) <==> i in all && i.name in names
  {
    if names != [] {
      IdentitiesNamedMember(all, names[..|names| - 1], i);
      NamedIdentitiesMember(all, names[|names| - 1], i);
      assert names == names[..|names| - 1] + [names[|names| - 1]];
    }
  }

  lemma AssignmentMeaning(acr: AccessControlRules, a: RoleAssignment, url: Url, claims: Claims)
    ensures RuleCovers(CompileAssignment(acr, a), url) == Covered(acr, a, url)
    ensures RuleGrants(CompileAssignment(acr, a), url, claims) == Granted(acr, a, url, claims)
  {
    var rule := CompileAssignment(acr, a);
    forall p ensures p in rule.privileges <==> AssignedPrivilege(acr, a, p) {
      RolePrivilegesMember(ListOf(acr.privileges), ListOf(acr.roles), a.role, p);
    }
    forall i ensures i in rule.identities <==> AssignedIdentity(acr, a, i) {
      IdentitiesNamedMember(ListOf(acr.identities), a.identities, i);
    }
  }

  /** Compiling an item and evaluating the flat rules decides exactly as the item reads. */
  lemma CompilationPreservesMeaning(item: AuthorizationItem, url: Option<Url>, claims: Claims)
    ensures Allowed(Compile(item), url, claims) == Meaning(item, url, claims)
  {
    LowerIdempotent(item.mode);
    if url.Some? && item.rules.Some? && item.rules.value.roleAssignments.Some? {
      var acr := item.rules.value;
      var assignments := acr.roleAssignments.value;
      var rules := CompileAssignments(acr, assignments);
      forall a ensures
          && RuleCovers(CompileAssignment(acr, a), url.value) == Covered(acr, a, url.value)
          && RuleGrants(CompileAssignment(acr, a), url.value, claims) == Granted(acr, a, url.value, claims) {
        AssignmentMeaning(acr, a, url.value, claims);
      }
      assert forall rule | rule in rules :: exists a | a in assignments :: rule == CompileAssignment(acr, a);
      forall a | a in assignments ensures CompileAssignment(acr, a) in rules {
        var n :| 0 <= n < |assignments| && assignments[n] == a;
        assert rules[n] in rules;
      }
    }
  }

  /** Same lists up to order and repetition. */
  predicate SameLists(a: AccessControlRules, b: AccessControlRules) {
    && SameElements(ListOf(a.privileges), ListOf(b.privileges))
    && SameElements(ListOf(a.roles), ListOf(b.roles))
    && SameElements(ListOf(a.identities), ListOf(b.identities))
    && SameElements(ListOf(a.roleAssignments), ListOf(b.roleAssignments))
  }

  lemma SameListsSameAssignment(a: AccessControlRules, b: AccessControlRules, r: RoleAssignment, url: Url,
                                claims: Claims)
    requires SameLists(a, b)
    ensures Covered(a, r, url) == Covered(b, r, url)
    ensures Granted(a, r, url, claims) == Granted(b, r, url, claims)
  {
    forall p ensures AssignedPrivilege(a, r, p) == AssignedPrivilege(b, r, p) {}
    forall i ensures AssignedIdentity(a, r, i) == AssignedIdentity(b, r, i) {}
  }

  /** The decision never depends on the order or the repetition of any of the four lists. */
  lemma DecisionIgnoresListOrder(item: AuthorizationItem, acr: AccessControlRules, url: Option<Url>, claims: Claims)
    requires item.rules.Some? && SameLists(item.rules.value, acr)
    ensures Allowed(Compile(item), url, claims) == Allowed(Compile(item.(rules := Some(acr))), url, claims)
  {
    var other := item.(rules := Some(acr));
    CompilationPreservesMeaning(item, url, claims);
    CompilationPreservesMeaning(other, url, claims);
    if url.Some? {
      forall r ensures
          && Covered(item.rules.value, r, url.value) == Covered(acr, r, url.value)
          && Granted(item.rules.value, r, url.value, claims) == Granted(acr, r, url.value, claims) {
        SameListsSameAssignment(item.rules.value, acr, r, url.value, claims);
      }
    }
  }
}
