/** The identities an operator deployment derives from its configuration. */
module OperatorConfig {
  import opened Ordering

  const BINDING_ORG_OWNER := "org-owner"

  datatype Config = Config(
    domain: string, instanceAlias: string, binding: string, boundOrganizationId: string, operatorNamespace: string)
  {
    function InstanceIdentity(): string {
      if instanceAlias != "" then instanceAlias else domain
    }

    /** Bound to one organization, verified at startup. */
    predicate OrgBound() {
      binding == BINDING_ORG_OWNER && boundOrganizationId != ""
    }

    function ManagementIdentity(): string {
      if OrgBound() then InstanceIdentity() + "/org/" + boundOrganizationId
      else InstanceIdentity() + "/ns/" + operatorNamespace
    }

    /** The field manager of this operator's status writes. */
    function FieldManager(): string {
      if InstanceIdentity() != "" then "zitadel-operator/" + InstanceIdentity() else "zitadel-operator"
    }

    /** The field manager of its ForeignManager condition. */
    function GuardFieldManager(): string {
      "zitadel-guard/" + ManagementIdentity()
    }
  }

  predicate HasPrefix(s: string, prefix: string) {
    prefix <= s
  }

  /** Whether a field manager is that of some serving operator. */
  predicate IsOperator(manager: string) {
    HasPrefix(manager, "zitadel-operator")
  }

  lemma AppendCancels(a: string, b: string, c: string)
    requires a + b == a + c
    ensures b == c
  {
    assert (a + b)[|a|..] == b && (a + c)[|a|..] == c;
  }

  /** Deployments of one instance share their management identity exactly when they are bound to the
      same organization, or neither is bound and they live in the same namespace. */
  lemma ManagementIdentityDistinguishes(c: Config, d: Config)
    requires c.InstanceIdentity() == d.InstanceIdentity()
    ensures c.ManagementIdentity() == d.ManagementIdentity() <==>
      && c.OrgBound() == d.OrgBound()
      && (if c.OrgBound() then c.boundOrganizationId == d.boundOrganizationId
          else c.operatorNamespace == d.operatorNamespace)
  {
    var i := c.InstanceIdentity();
    var cTail := if c.OrgBound() then "/org/" + c.boundOrganizationId else "/ns/" + c.operatorNamespace;
    var dTail := if d.OrgBound() then "/org/" + d.boundOrganizationId else "/ns/" + d.operatorNamespace;
    assert c.ManagementIdentity() == i + cTail && d.ManagementIdentity() == i + dTail;
    if c.ManagementIdentity() == d.ManagementIdentity() {
      AppendCancels(i, cTail, dTail);
      assert cTail[1] == dTail[1];
      if c.OrgBound() {
        AppendCancels("/org/", c.boundOrganizationId, d.boundOrganizationId);
      } else {
        AppendCancels("/ns/", c.operatorNamespace, d.operatorNamespace);
      }
    }
  }

  /** The configuration of one deployment: its instance, and its organization if it is bound to one, else
      its namespace. */
  predicate SameDeployment(c: Config, d: Config) {
    && c.InstanceIdentity() == d.InstanceIdentity() && c.OrgBound() == d.OrgBound()
    && (if c.OrgBound() then c.boundOrganizationId == d.boundOrganizationId
        else c.operatorNamespace == d.operatorNamespace)
  }

  /** What a management identity has after the slash. */
  function Binding(c: Config): string {
    if c.OrgBound() then "org/" + c.boundOrganizationId else "ns/" + c.operatorNamespace
  }

  lemma IdentityAndBinding(c: Config)
    ensures c.ManagementIdentity() == c.InstanceIdentity() + ['/'] + Binding(c)
  {
    var i := c.InstanceIdentity();
    if c.OrgBound() {
      assert i + "/org/" + c.boundOrganizationId == i + ['/'] + ("org/" + c.boundOrganizationId);
    } else {
      assert i + "/ns/" + c.operatorNamespace == i + ['/'] + ("ns/" + c.operatorNamespace);
    }
  }

  /** The management identity tells deployments apart, also across instances, if instance identities have
      no slash. */
  lemma ManagementIdentityIsTheDeployment(c: Config, d: Config)
    requires '/' !in c.InstanceIdentity() && '/' !in d.InstanceIdentity()
    ensures c.ManagementIdentity() == d.ManagementIdentity() <==> SameDeployment(c, d)
  {
    hide Config.InstanceIdentity, Config.OrgBound, Config.ManagementIdentity, Binding;
    IdentityAndBinding(c);
    IdentityAndBinding(d);
    if c.ManagementIdentity() == d.ManagementIdentity() {
      SeparatorSplits(c.InstanceIdentity(), Binding(c), d.InstanceIdentity(), Binding(d), '/');
    }
    if c.InstanceIdentity() == d.InstanceIdentity() {
      ManagementIdentityDistinguishes(c, d);
    }
  }

  /** What a configuration makes of its fields: the alias goes before the domain in every identity, and the
      bound organization goes before the namespace if the binding is that of an organization owner. */
  lemma IdentitiesInFields(c: Config)
    ensures c.instanceAlias != "" ==> c.FieldManager() == "zitadel-operator/" + c.instanceAlias
    ensures c.instanceAlias == "" && c.domain != "" ==> c.FieldManager() == "zitadel-operator/" + c.domain
    ensures c.instanceAlias == "" && c.domain == "" ==> c.FieldManager() == "zitadel-operator"
    ensures var instance := if c.instanceAlias == "" then c.domain else c.instanceAlias;
      && c.ManagementIdentity() == (if c.binding == "org-owner" && c.boundOrganizationId != ""
                                    then instance + "/org/" + c.boundOrganizationId
                                    else instance + "/ns/" + c.operatorNamespace)
      && c.GuardFieldManager() == "zitadel-guard/" + c.ManagementIdentity()
  {
  }

  /** An operator's status writes mark it as serving, the guard's writes mark nobody. */
  lemma OnlyStatusWritesAnnounce(c: Config)
    ensures IsOperator(c.FieldManager()) && !IsOperator(c.GuardFieldManager())
    ensures c.ManagementIdentity() != ""
  {
    assert "zitadel-operator/" == "zitadel-operator" + "/";
    assert c.GuardFieldManager()[8] == 'g' && "zitadel-operator"[8] == 'o';
    assert |c.ManagementIdentity()| >= 4;
  }

  /** Operators of different instances have different field managers. */
  lemma FieldManagersDistinguishInstances(c: Config, d: Config)
    requires c.FieldManager() == d.FieldManager()
    ensures c.InstanceIdentity() == d.InstanceIdentity()
  {
    if c.InstanceIdentity() != "" && d.InstanceIdentity() != "" {
      AppendCancels("zitadel-operator/", c.InstanceIdentity(), d.InstanceIdentity());
    }
  }
}
