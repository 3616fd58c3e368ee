/** Which tenant's store the calls for an object go to. */
module Tenancy {
  import opened Wrappers

  /** `tenantId` is the client's own tenant, used when the resource gives none. */
  datatype Config = Config(enabled: bool, labelKey: string, defaultTenant: string, tenantId: string)

  function ExtractTenant(c: Config, labels: map<string, string>): string {
    if !c.enabled then ""
    else if c.labelKey == "" then c.defaultTenant
    else if c.labelKey in labels && labels[c.labelKey] != "" then labels[c.labelKey]
    else c.defaultTenant
  }

  function EffectiveTenant(c: Config, labels: map<string, string>): string {
    var tenant := ExtractTenant(c, labels);
    if tenant != "" then tenant else c.tenantId
  }

  /** The tenant an object falls back to without a label of its own. */
  function Fallback(c: Config): string {
    if c.enabled && c.defaultTenant != "" then c.defaultTenant else c.tenantId
  }

  /** The label that decides, if there is one. */
  function DecidingLabel(c: Config, labels: map<string, string>): Option<string> {
    if c.enabled && c.labelKey != "" && c.labelKey in labels && labels[c.labelKey] != "" then Some(labels[c.labelKey])
    else None
  }

  /** The header X-Scope-OrgID of a request, if it has one. */
  method NewRequest(c: Config, tenant: string) returns (header: Option<string>)
    ensures header.Some? <==> tenant != "" || c.tenantId != ""
    ensures header.Some? ==> header.value == if tenant != "" then tenant else c.tenantId
    ensures forall labels | tenant == ExtractTenant(c, labels) ::
              header == if EffectiveTenant(c, labels) == "" then None else Some(EffectiveTenant(c, labels))
  {
    header := None;
    var effectiveTenant := c.tenantId;
    if tenant != "" {
      effectiveTenant := tenant;
    }
    if effectiveTenant != "" {
      header := Some(effectiveTenant);
    }
  }

  /** A label of its own, else the default, else the client's tenant; only the last without tenancy. */
  lemma TenantInWords(c: Config, labels: map<string, string>)
    ensures c.enabled && c.labelKey != "" && c.labelKey in labels && labels[c.labelKey] != "" ==>
              EffectiveTenant(c, labels) == labels[c.labelKey]
    ensures !c.enabled ==> EffectiveTenant(c, labels) == c.tenantId
    ensures c.enabled && !(c.labelKey != "" && c.labelKey in labels && labels[c.labelKey] != "") ==>
              EffectiveTenant(c, labels) == if c.defaultTenant != "" then c.defaultTenant else c.tenantId
  {
  }

  /** Label, default and client tenant, in this order; an edit of an object's labels keeps its tenant exactly
      if it keeps what this chain ends in. */
  lemma TenantChain(c: Config, labels: map<string, string>, labels': map<string, string>)
    ensures EffectiveTenant(c, labels) ==
            if DecidingLabel(c, labels).Some? then DecidingLabel(c, labels).value else Fallback(c)
    ensures DecidingLabel(c, labels) == DecidingLabel(c, labels') ==>
              EffectiveTenant(c, labels) == EffectiveTenant(c, labels')
  {
  }
}
