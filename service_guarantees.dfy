/** What the service resource schema guarantees about the entries it accepts
    and what it leaves unchecked, stated against the schema value itself. */
module ServiceGuarantees {
  import opened Json
  import opened Pattern
  import opened JsonSchema
  import opened ServiceSchema
  import opened ServiceResource

  /** The direct reading, with the role and function schemas taken from `resolve`. */
  lemma Meaning(j: Json, resolve: (string, Json) -> bool)
    ensures Valid(ServiceResourceSchema, j, resolve)
        <==> ValidService(j, y => resolve(RoleRef, y), y => resolve(FunctionRef, y))
  {
    ServiceSchemaMeaning(j, resolve, y => resolve(RoleRef, y), y => resolve(FunctionRef, y));
  }

  // ---- Type ----

  /** An accepted entry is an object whose `Type` is exactly the service type name. */
  lemma AcceptedHasServiceType(j: Json, resolve: (string, Json) -> bool)
    requires Valid(ServiceResourceSchema, j, resolve)
    ensures j.JObject? && "Type" in j.fields && j.fields["Type"] == JString(ServiceTypeName)
  {
    Meaning(j, resolve);
  }

  /** The tag alone makes an entry acceptable: every other member is optional. */
  lemma TypeAloneAccepted(resolve: (string, Json) -> bool)
    ensures Valid(ServiceResourceSchema, JObject(map["Type" := JString(ServiceTypeName)]), resolve)
  {
    var j := JObject(map["Type" := JString(ServiceTypeName)]);
    Meaning(j, resolve);
    assert forall k | k in j.fields :: k == "Type";
  }

  // ---- Properties ----

  /** In an accepted entry, a present `Properties` is an object in which
      `Description` and `Role` are strings and `InternetAccess` is a boolean. */
  lemma AcceptedPropertiesTyped(j: Json, resolve: (string, Json) -> bool)
    requires Valid(ServiceResourceSchema, j, resolve)
    requires j.JObject? && "Properties" in j.fields
    ensures var p := j.fields["Properties"];
      && p.JObject?
      && ("Description" in p.fields ==> p.fields["Description"].JString?)
      && ("Role" in p.fields ==> p.fields["Role"].JString?)
      && ("InternetAccess" in p.fields ==> p.fields["InternetAccess"].JBool?)
  {
    Meaning(j, resolve);
  }

  /** `Role` has no union form: a role document there is rejected even when the
      role schema accepts it. */
  lemma RoleDocumentAsRoleRejected(p: Json, resolve: (string, Json) -> bool)
    requires p.JObject? && "Role" in p.fields && p.fields["Role"].JObject?
    ensures !Valid(PropertiesSchema, p, resolve)
  {
    PropertiesSchemaMeaning(p, resolve, y => resolve(RoleRef, y));
  }

  /** An empty `Properties` object is accepted: `VpcConfig`, `LogConfig` and
      every other member are optional. */
  lemma EmptyPropertiesAccepted(resolve: (string, Json) -> bool)
    ensures Valid(PropertiesSchema, JObject(map[]), resolve)
  {
    PropertiesSchemaMeaning(JObject(map[]), resolve, y => resolve(RoleRef, y));
  }

  // ---- Policies ----

  /** `Policies` is accepted iff exactly one of its three forms matches. */
  lemma PoliciesExactlyOne(p: Json, resolve: (string, Json) -> bool)
    ensures Valid(PoliciesSchema, p, resolve)
        <==> ExactlyOne(
               p.JString?,
               resolve(RoleRef, p),
               p.JArray? && forall i | 0 <= i < |p.elems| :: p.elems[i].JString? != resolve(RoleRef, p.elems[i]))
  {
    PoliciesSchemaMeaning(p, resolve, y => resolve(RoleRef, y));
  }

  /** A policy name that the role schema also accepts matches two branches and is
      therefore rejected. */
  lemma PolicyNameThatIsRoleRejected(p: Json, resolve: (string, Json) -> bool)
    requires p.JString? && resolve(RoleRef, p)
    ensures !Valid(PoliciesSchema, p, resolve)
  {
    PoliciesExactlyOne(p, resolve);
  }

  /** A policy name the role schema does not accept is accepted. */
  lemma PolicyNameAccepted(p: Json, resolve: (string, Json) -> bool)
    requires p.JString? && !resolve(RoleRef, p)
    ensures Valid(PoliciesSchema, p, resolve)
  {
    PoliciesExactlyOne(p, resolve);
  }

  /** A list that is not itself a role document is accepted iff each element is
      either a policy name or a role document, but not both. */
  lemma PolicyListMeaning(p: Json, resolve: (string, Json) -> bool)
    requires p.JArray? && !resolve(RoleRef, p)
    ensures Valid(PoliciesSchema, p, resolve)
        <==> forall i | 0 <= i < |p.elems| :: p.elems[i].JString? != resolve(RoleRef, p.elems[i])
  {
    PoliciesExactlyOne(p, resolve);
  }

  /** A list that is not itself a role document, with an element that is both a
      name and a role document, is rejected. */
  lemma PolicyListWithAmbiguousElementRejected(p: Json, resolve: (string, Json) -> bool, i: nat)
    requires p.JArray? && i < |p.elems|
    requires p.elems[i].JString? && resolve(RoleRef, p.elems[i])
    requires !resolve(RoleRef, p)
    ensures !Valid(PoliciesSchema, p, resolve)
  {
    PolicyListMeaning(p, resolve);
  }

  /** A value that is neither a string nor an array is accepted iff the role
      schema accepts it. */
  lemma OtherPoliciesAreRoles(p: Json, resolve: (string, Json) -> bool)
    requires !p.JString? && !p.JArray?
    ensures Valid(PoliciesSchema, p, resolve) <==> resolve(RoleRef, p)
  {
    PoliciesExactlyOne(p, resolve);
  }

  // ---- VpcConfig and LogConfig ----

  /** A `VpcConfig` without one of its three members is rejected. */
  lemma VpcConfigMissingMemberRejected(v: Json, resolve: (string, Json) -> bool, name: string)
    requires name == "VpcId" || name == "VSwitchIds" || name == "SecurityGroupId"
    requires v.JObject? && name !in v.fields
    ensures !Valid(VpcConfigSchema, v, resolve)
  {
    VpcConfigSchemaMeaning(v, resolve);
  }

  /** A `VpcConfig` with all three members, well typed, is accepted. */
  lemma CompleteVpcConfigAccepted(vpcId: string, switches: seq<string>, group: string, resolve: (string, Json) -> bool)
    ensures Valid(VpcConfigSchema,
                  JObject(map["VpcId" := JString(vpcId),
                              "VSwitchIds" := JArray(seq(|switches|, i requires 0 <= i < |switches| => JString(switches[i]))),
                              "SecurityGroupId" := JString(group)]),
                  resolve)
  {
    var v := JObject(map["VpcId" := JString(vpcId),
                         "VSwitchIds" := JArray(seq(|switches|, i requires 0 <= i < |switches| => JString(switches[i]))),
                         "SecurityGroupId" := JString(group)]);
    VpcConfigSchemaMeaning(v, resolve);
  }

  /** A `LogConfig` without `Project` or `Logstore` is rejected. */
  lemma LogConfigMissingMemberRejected(l: Json, resolve: (string, Json) -> bool, name: string)
    requires name == "Project" || name == "Logstore"
    requires l.JObject? && name !in l.fields
    ensures !Valid(LogConfigSchema, l, resolve)
  {
    LogConfigSchemaMeaning(l, resolve);
  }

  /** In an accepted entry, present `VpcConfig` and `LogConfig` groups are complete. */
  lemma AcceptedGroupsComplete(j: Json, resolve: (string, Json) -> bool)
    requires Valid(ServiceResourceSchema, j, resolve)
    requires j.JObject? && "Properties" in j.fields
    ensures var p := j.fields["Properties"];
      && p.JObject?
      && ("VpcConfig" in p.fields ==>
            var v := p.fields["VpcConfig"];
            v.JObject? && "VpcId" in v.fields && "VSwitchIds" in v.fields && "SecurityGroupId" in v.fields)
      && ("LogConfig" in p.fields ==>
            var l := p.fields["LogConfig"];
            l.JObject? && "Project" in l.fields && "Logstore" in l.fields)
  {
    Meaning(j, resolve);
  }

  // ---- Function members ----

  /** In an accepted entry, every member with a function name holds a function. */
  lemma AcceptedFunctionsChecked(j: Json, resolve: (string, Json) -> bool, k: string)
    requires Valid(ServiceResourceSchema, j, resolve)
    requires j.JObject? && k in j.fields && IsFunctionKey(k)
    ensures resolve(FunctionRef, j.fields[k])
  {
    Meaning(j, resolve);
  }

  /** No name that begins with `Type` or `Properties` matches the function-name
      pattern; in particular the two named members never do, so `properties`
      and `patternProperties` never apply to the same member. */
  lemma ReservedPrefixesNeverMatch(suffix: string)
    ensures !Search(FunctionKeyPattern, "Type" + suffix)
    ensures !Search(FunctionKeyPattern, "Properties" + suffix)
  {
    FunctionKeyPatternMeaning("Type" + suffix);
    FunctionKeyPatternMeaning("Properties" + suffix);
    assert ("Type" + suffix)[..4] == "Type";
    assert ("Properties" + suffix)[..10] == "Properties";
  }

  /** Names around the edges of the pattern. */
  lemma FunctionKeyExamples()
    ensures !Search(FunctionKeyPattern, "Type") && !Search(FunctionKeyPattern, "Properties")
    ensures !Search(FunctionKeyPattern, "TypeFoo") && !Search(FunctionKeyPattern, "Properties_x")
    ensures !Search(FunctionKeyPattern, "1abc") && !Search(FunctionKeyPattern, "")
    ensures !Search(FunctionKeyPattern, seq(129, _ => 'f'))
    ensures Search(FunctionKeyPattern, seq(128, _ => 'f'))
    ensures Search(FunctionKeyPattern, "Typ") && Search(FunctionKeyPattern, "_my-func_2")
  {
    ReservedPrefixesNeverMatch("");
    ReservedPrefixesNeverMatch("Foo");
    ReservedPrefixesNeverMatch("_x");
    assert "Type" + "" == "Type" && "Properties" + "" == "Properties";
    assert "Type" + "Foo" == "TypeFoo" && "Properties" + "_x" == "Properties_x";
    FunctionKeyPatternMeaning("1abc");
    FunctionKeyPatternMeaning("");
    FunctionKeyPatternMeaning(seq(129, _ => 'f'));
    var long := seq(128, _ => 'f');
    FunctionKeyPatternMeaning(long);
    assert long[..4] != "Type" && long[..10] != "Properties";
    FunctionKeyPatternMeaning("Typ");
    FunctionKeyPatternMeaning("_my-func_2");
    assert "_my-func_2"[..4] != "Type";
  }

  // ---- Nothing else is constrained ----

  /** Adding or replacing a member that is neither `Type`, `Properties` nor a
      function name never changes the verdict. */
  lemma OtherMembersUnchecked(j: Json, resolve: (string, Json) -> bool, k: string, v: Json)
    requires j.JObject? && k != "Type" && k != "Properties" && !IsFunctionKey(k)
    ensures Valid(ServiceResourceSchema, JObject(j.fields[k := v]), resolve)
        <==> Valid(ServiceResourceSchema, j, resolve)
  {
    Meaning(j, resolve);
    Meaning(JObject(j.fields[k := v]), resolve);
  }

  /** Adding or replacing an unknown member of `Properties` never changes the verdict. */
  lemma OtherPropertiesUnchecked(p: Json, resolve: (string, Json) -> bool, k: string, v: Json)
    requires p.JObject?
    requires k !in ["Description", "Role", "Policies", "InternetAccess", "VpcConfig", "LogConfig"]
    ensures Valid(PropertiesSchema, JObject(p.fields[k := v]), resolve) <==> Valid(PropertiesSchema, p, resolve)
  {
    PropertiesSchemaMeaning(p, resolve, y => resolve(RoleRef, y));
    PropertiesSchemaMeaning(JObject(p.fields[k := v]), resolve, y => resolve(RoleRef, y));
  }

  /** Adding or replacing an unknown member of `VpcConfig` never changes the verdict. */
  lemma OtherVpcConfigMembersUnchecked(c: Json, resolve: (string, Json) -> bool, k: string, v: Json)
    requires c.JObject? && k !in ["VpcId", "VSwitchIds", "SecurityGroupId"]
    ensures Valid(VpcConfigSchema, JObject(c.fields[k := v]), resolve) <==> Valid(VpcConfigSchema, c, resolve)
  {
    VpcConfigSchemaMeaning(c, resolve);
    VpcConfigSchemaMeaning(JObject(c.fields[k := v]), resolve);
  }

  /** Adding or replacing an unknown member of `LogConfig` never changes the verdict. */
  lemma OtherLogConfigMembersUnchecked(c: Json, resolve: (string, Json) -> bool, k: string, v: Json)
    requires c.JObject? && k !in ["Project", "Logstore"]
    ensures Valid(LogConfigSchema, JObject(c.fields[k := v]), resolve) <==> Valid(LogConfigSchema, c, resolve)
  {
    LogConfigSchemaMeaning(c, resolve);
    LogConfigSchemaMeaning(JObject(c.fields[k := v]), resolve);
  }
}
