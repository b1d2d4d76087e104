/** A direct reading of what the service resource schema accepts, and the proof
    that the schema value accepts exactly that. */
module ServiceResource {
  import opened Json
  import opened Pattern
  import opened JsonSchema
  import opened ServiceSchema

  predicate IsAsciiLetter(c: char) {
    'a' <= c <= 'z' || 'A' <= c <= 'Z'
  }

  predicate IsAsciiDigit(c: char) {
    '0' <= c <= '9'
  }

  /** `[a-zA-Z_]` */
  predicate IsNameStart(c: char) {
    IsAsciiLetter(c) || c == '_'
  }

  /** `[a-zA-Z0-9_-]` */
  predicate IsNamePart(c: char) {
    IsAsciiLetter(c) || IsAsciiDigit(c) || c == '_' || c == '-'
  }

  /** A member name that holds a nested function: 1 to 128 characters, a letter or
      `_` first, then letters, digits, `_` or `-`, and not beginning with `Type`
      or `Properties`. */
  predicate IsFunctionKey(k: string) {
    && 1 <= |k| <= 128
    && IsNameStart(k[0])
    && (forall i | 1 <= i < |k| :: IsNamePart(k[i]))
    && !("Type" <= k)
    && !("Properties" <= k)
  }

  /** A present member `name` of object `o` is a string. */
  predicate OptionalString(o: map<string, Json>, name: string) {
    name in o ==> o[name].JString?
  }

  /** One element of a policy list: either a policy name or a role document, not both. */
  predicate ValidPolicy(x: Json, isRole: Json -> bool) {
    x.JString? != isRole(x)
  }

  /** `Policies`: exactly one of "a string", "a role document" and "a list of
      valid policies" holds. */
  predicate ValidPolicies(p: Json, isRole: Json -> bool) {
    ExactlyOne(
      p.JString?,
      isRole(p),
      p.JArray? && forall i | 0 <= i < |p.elems| :: ValidPolicy(p.elems[i], isRole))
  }

  /** `VpcConfig`: an object with all three of its members, each well typed. */
  predicate ValidVpcConfig(v: Json) {
    && v.JObject?
    && "VpcId" in v.fields && v.fields["VpcId"].JString?
    && "VSwitchIds" in v.fields && IsStringArray(v.fields["VSwitchIds"])
    && "SecurityGroupId" in v.fields && v.fields["SecurityGroupId"].JString?
  }

  /** `LogConfig`: an object with both of its members, each a string. */
  predicate ValidLogConfig(l: Json) {
    && l.JObject?
    && "Project" in l.fields && l.fields["Project"].JString?
    && "Logstore" in l.fields && l.fields["Logstore"].JString?
  }

  /** A service's `Properties`: an object whose known members, when present, are
      well formed; any other member is allowed. */
  predicate ValidProperties(p: Json, isRole: Json -> bool) {
    && p.JObject?
    && OptionalString(p.fields, "Description")
    && OptionalString(p.fields, "Role")
    && ("Policies" in p.fields ==> ValidPolicies(p.fields["Policies"], isRole))
    && ("InternetAccess" in p.fields ==> p.fields["InternetAccess"].JBool?)
    && ("VpcConfig" in p.fields ==> ValidVpcConfig(p.fields["VpcConfig"]))
    && ("LogConfig" in p.fields ==> ValidLogConfig(p.fields["LogConfig"]))
  }

  /** A service entry: an object tagged with the service type, with valid
      `Properties` if present and a valid function under every function name;
      any other member is allowed. */
  predicate ValidService(j: Json, isRole: Json -> bool, isFunction: Json -> bool) {
    && j.JObject?
    && "Type" in j.fields && j.fields["Type"] == JString(ServiceTypeName)
    && ("Properties" in j.fields ==> ValidProperties(j.fields["Properties"], isRole))
    && (forall k | k in j.fields && IsFunctionKey(k) :: isFunction(j.fields[k]))
  }

  // ---- The function-name pattern ----

  lemma NameStartMeaning(c: char)
    ensures InClass(c, NameStart) <==> IsNameStart(c)
  {
    var r := NameStart.ranges;
    if 'a' <= c <= 'z' { assert r[0].0 <= c <= r[0].1; }
    else if 'A' <= c <= 'Z' { assert r[1].0 <= c <= r[1].1; }
    else if c == '_' { assert r[2].0 <= c <= r[2].1; }
  }

  lemma NamePartMeaning(c: char)
    ensures InClass(c, NamePart) <==> IsNamePart(c)
  {
    var r := NamePart.ranges;
    if 'a' <= c <= 'z' { assert r[0].0 <= c <= r[0].1; }
    else if 'A' <= c <= 'Z' { assert r[1].0 <= c <= r[1].1; }
    else if '0' <= c <= '9' { assert r[2].0 <= c <= r[2].1; }
    else if c == '_' { assert r[3].0 <= c <= r[3].1; }
    else if c == '-' { assert r[4].0 <= c <= r[4].1; }
  }

  /** The lookahead `(?!Type|Properties)` at the start rejects every name that
      begins with `Type` or `Properties`, not only those two names. */
  lemma LookaheadMeaning(k: string)
    ensures StartsWithAny(k, ["Type", "Properties"]) <==> "Type" <= k || "Properties" <= k
  {
    var alts := ["Type", "Properties"];
    if "Type" <= k { assert alts[0] <= k; }
    if "Properties" <= k { assert alts[1] <= k; }
  }

  /** The pattern of the schema's `patternProperties` matches exactly the
      function names. */
  lemma FunctionKeyPatternMeaning(k: string)
    ensures Search(FunctionKeyPattern, k) <==> IsFunctionKey(k)
  {
    var p := FunctionKeyPattern;
    AnchoredSearch(p, k);
    assert p[1..][1..][1..][1..] == [EndAnchor];
    assert MatchAt(p, k, 0) == MatchAt(p[1..], k, 0);
    assert k[0..] == k;
    LookaheadMeaning(k);
    assert MatchAt(p[1..], k, 0)
        == (!("Type" <= k || "Properties" <= k) && MatchAt(p[1..][1..], k, 0));
    assert MatchAt(p[1..][1..], k, 0) == RepeatThen(NameStart, 1, 1, p[1..][1..][1..], k, 0);
    if 0 < |k| {
      NameStartMeaning(k[0]);
      assert RepeatThen(NameStart, 0, 0, p[1..][1..][1..], k, 1) == MatchAt(p[1..][1..][1..], k, 1);
      assert MatchAt(p[1..][1..][1..], k, 1) == RepeatThen(NamePart, 0, 127, [EndAnchor], k, 1);
      RepeatToEnd(NamePart, 0, 127, k, 1);
      forall i | 1 <= i < |k| ensures InClass(k[i], NamePart) <==> IsNamePart(k[i]) {
        NamePartMeaning(k[i]);
      }
    }
  }

  // ---- The schema value against the direct reading ----

  lemma StringSchemaMeaning(x: Json, resolve: (string, Json) -> bool)
    ensures Valid(StringSchema, x, resolve) <==> x.JString?
  {
    OneKeyword(Type(StringType), x, resolve);
  }

  /** One element of a policy list is accepted iff it is a name or a role, not both. */
  lemma PolicySchemaMeaning(x: Json, resolve: (string, Json) -> bool, isRole: Json -> bool)
    requires forall y :: resolve(RoleRef, y) == isRole(y)
    ensures Valid(PolicySchema, x, resolve) <==> ValidPolicy(x, isRole)
  {
    OneKeyword(OneOf([StringSchema, Ref(RoleRef)]), x, resolve);
    OneOfTwo(StringSchema, Ref(RoleRef), x, resolve);
    StringSchemaMeaning(x, resolve);
  }

  /** `Policies` is accepted iff exactly one of its three forms matches. */
  lemma PoliciesSchemaMeaning(p: Json, resolve: (string, Json) -> bool, isRole: Json -> bool)
    requires forall y :: resolve(RoleRef, y) == isRole(y)
    ensures Valid(PoliciesSchema, p, resolve) <==> ValidPolicies(p, isRole)
  {
    var list := Keywords([Type(ArrayType), Items(PolicySchema)]);
    OneKeyword(OneOf([StringSchema, Ref(RoleRef), list]), p, resolve);
    OneOfThree(StringSchema, Ref(RoleRef), list, p, resolve);
    StringSchemaMeaning(p, resolve);
    TwoKeywords(Type(ArrayType), Items(PolicySchema), p, resolve);
    if p.JArray? {
      forall i | 0 <= i < |p.elems|
        ensures Valid(PolicySchema, p.elems[i], resolve) <==> ValidPolicy(p.elems[i], isRole)
      {
        PolicySchemaMeaning(p.elems[i], resolve, isRole);
      }
    }
  }

  lemma VpcConfigMembersMeaning(v: Json, resolve: (string, Json) -> bool)
    requires v.JObject?
    ensures Holds(VpcConfigSchema.keywords[1], v, resolve)
        <==> && OptionalString(v.fields, "VpcId")
             && ("VSwitchIds" in v.fields ==> IsStringArray(v.fields["VSwitchIds"]))
             && OptionalString(v.fields, "SecurityGroupId")
  {
    var f := v.fields;
    var switches := Keywords([Type(ArrayType), Items(StringSchema)]);
    var props := [("VpcId", StringSchema), ("VSwitchIds", switches), ("SecurityGroupId", StringSchema)];
    assert VpcConfigSchema.keywords[1] == Properties(props);
    assert Holds(Properties(props), v, resolve)
        <==> && (props[0].0 in f ==> Valid(props[0].1, f[props[0].0], resolve))
             && (props[1].0 in f ==> Valid(props[1].1, f[props[1].0], resolve))
             && (props[2].0 in f ==> Valid(props[2].1, f[props[2].0], resolve));
    if "VpcId" in f { StringSchemaMeaning(f["VpcId"], resolve); }
    if "SecurityGroupId" in f { StringSchemaMeaning(f["SecurityGroupId"], resolve); }
    if "VSwitchIds" in f {
      var w := f["VSwitchIds"];
      TwoKeywords(Type(ArrayType), Items(StringSchema), w, resolve);
      if w.JArray? {
        forall i | 0 <= i < |w.elems| ensures Valid(StringSchema, w.elems[i], resolve) <==> w.elems[i].JString? {
          StringSchemaMeaning(w.elems[i], resolve);
        }
      }
    }
  }

  /** `VpcConfig` is accepted iff it has all three members, each well typed. */
  lemma VpcConfigSchemaMeaning(v: Json, resolve: (string, Json) -> bool)
    ensures Valid(VpcConfigSchema, v, resolve) <==> ValidVpcConfig(v)
  {
    var ks := VpcConfigSchema.keywords;
    ThreeKeywords(ks[0], ks[1], ks[2], v, resolve);
    if v.JObject? {
      VpcConfigMembersMeaning(v, resolve);
      var names := ["VpcId", "VSwitchIds", "SecurityGroupId"];
      assert ks[2] == Required(names);
      assert Holds(ks[2], v, resolve) <==> names[0] in v.fields && names[1] in v.fields && names[2] in v.fields;
    }
  }

  /** `LogConfig` is accepted iff it has both members, each a string. */
  lemma LogConfigSchemaMeaning(l: Json, resolve: (string, Json) -> bool)
    ensures Valid(LogConfigSchema, l, resolve) <==> ValidLogConfig(l)
  {
    var ks := LogConfigSchema.keywords;
    ThreeKeywords(ks[0], ks[1], ks[2], l, resolve);
    if l.JObject? {
      var f := l.fields;
      var props := [("Project", StringSchema), ("Logstore", StringSchema)];
      assert ks[1] == Properties(props);
      assert Holds(ks[1], l, resolve)
          <==> && (props[0].0 in f ==> Valid(props[0].1, f[props[0].0], resolve))
               && (props[1].0 in f ==> Valid(props[1].1, f[props[1].0], resolve));
      var names := ["Project", "Logstore"];
      assert ks[2] == Required(names);
      assert Holds(ks[2], l, resolve) <==> names[0] in f && names[1] in f;
      if "Project" in f { StringSchemaMeaning(f["Project"], resolve); }
      if "Logstore" in f { StringSchemaMeaning(f["Logstore"], resolve); }
    }
  }

  lemma PropertiesMembersMeaning(p: Json, resolve: (string, Json) -> bool, isRole: Json -> bool)
    requires forall y :: resolve(RoleRef, y) == isRole(y)
    requires p.JObject?
    ensures Holds(PropertiesSchema.keywords[1], p, resolve)
        <==> && OptionalString(p.fields, "Description")
             && OptionalString(p.fields, "Role")
             && ("Policies" in p.fields ==> ValidPolicies(p.fields["Policies"], isRole))
             && ("InternetAccess" in p.fields ==> p.fields["InternetAccess"].JBool?)
             && ("VpcConfig" in p.fields ==> ValidVpcConfig(p.fields["VpcConfig"]))
             && ("LogConfig" in p.fields ==> ValidLogConfig(p.fields["LogConfig"]))
  {
    var f := p.fields;
    var props := PropertiesSchema.keywords[1].props;
    assert Holds(PropertiesSchema.keywords[1], p, resolve)
        <==> && (props[0].0 in f ==> Valid(props[0].1, f[props[0].0], resolve))
             && (props[1].0 in f ==> Valid(props[1].1, f[props[1].0], resolve))
             && (props[2].0 in f ==> Valid(props[2].1, f[props[2].0], resolve))
             && (props[3].0 in f ==> Valid(props[3].1, f[props[3].0], resolve))
             && (props[4].0 in f ==> Valid(props[4].1, f[props[4].0], resolve))
             && (props[5].0 in f ==> Valid(props[5].1, f[props[5].0], resolve));
    if "Description" in f { StringSchemaMeaning(f["Description"], resolve); }
    if "Role" in f { StringSchemaMeaning(f["Role"], resolve); }
    if "Policies" in f { PoliciesSchemaMeaning(f["Policies"], resolve, isRole); }
    if "InternetAccess" in f { OneKeyword(Type(BooleanType), f["InternetAccess"], resolve); }
    if "VpcConfig" in f { VpcConfigSchemaMeaning(f["VpcConfig"], resolve); }
    if "LogConfig" in f { LogConfigSchemaMeaning(f["LogConfig"], resolve); }
  }

  /** A service's `Properties` is accepted iff it is an object whose known
      members are well formed. */
  lemma PropertiesSchemaMeaning(p: Json, resolve: (string, Json) -> bool, isRole: Json -> bool)
    requires forall y :: resolve(RoleRef, y) == isRole(y)
    ensures Valid(PropertiesSchema, p, resolve) <==> ValidProperties(p, isRole)
  {
    var ks := PropertiesSchema.keywords;
    TwoKeywords(ks[0], ks[1], p, resolve);
    if p.JObject? {
      PropertiesMembersMeaning(p, resolve, isRole);
    }
  }

  lemma ServiceMembersMeaning(j: Json, resolve: (string, Json) -> bool, isRole: Json -> bool)
    requires forall y :: resolve(RoleRef, y) == isRole(y)
    requires j.JObject?
    ensures Holds(ServiceResourceSchema.keywords[3], j, resolve)
        <==> && ("Type" in j.fields ==> j.fields["Type"] == JString(ServiceTypeName))
             && ("Properties" in j.fields ==> ValidProperties(j.fields["Properties"], isRole))
  {
    var f := j.fields;
    var typeSchema := Keywords([Type(StringType), Const(JString(ServiceTypeName))]);
    var props := [("Type", typeSchema), ("Properties", PropertiesSchema)];
    assert ServiceResourceSchema.keywords[3] == Properties(props);
    assert Holds(Properties(props), j, resolve)
        <==> && (props[0].0 in f ==> Valid(props[0].1, f[props[0].0], resolve))
             && (props[1].0 in f ==> Valid(props[1].1, f[props[1].0], resolve));
    if "Type" in f { TwoKeywords(Type(StringType), Const(JString(ServiceTypeName)), f["Type"], resolve); }
    if "Properties" in f { PropertiesSchemaMeaning(f["Properties"], resolve, isRole); }
  }

  lemma FunctionMembersMeaning(j: Json, resolve: (string, Json) -> bool, isFunction: Json -> bool)
    requires forall y :: resolve(FunctionRef, y) == isFunction(y)
    requires j.JObject?
    ensures Holds(ServiceResourceSchema.keywords[4], j, resolve)
        <==> forall k | k in j.fields && IsFunctionKey(k) :: isFunction(j.fields[k])
  {
    var patterns := [(FunctionKeyPattern, Ref(FunctionRef))];
    assert ServiceResourceSchema.keywords[4] == PatternProperties(patterns);
    forall k ensures Search(FunctionKeyPattern, k) <==> IsFunctionKey(k) {
      FunctionKeyPatternMeaning(k);
    }
    assert Holds(PatternProperties(patterns), j, resolve)
        <==> forall k | k in j.fields && Search(patterns[0].0, k) :: Valid(patterns[0].1, j.fields[k], resolve);
  }

  /** The service resource schema accepts exactly the entries of the direct
      reading, whatever the role and function schemas are. */
  lemma ServiceSchemaMeaning(j: Json, resolve: (string, Json) -> bool, isRole: Json -> bool, isFunction: Json -> bool)
    requires forall y :: resolve(RoleRef, y) == isRole(y)
    requires forall y :: resolve(FunctionRef, y) == isFunction(y)
    ensures Valid(ServiceResourceSchema, j, resolve) <==> ValidService(j, isRole, isFunction)
  {
    var ks := ServiceResourceSchema.keywords;
    assert Valid(ServiceResourceSchema, j, resolve)
        <==> && Holds(ks[0], j, resolve) && Holds(ks[1], j, resolve) && Holds(ks[2], j, resolve)
             && Holds(ks[3], j, resolve) && Holds(ks[4], j, resolve) && Holds(ks[5], j, resolve);
    if j.JObject? {
      ServiceMembersMeaning(j, resolve, isRole);
      FunctionMembersMeaning(j, resolve, isFunction);
      var names := ["Type"];
      assert ks[5] == Required(names);
      assert Holds(ks[5], j, resolve) <==> names[0] in j.fields;
    }
  }
}
