/** The schema for one `Aliyun::Serverless::Service` entry of a template,
    written as a value of the schema vocabulary, keyword for keyword. */
module ServiceSchema {
  import opened Json
  import opened Pattern
  import opened JsonSchema

  /** The only accepted value of a service's `Type` member. */
  const ServiceTypeName: string := "Aliyun::Serverless::Service"

  /** The `$ref` targets of the role and function schemas, registered elsewhere. */
  const RoleRef: string := "/Resources/Service/Role"
  const FunctionRef: string := "/Resources/Service/Function"

  const StringSchema: Schema := Keywords([Type(StringType)])
  const BooleanSchema: Schema := Keywords([Type(BooleanType)])

  /** One policy: a policy name, or an inline role document. */
  const PolicySchema: Schema := Keywords([OneOf([StringSchema, Ref(RoleRef)])])

  /** `Policies`: a policy name, an inline role document, or a list of policies. */
  const PoliciesSchema: Schema :=
    Keywords([OneOf([
      StringSchema,
      Ref(RoleRef),
      Keywords([Type(ArrayType), Items(PolicySchema)])
    ])])

  const VpcConfigSchema: Schema :=
    Keywords([
      Type(ObjectType),
      Properties([
        ("VpcId", StringSchema),
        ("VSwitchIds", Keywords([Type(ArrayType), Items(StringSchema)])),
        ("SecurityGroupId", StringSchema)
      ]),
      Required(["VpcId", "VSwitchIds", "SecurityGroupId"])
    ])

  const LogConfigSchema: Schema :=
    Keywords([
      Type(ObjectType),
      Properties([
        ("Project", StringSchema),
        ("Logstore", StringSchema)
      ]),
      Required(["Project", "Logstore"])
    ])

  /** The service's `Properties` member. */
  const PropertiesSchema: Schema :=
    Keywords([
      Type(ObjectType),
      Properties([
        ("Description", StringSchema),
        ("Role", StringSchema),
        ("Policies", PoliciesSchema),
        ("InternetAccess", BooleanSchema),
        ("VpcConfig", VpcConfigSchema),
        ("LogConfig", LogConfigSchema)
      ])
    ])

  /** `[a-zA-Z_]` */
  const NameStart: CharClass := CharClass([('a', 'z'), ('A', 'Z'), ('_', '_')])
  /** `[a-zA-Z0-9_-]` (a trailing `-` in a class is a literal hyphen) */
  const NamePart: CharClass := CharClass([('a', 'z'), ('A', 'Z'), ('0', '9'), ('_', '_'), ('-', '-')])

  /** `^(?!Type|Properties)[a-zA-Z_][a-zA-Z0-9_-]{0,127}$`: the member names that
      hold nested functions. */
  const FunctionKeyPattern: Regex :=
    [StartAnchor, NegLookahead(["Type", "Properties"]), Repeat(NameStart, 1, 1), Repeat(NamePart, 0, 127), EndAnchor]

  const ServiceResourceSchema: Schema :=
    Keywords([
      Id("/Resources/Service"),
      Type(ObjectType),
      Description("Service"),
      Properties([
        ("Type", Keywords([Type(StringType), Const(JString(ServiceTypeName))])),
        ("Properties", PropertiesSchema)
      ]),
      PatternProperties([(FunctionKeyPattern, Ref(FunctionRef))]),
      Required(["Type"])
    ])
}
