/** The entities and edges of the modelled query files. Every `load*` function of the generated code is
    an instance of one of three shapes; which one, and over which key column, is fixed per edge. */
module Schema {

  datatype Table =
    | Account | Group | Proxy | UsageLog | AccountGroup
    | APIKey | User
    | AuthIdentity | AuthIdentityChannel | IdentityAdoptionDecision

  /** The id and key columns; every other column is `Data`. */
  datatype Column =
    | ID | ProxyID | ParentAccountID | AccountID | GroupID | APIKeyID | UserID | IdentityID
    | Data(name: string)

  datatype Edge =
    | AccountGroups | AccountProxy | AccountParent | AccountChildren | AccountUsageLogs | AccountAccountGroups
    | APIKeyUser | APIKeyGroup | APIKeyUsageLogs
    | AccountGroupAccount | AccountGroupGroup
    | AuthIdentityUser | AuthIdentityChannels | AuthIdentityAdoptionDecisions

  /** Many-to-many through the account_groups table, many-to-one with the key on the node, one-to-many
      with the key on the neighbour. A key is nullable or required. */
  datatype Shape = ManyToMany | ManyToOne(fk: Column, nullable: bool) | OneToMany(fk: Column, nullable: bool)

  function Source(e: Edge): Table {
    match e
    case AccountGroups | AccountProxy | AccountParent | AccountChildren | AccountUsageLogs
      | AccountAccountGroups => Account
    case APIKeyUser | APIKeyGroup | APIKeyUsageLogs => APIKey
    case AccountGroupAccount | AccountGroupGroup => AccountGroup
    case AuthIdentityUser | AuthIdentityChannels | AuthIdentityAdoptionDecisions => AuthIdentity
  }

  function Target(e: Edge): Table {
    match e
    case AccountGroups | APIKeyGroup | AccountGroupGroup => Group
    case AccountProxy => Proxy
    case AccountParent | AccountChildren | AccountGroupAccount => Account
    case AccountUsageLogs | APIKeyUsageLogs => UsageLog
    case AccountAccountGroups => AccountGroup
    case APIKeyUser | AuthIdentityUser => User
    case AuthIdentityChannels => AuthIdentityChannel
    case AuthIdentityAdoptionDecisions => IdentityAdoptionDecision
  }

  function ShapeOf(e: Edge): Shape {
    match e
    case AccountGroups => ManyToMany
    case AccountProxy => ManyToOne(ProxyID, true)
    case AccountParent => ManyToOne(ParentAccountID, true)
    case AccountChildren => OneToMany(ParentAccountID, true)
    case AccountUsageLogs => OneToMany(AccountID, false)
    case AccountAccountGroups => OneToMany(AccountID, false)
    case APIKeyUser => ManyToOne(UserID, false)
    case APIKeyGroup => ManyToOne(GroupID, true)
    case APIKeyUsageLogs => OneToMany(APIKeyID, false)
    case AccountGroupAccount => ManyToOne(AccountID, false)
    case AccountGroupGroup => ManyToOne(GroupID, false)
    case AuthIdentityUser => ManyToOne(UserID, false)
    case AuthIdentityChannels => OneToMany(IdentityID, false)
    case AuthIdentityAdoptionDecisions => OneToMany(IdentityID, true)
  }

  /** account_groups has a composite key and no id column. */
  predicate HasId(t: Table) {
    t != AccountGroup
  }
}
