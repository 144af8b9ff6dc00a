/**
 * The two tables of the ledger store and the connection probe that guards
 * every pooled connection (database.py).
 *
 * A table is a map from its primary key to the rest of the row, so "at most one
 * row per key" holds by construction: `users` is keyed by member id, `companies`
 * by company name.
 */
module Database {
  import opened Wrappers

  type MemberId = int
  type RoleId = int
  type ChannelId = int

  /** A row of `users`; the member id is the key it is stored under. */
  datatype User = User(balance: int, blacklisted: bool, companyName: Option<string>, donations: int)

  /** A row of `companies`; the name is the key it is stored under. */
  datatype Company = Company(tag: string, categoryId: int, role: RoleId, faction: Option<string>, balance: int)

  const NAME_LENGTH := 50
  const TAG_LENGTH := 4

  /** A user row with every column at its declared default and the given balance. */
  function NewUser(balance: int): (u: User)
    ensures u.balance == balance
    ensures !u.blacklisted && u.companyName == None && u.donations == 0
  {
    User(balance, false, None, 0)
  }

  /** A company row as inserted without an explicit balance. */
  function NewCompany(tag: string, categoryId: int, role: RoleId, faction: Option<string>): (c: Company)
    ensures c.balance == 0 && c.tag == tag && c.categoryId == categoryId && c.role == role
  {
    Company(tag, categoryId, role, faction, 0)
  }

  datatype Tables = Tables(users: map<MemberId, User>, companies: map<string, Company>)
  {
    /**
     * The schema's constraints: a member's company is a row of `companies`
     * (foreign key), names fit their column, tags are at most four characters
     * and no two companies share a tag.
     */
    ghost predicate Valid()
    {
      && (forall id :: id in users && users[id].companyName.Some? ==> users[id].companyName.value in companies)
      && (forall name :: name in companies ==> |name| <= NAME_LENGTH && |companies[name].tag| <= TAG_LENGTH)
      && (forall n1, n2 :: n1 in companies && n2 in companies && n1 != n2 ==> companies[n1].tag != companies[n2].tag)
    }
  }

  /**
   * Deleting a company row: the foreign key is `ON DELETE SET NULL`, so its
   * members lose their company and keep everything else.
   */
  function DeleteCompany(t: Tables, name: string): (r: Tables)
    requires t.Valid()
    ensures r.Valid()
    ensures r.companies == t.companies - {name}
    ensures r.users.Keys == t.users.Keys
    ensures forall id :: id in t.users && t.users[id].companyName == Some(name) ==>
              r.users[id] == t.users[id].(companyName := None)
    ensures forall id :: id in t.users && t.users[id].companyName != Some(name) ==> r.users[id] == t.users[id]
  {
    var users := map id | id in t.users ::
      if t.users[id].companyName == Some(name) then t.users[id].(companyName := None) else t.users[id];
    Tables(users, t.companies - {name})
  }

  /** Moving company balances, and nothing else, keeps the schema valid. */
  lemma RebalancedValid(t: Tables, companies: map<string, Company>)
    requires t.Valid()
    requires companies.Keys == t.companies.Keys
    requires forall n :: n in companies ==> companies[n] == t.companies[n].(balance := companies[n].balance)
    ensures Tables(t.users, companies).Valid()
  {
  }

  /**
   * Renaming a company row: the foreign key is `ON UPDATE CASCADE`, so its
   * members follow it to the new name. The new name must be a free primary key.
   */
  function RenameCompany(t: Tables, from: string, to: string): (r: Tables)
    requires t.Valid()
    requires from in t.companies && to !in t.companies && |to| <= NAME_LENGTH
    ensures r.Valid()
    ensures to in r.companies && from !in r.companies && r.companies[to] == t.companies[from]
    ensures forall n :: n in t.companies && n != from ==> n in r.companies && r.companies[n] == t.companies[n]
    ensures r.users.Keys == t.users.Keys
    ensures forall id :: id in t.users && t.users[id].companyName == Some(from) ==>
              r.users[id] == t.users[id].(companyName := Some(to))
    ensures forall id :: id in t.users && t.users[id].companyName != Some(from) ==> r.users[id] == t.users[id]
  {
    var users := map id | id in t.users ::
      if t.users[id].companyName == Some(from) then t.users[id].(companyName := Some(to)) else t.users[id];
    Tables(users, (t.companies - {from})[to := t.companies[from]])
  }

  /**
   * What executing `SELECT 1` on a pooled connection produced. The listener is
   * handed the raw driver connection, so a failure is the MySQL driver's own
   * exception: its `OperationalError` (carrying the client error code) or another one.
   */
  datatype Probe = ProbeOk | OperationalError(code: int) | OtherError

  /** What the checkout listener does with the probe. */
  datatype Checkout = UseConnection | RaiseDisconnection | Reraise(error: Probe)

  /** MySQL client codes for a lost server connection: 2006, 2013, 2055. */
  const DISCONNECT_CODES: set<int> := {2006, 2013, 2055}

  /**
   * The checkout listener as written: its `except` names SQLAlchemy's own
   * `OperationalError`, which the raw driver cursor never raises, so every
   * failure of the probe propagates unchanged and the pool never retries.
   */
  function CheckConnectionAsWritten(probe: Probe): (r: Checkout)
    ensures r == UseConnection <==> probe == ProbeOk
    ensures r != RaiseDisconnection
    ensures r.Reraise? ==> r.error == probe
  {
    if probe == ProbeOk then UseConnection else Reraise(probe)
  }

  /**
   * The checkout listener as intended: a lost connection becomes a disconnection
   * error (which makes the pool retry on a fresh connection); every other failure
   * propagates.
   */
  function CheckConnection(probe: Probe): (r: Checkout)
    ensures r == UseConnection <==> probe == ProbeOk
    ensures r == RaiseDisconnection <==> probe.OperationalError? && probe.code in DISCONNECT_CODES
    ensures r.Reraise? ==> r.error == probe
  {
    match probe
    case ProbeOk => UseConnection
    case OperationalError(code) => if code in DISCONNECT_CODES then RaiseDisconnection else Reraise(probe)
    case OtherError => Reraise(probe)
  }

  /**
   * The two listeners differ exactly on a lost connection: there the listener as
   * written re-raises the driver error, where a disconnection was meant.
   */
  lemma LostConnectionNotRetried(probe: Probe)
    ensures CheckConnectionAsWritten(probe) != CheckConnection(probe) <==>
              probe.OperationalError? && probe.code in DISCONNECT_CODES
    ensures probe.OperationalError? && probe.code in DISCONNECT_CODES ==>
              CheckConnectionAsWritten(probe) == Reraise(probe) && CheckConnection(probe) == RaiseDisconnection
  {
  }
}
