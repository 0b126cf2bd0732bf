/** The core-auth tables and the calls that change them (src/core-auth.js): token families with refresh
    rotation and reuse detection, revocation cascades and authorization versions. Token hashes and minted ids
    are opaque; every call runs to completion. */
module AuthStore {
  import opened Ordering

  type Id = nat
  type Resource = nat

  datatype AccountStatus = Open | Suspended | ClosedAccount
  datatype AuthenticatorStatus = Usable | RevokedAuthenticator | Replaced
  datatype RefreshStatus = Active | Rotated | Revoked

  datatype Account = Account(status: AccountStatus, version: int, homeTenant: Id)
  datatype Membership = Membership(active: bool, version: int)
  datatype Authenticator = Authenticator(account: Id, status: AuthenticatorStatus)
  datatype Connection = Connection(account: Id, tenant: Id, principal: Id, active: bool)
  datatype Family = Family(
    connection: Id, principal: Id, account: Id, tenant: Id, authenticator: Id, resource: Resource,
    active: bool, version: int, generation: nat)
  datatype Access = Access(family: Id, principal: Id, connection: Id, resource: Resource, expires: int, revoked: bool)
  datatype Refresh = Refresh(family: Id, generation: nat, status: RefreshStatus, expires: int)

  datatype Store = Store(
    accounts: map<Id, Account>, memberships: map<(Id, Id), Membership>, authenticators: map<Id, Authenticator>,
    connections: map<Id, Connection>, families: map<Id, Family>, access: map<Id, Access>, refresh: map<Id, Refresh>)

  /** How resources are compared: equivalence when rotating, and the audience refused outright. */
  datatype Rules = Rules(matches: (Resource, Resource) -> bool, mcpB: Resource -> bool)

  const ACCESS_TOKEN_TTL := 900_000
  const REFRESH_TOKEN_TTL := 2_592_000_000

  datatype Error =
    | InvalidGrant | InvalidToken | FamilyRevoked
    | AccountNotFound | AccountNotActive | StaleVersion | ConnectionRevoked | MembershipRequired
    | AuthenticatorNotFound | ConnectionNotFound | MembershipNotFound | StepUpRequired
  datatype Outcome = Ok | Err(error: Error)

  /** enforceAuthzFreshness: None when fresh. */
  function Staleness(s: Store, f: Family): Option<Error> {
    if f.account !in s.accounts then Some(AccountNotFound)
    else if !s.accounts[f.account].status.Open? then Some(AccountNotActive)
    else if (f.account, f.tenant) !in s.memberships || !s.memberships[(f.account, f.tenant)].active then
      Some(StaleVersion)
    else
      var a, m := s.accounts[f.account].version, s.memberships[(f.account, f.tenant)].version;
      if f.version < (if a < m then m else a) then Some(StaleVersion)
      else if f.connection !in s.connections || !s.connections[f.connection].active then Some(ConnectionRevoked)
      else None
  }

  /** issueTokenPair: the ids are the hashes of the two new random tokens. */
  function IssuePair(s: Store, family: Id, f: Family, generation: nat, now: int, accessId: Id, refreshId: Id): Store {
    var access := Access(family, f.principal, f.connection, f.resource, now + ACCESS_TOKEN_TTL, false);
    var refresh := Refresh(family, generation, Active, now + REFRESH_TOKEN_TTL);
    s.(access := s.access[accessId := access], refresh := s.refresh[refreshId := refresh])
  }

  datatype NewIds = NewIds(connection: Id, principal: Id, family: Id, access: Id, refresh: Id)

  function MintFamily(s: Store, f: Family, ids: NewIds, now: int): Store {
    IssuePair(s.(families := s.families[ids.family := f]), ids.family, f, 0, now, ids.access, ids.refresh)
  }

  /** mintConnectionUnderAccount */
  function MintConnection(s: Store, account: Id, tenant: Option<Id>, authenticator: Id, resource: Resource, ids: NewIds,
                          now: int)
    : (Store, Outcome)
  {
    if account !in s.accounts then (s, Err(AccountNotFound))
    else if !s.accounts[account].status.Open? then (s, Err(AccountNotActive))
    else
      var t := if tenant.Some? then tenant.value else s.accounts[account].homeTenant;
      if (account, t) !in s.memberships || !s.memberships[(account, t)].active then (s, Err(MembershipRequired))
      else if authenticator !in s.authenticators || s.authenticators[authenticator].account != account
           || !s.authenticators[authenticator].status.Usable? then (s, Err(AuthenticatorNotFound))
      else
        var s1 := s.(connections := s.connections[ids.connection := Connection(account, t, ids.principal, true)]);
        var f := Family(ids.connection, ids.principal, account, t, authenticator, resource, true,
                        s.accounts[account].version, 0);
        (MintFamily(s1, f, ids, now), Ok)
  }

  function RevokeOneFamily(f: Family, gone: bool): Family { if gone then f.(active := false) else f }
  function RevokeOneRefresh(r: Refresh, gone: bool): Refresh {
    if gone && r.status.Active? then r.(status := Revoked) else r
  }
  function RevokeOneAccess(a: Access, gone: bool): Access { if gone then a.(revoked := true) else a }

  function RevokedFamilies(families: map<Id, Family>, ids: set<Id>): map<Id, Family> {
    map f | f in families :: RevokeOneFamily(families[f], f in ids)
  }

  function RevokedRefresh(refresh: map<Id, Refresh>, ids: set<Id>): map<Id, Refresh> {
    map h | h in refresh :: RevokeOneRefresh(refresh[h], refresh[h].family in ids)
  }

  function RevokedAccess(access: map<Id, Access>, ids: set<Id>): map<Id, Access> {
    map h | h in access :: RevokeOneAccess(access[h], access[h].family in ids)
  }

  /** Revoking a set of families: each, its active refresh tokens and its access tokens. */
  function RevokeFamilies(s: Store, ids: set<Id>): Store {
    s.(families := RevokedFamilies(s.families, ids), refresh := RevokedRefresh(s.refresh, ids),
       access := RevokedAccess(s.access, ids))
  }

  function RevokeFamily(s: Store, family: Id): Store {
    if family in s.families then RevokeFamilies(s, {family}) else s
  }

  function ActiveFamilies(s: Store, p: Family -> bool): set<Id> {
    set f | f in s.families && s.families[f].active && p(s.families[f])
  }

  function RevokeConnection(s: Store, connection: Id): (Store, Outcome) {
    if connection !in s.connections then (s, Err(ConnectionNotFound))
    else
      var s1 := s.(connections := s.connections[connection := s.connections[connection].(active := false)]);
      (RevokeFamilies(s1, ActiveFamilies(s, (f: Family) => f.connection == connection)), Ok)
  }

  function RevokeAuthenticator(s: Store, authenticator: Id, stepUp: bool): (Store, Outcome) {
    if !stepUp then (s, Err(StepUpRequired))
    else if authenticator !in s.authenticators then (s, Err(AuthenticatorNotFound))
    else
      var row := s.authenticators[authenticator].(status := RevokedAuthenticator);
      var s1 := s.(authenticators := s.authenticators[authenticator := row]);
      (RevokeFamilies(s1, ActiveFamilies(s, (f: Family) => f.authenticator == authenticator)), Ok)
  }

  /** A successful rotation: the old token, the family's generation and the new pair. */
  function AfterRotation(s: Store, token: Id, now: int, accessId: Id, refreshId: Id): Store
    requires token in s.refresh && s.refresh[token].family in s.families
  {
    var row := s.refresh[token];
    var f := s.families[row.family];
    IssuePair(Advanced(s, token), row.family, f, f.generation + 1, now, accessId, refreshId)
  }

  function Advanced(s: Store, token: Id): Store
    requires token in s.refresh && s.refresh[token].family in s.families
  {
    var row := s.refresh[token];
    var f := s.families[row.family];
    s.(refresh := s.refresh[token := row.(status := Rotated)],
       families := s.families[row.family := f.(generation := f.generation + 1)])
  }

  /** rotateRefreshToken */
  function Rotate(s: Store, rules: Rules, token: Id, expected: Option<Resource>, now: int, accessId: Id, refreshId: Id)
    : (Store, Outcome)
  {
    if token !in s.refresh then (s, Err(InvalidGrant))
    else
      var row := s.refresh[token];
      if !row.status.Active? then (RevokeFamily(s, row.family), Err(FamilyRevoked))
      else if row.expires < now then (s, Err(InvalidGrant))
      else if row.family !in s.families || !s.families[row.family].active then (s, Err(InvalidGrant))
      else
        var f := s.families[row.family];
        if expected.Some? && f.resource != expected.value && !rules.matches(f.resource, expected.value) then
          (s, Err(InvalidGrant))
        else
          match Staleness(s, f)
          case Some(error) => (s, Err(error))
          case None => (AfterRotation(s, token, now, accessId, refreshId), Ok)
  }

  /** validateAccessToken, for a well-formed token */
  predicate Validates(s: Store, rules: Rules, token: Id, audiences: seq<Resource>, now: int) {
    && token in s.access
    && var row := s.access[token];
       && !row.revoked && row.expires >= now
       && row.resource in audiences && !rules.mcpB(row.resource)
       && row.family in s.families && s.families[row.family].active
       && row.principal == s.families[row.family].principal && row.connection == s.families[row.family].connection
       && Staleness(s, s.families[row.family]).None?
  }

  function BumpAccount(s: Store, account: Id): (Store, Outcome) {
    if account !in s.accounts then (s, Err(AccountNotFound))
    else (s.(accounts := s.accounts[account := s.accounts[account].(version := s.accounts[account].version + 1)]), Ok)
  }

  /** bumpAuthzVersion with a tenant also revokes the membership. */
  function BumpMembership(s: Store, account: Id, tenant: Id): (Store, Outcome) {
    if (account, tenant) !in s.memberships then (s, Err(MembershipNotFound))
    else
      var m := s.memberships[(account, tenant)];
      (s.(memberships := s.memberships[(account, tenant) := Membership(false, m.version + 1)]), Ok)
  }

  /** joinTenant re-activates an existing membership and keeps its version. */
  function JoinTenant(s: Store, account: Id, tenant: Id): (Store, Outcome) {
    if account !in s.accounts then (s, Err(AccountNotFound))
    else
      var version := if (account, tenant) in s.memberships then s.memberships[(account, tenant)].version else 1;
      (s.(memberships := s.memberships[(account, tenant) := Membership(true, version)]), Ok)
  }

  /** What the revocation endpoint is handed: a token with the prefix of either kind, by its hash, or something else. */
  datatype Presented = RefreshToken(id: Id) | AccessToken(id: Id) | OtherToken

  /** handleOauthRevokeRequest: a refresh token takes its family with it, an access token goes alone. */
  function OauthRevoke(s: Store, p: Presented): Store {
    match p
    case RefreshToken(id) => if id in s.refresh then RevokeFamily(s, s.refresh[id].family) else s
    case AccessToken(id) =>
      if id in s.access then s.(access := s.access[id := s.access[id].(revoked := true)]) else s
    case OtherToken => s
  }

  /** The tables as mutable state; the methods are sequences of SQL statements. */
  class AuthDb {
    const rules: Rules
    var accounts: map<Id, Account>
    var memberships: map<(Id, Id), Membership>
    var authenticators: map<Id, Authenticator>
    var connections: map<Id, Connection>
    var families: map<Id, Family>
    var access: map<Id, Access>
    var refresh: map<Id, Refresh>

    function View(): Store
      reads this
    {
      Store(accounts, memberships, authenticators, connections, families, access, refresh)
    }

    constructor (rules: Rules)
      ensures this.rules == rules
      ensures View() == Store(map[], map[], map[], map[], map[], map[], map[])
    {
      this.rules := rules;
      accounts, memberships, authenticators, connections := map[], map[], map[], map[];
      families, access, refresh := map[], map[], map[];
    }

    method IssueTokenPair(family: Id, f: Family, generation: nat, now: int, accessId: Id, refreshId: Id)
      modifies this
      ensures View() == IssuePair(old(View()), family, f, generation, now, accessId, refreshId)
    {
      var expires := now + ACCESS_TOKEN_TTL;
      access := access[accessId := Access(family, f.principal, f.connection, f.resource, expires, false)];
      refresh := refresh[refreshId := Refresh(family, generation, Active, now + REFRESH_TOKEN_TTL)];
    }

    method MintTokenFamily(f: Family, ids: NewIds, now: int)
      modifies this
      ensures View() == MintFamily(old(View()), f, ids, now)
    {
      families := families[ids.family := f];
      IssueTokenPair(ids.family, f, 0, now, ids.access, ids.refresh);
    }

    method MintConnectionUnderAccount(account: Id, tenant: Option<Id>, authenticator: Id, resource: Resource,
                                      ids: NewIds, now: int)
      returns (r: Outcome)
      modifies this
      ensures (View(), r) == MintConnection(old(View()), account, tenant, authenticator, resource, ids, now)
    {
      if account !in accounts { return Err(AccountNotFound); }
      if !accounts[account].status.Open? { return Err(AccountNotActive); }
      var t := if tenant.Some? then tenant.value else accounts[account].homeTenant;
      if (account, t) !in memberships || !memberships[(account, t)].active { return Err(MembershipRequired); }
      if authenticator !in authenticators || authenticators[authenticator].account != account {
        return Err(AuthenticatorNotFound);
      }
      if !authenticators[authenticator].status.Usable? { return Err(AuthenticatorNotFound); }
      connections := connections[ids.connection := Connection(account, t, ids.principal, true)];
      MintTokenFamily(
        Family(ids.connection, ids.principal, account, t, authenticator, resource, true, accounts[account].version, 0),
        ids, now);
      r := Ok;
    }

    method RotateRefreshToken(token: Id, expected: Option<Resource>, now: int, accessId: Id, refreshId: Id)
      returns (r: Outcome)
      modifies this
      ensures (View(), r) == Rotate(old(View()), rules, token, expected, now, accessId, refreshId)
    {
      if token !in refresh { return Err(InvalidGrant); }
      var row := refresh[token];
      if !row.status.Active? {
        RevokeTokenFamily(row.family);
        return Err(FamilyRevoked);
      }
      if row.expires < now { return Err(InvalidGrant); }
      if row.family !in families || !families[row.family].active { return Err(InvalidGrant); }
      var f := families[row.family];
      if expected.Some? && f.resource != expected.value && !rules.matches(f.resource, expected.value) {
        return Err(InvalidGrant);
      }
      var stale := Staleness(View(), f);
      if stale.Some? { return Err(stale.value); }
      refresh := refresh[token := row.(status := Rotated)];
      families := families[row.family := f.(generation := f.generation + 1)];
      IssueTokenPair(row.family, f, f.generation + 1, now, accessId, refreshId);
      r := Ok;
    }

    method RevokeTokenFamily(family: Id)
      modifies this
      ensures View() == RevokeFamily(old(View()), family)
    {
      if family !in families { return; }
      families := RevokedFamilies(families, {family});
      refresh := RevokedRefresh(refresh, {family});
      access := RevokedAccess(access, {family});
    }

    /** The loop over the selected families, one revocation after another. */
    method RevokeEach(rows: set<Id>)
      requires rows <= families.Keys
      modifies this
      ensures View() == RevokeFamilies(old(View()), rows)
    {
      var todo := rows;
      ghost var done := {};
      RevokeNone(View());
      while todo != {}
        invariant done + todo == rows && done !! todo
        invariant View() == RevokeFamilies(old(View()), done)
        decreases todo
      {
        var family :| family in todo;
        RevokeOneMore(old(View()), done, family);
        RevokeTokenFamily(family);
        todo, done := todo - {family}, done + {family};
      }
      assert done == rows;
    }

    method RevokeConnectionAndFamilies(connection: Id) returns (r: Outcome)
      modifies this
      ensures (View(), r) == RevokeConnection(old(View()), connection)
    {
      if connection !in connections { return Err(ConnectionNotFound); }
      connections := connections[connection := connections[connection].(active := false)];
      var rows := ActiveFamilies(View(), (f: Family) => f.connection == connection);
      assert rows == ActiveFamilies(old(View()), (f: Family) => f.connection == connection);
      RevokeEach(rows);
      r := Ok;
    }

    method RevokeAuthenticatorAndFamilies(authenticator: Id, stepUp: bool) returns (r: Outcome)
      modifies this
      ensures (View(), r) == RevokeAuthenticator(old(View()), authenticator, stepUp)
    {
      if !stepUp { return Err(StepUpRequired); }
      if authenticator !in authenticators { return Err(AuthenticatorNotFound); }
      authenticators := authenticators[authenticator := authenticators[authenticator].(status := RevokedAuthenticator)];
      var rows := ActiveFamilies(View(), (f: Family) => f.authenticator == authenticator);
      assert rows == ActiveFamilies(old(View()), (f: Family) => f.authenticator == authenticator);
      RevokeEach(rows);
      r := Ok;
    }

    method HandleOauthRevoke(p: Presented)
      modifies this
      ensures View() == OauthRevoke(old(View()), p)
    {
      match p
      case RefreshToken(id) =>
        if id in refresh { RevokeTokenFamily(refresh[id].family); }
      case AccessToken(id) =>
        if id in access { access := access[id := access[id].(revoked := true)]; }
      case OtherToken =>
    }

    method BumpAuthzVersion(account: Id, tenant: Option<Id>) returns (r: Outcome)
      modifies this
      ensures (View(), r) == if tenant.Some? then BumpMembership(old(View()), account, tenant.value)
              else BumpAccount(old(View()), account)
    {
      if tenant.Some? {
        var key := (account, tenant.value);
        if key !in memberships { return Err(MembershipNotFound); }
        memberships := memberships[key := Membership(false, memberships[key].version + 1)];
        return Ok;
      }
      if account !in accounts { return Err(AccountNotFound); }
      accounts := accounts[account := accounts[account].(version := accounts[account].version + 1)];
      r := Ok;
    }

    method Join(account: Id, tenant: Id) returns (r: Outcome)
      modifies this
      ensures (View(), r) == JoinTenant(old(View()), account, tenant)
    {
      if account !in accounts { return Err(AccountNotFound); }
      var version := if (account, tenant) in memberships then memberships[(account, tenant)].version else 1;
      memberships := memberships[(account, tenant) := Membership(true, version)];
      r := Ok;
    }
  }

  lemma RevokeNone(s: Store)
    ensures RevokeFamilies(s, {}) == s
  {
    assert RevokedFamilies(s.families, {}) == s.families;
    assert RevokedRefresh(s.refresh, {}) == s.refresh;
    assert RevokedAccess(s.access, {}) == s.access;
  }

  lemma FamiliesTwice(families: map<Id, Family>, done: set<Id>, more: set<Id>)
    ensures RevokedFamilies(RevokedFamilies(families, done), more) == RevokedFamilies(families, done + more)
  {
  }

  lemma RefreshTwice(refresh: map<Id, Refresh>, done: set<Id>, more: set<Id>)
    ensures RevokedRefresh(RevokedRefresh(refresh, done), more) == RevokedRefresh(refresh, done + more)
  {
  }

  lemma AccessTwice(access: map<Id, Access>, done: set<Id>, more: set<Id>)
    ensures RevokedAccess(RevokedAccess(access, done), more) == RevokedAccess(access, done + more)
  {
  }

  /** Revoking one more family after a set is revoking the larger set. */
  lemma RevokeOneMore(s: Store, done: set<Id>, family: Id)
    requires family in s.families
    ensures family in RevokeFamilies(s, done).families
    ensures RevokeFamilies(RevokeFamilies(s, done), {family}) == RevokeFamilies(s, done + {family})
  {
    FamiliesTwice(s.families, done, {family});
    RefreshTwice(s.refresh, done, {family});
    AccessTwice(s.access, done, {family});
  }
}
