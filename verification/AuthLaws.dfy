/** What every run of core-auth calls keeps: one refresh token per generation, reuse detection that holds for
    good, and invalidation that no later call undoes. */
module AuthLaws {
  import opened Ordering
  import opened AuthStore

  datatype Action =
    | Enroll(account: Id, tenant: Id, authenticator: Id)
    | OpenAccount(account: Id, tenant: Id)
    | AddAuthenticator(account: Id, authenticator: Id)
    | Mint(account: Id, choice: Option<Id>, authenticator: Id, resource: Resource, ids: NewIds, now: int)
    | RotateToken(token: Id, expected: Option<Resource>, now: int, accessId: Id, refreshId: Id)
    | Revoke(family: Id)
    | Endpoint(presented: Presented)
    | RevokeC(connection: Id)
    | RevokeA(authenticator: Id, stepUp: bool)
    | Replace(account: Id, previous: Id, authenticator: Id, stepUp: bool)
    | Bump(account: Id, choice: Option<Id>)
    | Join(account: Id, tenant: Id)
    | BindTenant(connection: Id, tenant: Id)

  /** A new account with its home membership, as ensureOwnerAccount opens it. */
  function OpenSpec(s: Store, account: Id, tenant: Id): Store {
    if account in s.accounts then s
    else
      s.(accounts := s.accounts[account := Account(Open, 1, tenant)],
         memberships := s.memberships[(account, tenant) := Membership(true, 1)])
  }

  /** An authenticator row for an account, whatever its memberships: an invite or a registered passkey. */
  function AddSpec(s: Store, account: Id, authenticator: Id): Store {
    s.(authenticators := s.authenticators[authenticator := Authenticator(account, Usable)])
  }

  /** The account and authenticator rows of bootstrapAccountConnection; its connection is a Mint. */
  function EnrollSpec(s: Store, account: Id, tenant: Id, authenticator: Id): Store {
    if account in s.accounts then
      if !s.accounts[account].status.Open? || (account, tenant) !in s.memberships
        || !s.memberships[(account, tenant)].active then s
      else AddSpec(s, account, authenticator)
    else AddSpec(OpenSpec(s, account, tenant), account, authenticator)
  }

  function ReplaceSpec(s: Store, account: Id, previous: Id, authenticator: Id, stepUp: bool): Store {
    if !stepUp || account !in s.accounts || previous !in s.authenticators
      || s.authenticators[previous].account != account then s
    else
      s.(authenticators := s.authenticators[previous := s.authenticators[previous].(status := Replaced)]
                                           [authenticator := Authenticator(account, Usable)])
  }

  function BindSpec(s: Store, connection: Id, tenant: Id): Store {
    if connection !in s.connections then s
    else
      var c := s.connections[connection];
      if (c.account, tenant) !in s.memberships || !s.memberships[(c.account, tenant)].active then s
      else s.(connections := s.connections[connection := c.(tenant := tenant)])
  }

  function Step(s: Store, rules: Rules, a: Action): Store {
    match a
    case Enroll(account, tenant, authenticator) => EnrollSpec(s, account, tenant, authenticator)
    case OpenAccount(account, tenant) => OpenSpec(s, account, tenant)
    case AddAuthenticator(account, authenticator) => AddSpec(s, account, authenticator)
    case Mint(account, tenant, authenticator, resource, ids, now) =>
      MintConnection(s, account, tenant, authenticator, resource, ids, now).0
    case RotateToken(token, expected, now, accessId, refreshId) =>
      Rotate(s, rules, token, expected, now, accessId, refreshId).0
    case Revoke(family) => RevokeFamily(s, family)
    case Endpoint(presented) => OauthRevoke(s, presented)
    case RevokeC(connection) => RevokeConnection(s, connection).0
    case RevokeA(authenticator, stepUp) => RevokeAuthenticator(s, authenticator, stepUp).0
    case Replace(account, previous, authenticator, stepUp) => ReplaceSpec(s, account, previous, authenticator, stepUp)
    case Bump(account, tenant) =>
      if tenant.Some? then BumpMembership(s, account, tenant.value).0 else BumpAccount(s, account).0
    case Join(account, tenant) => JoinTenant(s, account, tenant).0
    case BindTenant(connection, tenant) => BindSpec(s, connection, tenant)
  }

  /** Minted ids and token hashes are new. */
  predicate Fresh(s: Store, a: Action) {
    match a
    case Enroll(_, _, authenticator) => authenticator !in s.authenticators
    case AddAuthenticator(_, authenticator) => authenticator !in s.authenticators
    case Mint(_, _, _, _, ids, _) =>
      ids.connection !in s.connections && ids.family !in s.families && ids.access !in s.access
        && ids.refresh !in s.refresh
    case RotateToken(_, _, _, accessId, refreshId) => accessId !in s.access && refreshId !in s.refresh
    case Replace(_, _, authenticator, _) => authenticator !in s.authenticators
    case _ => true
  }

  function Run(s: Store, rules: Rules, actions: seq<Action>): Store
    decreases |actions|
  {
    if actions == [] then s else Run(Step(s, rules, actions[0]), rules, actions[1..])
  }

  ghost predicate FreshRun(s: Store, rules: Rules, actions: seq<Action>)
    decreases |actions|
  {
    actions == [] || (Fresh(s, actions[0]) && FreshRun(Step(s, rules, actions[0]), rules, actions[1..]))
  }

  /*** The invariant ***/

  /** A refresh token is active exactly when it is the newest of an active family. */
  ghost predicate TokenOk(s: Store, h: Id)
    requires h in s.refresh
  {
    var r := s.refresh[h];
    && r.family in s.families && r.generation <= s.families[r.family].generation
    && (r.status.Active? <==> s.families[r.family].active && r.generation == s.families[r.family].generation)
  }

  ghost predicate IsToken(s: Store, h: Id, f: Id, g: nat) {
    h in s.refresh && s.refresh[h].family == f && s.refresh[h].generation == g
  }

  /** Some refresh token of the family has the generation, and no other has. */
  ghost predicate OneToken(s: Store, f: Id, g: nat) {
    exists h {:trigger IsToken(s, h, f, g)} :: IsToken(s, h, f, g) && OnlyToken(s, h, f, g)
  }

  ghost predicate OnlyToken(s: Store, h: Id, f: Id, g: nat) {
    forall k {:trigger IsToken(s, k, f, g)} :: IsToken(s, k, f, g) ==> k == h
  }

  ghost predicate FamilyOk(s: Store, f: Id)
    requires f in s.families
  {
    && s.families[f].account in s.accounts && s.families[f].version <= s.accounts[s.families[f].account].version
    && s.families[f].authenticator in s.authenticators && s.families[f].connection in s.connections
    && forall g: nat {:trigger OneToken(s, f, g)} :: g <= s.families[f].generation ==> OneToken(s, f, g)
  }

  ghost predicate AccessOk(s: Store, h: Id)
    requires h in s.access
  {
    var a := s.access[h];
    && a.family in s.families
    && var f := s.families[a.family];
       a.principal == f.principal && a.connection == f.connection && a.resource == f.resource
  }

  ghost predicate Inv(s: Store) {
    && (forall h {:trigger TokenOk(s, h)} :: h in s.refresh ==> TokenOk(s, h))
    && (forall f {:trigger FamilyOk(s, f)} :: f in s.families ==> FamilyOk(s, f))
    && (forall h {:trigger AccessOk(s, h)} :: h in s.access ==> AccessOk(s, h))
  }

  lemma EmptyInv()
    ensures Inv(Store(map[], map[], map[], map[], map[], map[], map[]))
  {
  }

  /** Nothing that was ever revoked, rotated, replaced or bumped goes back. */
  ghost predicate Later(s: Store, t: Store) {
    && FamiliesLater(s.families, t.families) && SideLaterThan(s, t)
    && RefreshesLater(s.refresh, t.refresh) && AccessesLater(s.access, t.access)
  }

  ghost predicate FamiliesLater(s: map<Id, Family>, t: map<Id, Family>) {
    forall f :: f in s ==> f in t && FamilyLater(s[f], t[f])
  }

  ghost predicate RefreshesLater(s: map<Id, Refresh>, t: map<Id, Refresh>) {
    forall h :: h in s ==> h in t && RefreshLater(s[h], t[h])
  }

  ghost predicate AccessesLater(s: map<Id, Access>, t: map<Id, Access>) {
    forall h :: h in s ==> h in t && AccessLater(s[h], t[h])
  }

  ghost predicate SideLaterThan(s: Store, t: Store) {
    && AccountsLater(s.accounts, t.accounts) && ConnectionsLater(s.connections, t.connections)
    && AuthenticatorsLater(s.authenticators, t.authenticators)
    && MembersLater(s.accounts, s.memberships, t.memberships)
  }

  ghost predicate AccountsLater(s: map<Id, Account>, t: map<Id, Account>) {
    forall a :: a in s ==> a in t && s[a].version <= t[a].version
  }

  ghost predicate ConnectionsLater(s: map<Id, Connection>, t: map<Id, Connection>) {
    forall c :: c in s ==> c in t && (t[c].active ==> s[c].active)
  }

  ghost predicate AuthenticatorsLater(s: map<Id, Authenticator>, t: map<Id, Authenticator>) {
    forall a :: a in s ==> a in t && (t[a].status.Usable? ==> s[a].status.Usable?)
  }

  /** Membership versions of known accounts never go down. */
  ghost predicate MembersLater(known: map<Id, Account>, s: map<(Id, Id), Membership>, t: map<(Id, Id), Membership>) {
    forall k :: k in s && k.0 in known ==> k in t && s[k].version <= t[k].version
  }

  ghost predicate FamilyLater(f: Family, g: Family) {
    && g == f.(active := g.active, generation := g.generation)
    && (g.active ==> f.active) && f.generation <= g.generation
  }

  ghost predicate RefreshLater(r: Refresh, q: Refresh) {
    && q == r.(status := q.status) && (!r.status.Active? ==> q.status == r.status)
  }

  ghost predicate AccessLater(a: Access, b: Access) {
    b == a.(revoked := b.revoked) && (a.revoked ==> b.revoked)
  }

  lemma SideTransitive(s: Store, t: Store, u: Store)
    requires SideLaterThan(s, t) && SideLaterThan(t, u)
    ensures SideLaterThan(s, u)
  {
    MembersTransitive(s.accounts, t.accounts, s.memberships, t.memberships, u.memberships);
  }

  lemma MembersTransitive(known: map<Id, Account>, later: map<Id, Account>, s: map<(Id, Id), Membership>,
                          t: map<(Id, Id), Membership>, u: map<(Id, Id), Membership>)
    requires AccountsLater(known, later) && MembersLater(known, s, t) && MembersLater(later, t, u)
    ensures MembersLater(known, s, u)
  {
  }

  lemma TokensTransitive(s: Store, t: Store, u: Store)
    requires RefreshesLater(s.refresh, t.refresh) && RefreshesLater(t.refresh, u.refresh)
    requires AccessesLater(s.access, t.access) && AccessesLater(t.access, u.access)
    ensures RefreshesLater(s.refresh, u.refresh) && AccessesLater(s.access, u.access)
  {
  }

  lemma LaterTransitive(s: Store, t: Store, u: Store)
    requires Later(s, t) && Later(t, u)
    ensures Later(s, u)
  {
    SideTransitive(s, t, u);
    TokensTransitive(s, t, u);
  }

  lemma RevokeLater(s: Store, ids: set<Id>)
    ensures Later(s, RevokeFamilies(s, ids))
  {
  }

  lemma SameSide(s: Store, t: Store)
    requires t.accounts == s.accounts && t.memberships == s.memberships
    requires t.connections == s.connections && t.authenticators == s.authenticators
    ensures SideLaterThan(s, t)
  {
  }

  lemma AccessRevokedLater(s: map<Id, Access>, id: Id)
    requires id in s
    ensures AccessesLater(s, s[id := s[id].(revoked := true)])
  {
  }

  lemma SameTables(s: Store)
    ensures FamiliesLater(s.families, s.families) && RefreshesLater(s.refresh, s.refresh)
    ensures AccessesLater(s.access, s.access)
  {
  }

  lemma EndpointLater(s: Store, presented: Presented)
    ensures Later(s, OauthRevoke(s, presented))
  {
    SameSide(s, OauthRevoke(s, presented));
    SameTables(s);
    match presented
    case RefreshToken(id) => if id in s.refresh { RevokeLater(s, {s.refresh[id].family}); }
    case AccessToken(id) => if id in s.access { AccessRevokedLater(s.access, id); }
    case OtherToken =>
  }

  lemma MintLater(s: Store, f: Family, ids: NewIds, now: int)
    requires ids.family !in s.families && ids.access !in s.access && ids.refresh !in s.refresh
    ensures Later(s, MintFamily(s, f, ids, now))
  {
  }

  lemma NothingLater(s: Store)
    ensures Later(s, s)
  {
    SameSide(s, s);
    SameTables(s);
  }

  lemma FamilySetLater(s: map<Id, Family>, id: Id, f: Family)
    requires id in s ==> FamilyLater(s[id], f)
    ensures FamiliesLater(s, s[id := f])
  {
  }

  lemma RefreshSetLater(s: map<Id, Refresh>, id: Id, r: Refresh)
    requires id in s ==> RefreshLater(s[id], r)
    ensures RefreshesLater(s, s[id := r])
  {
  }

  /** The two row updates of a rotation, ahead of the new pair. */
  lemma AdvanceLater(s: Store, token: Id)
    requires token in s.refresh && s.refresh[token].status.Active? && s.refresh[token].family in s.families
    ensures Later(s, Advanced(s, token))
  {
    var row := s.refresh[token];
    var f := s.families[row.family];
    NothingLater(s);
    RefreshSetLater(s.refresh, token, row.(status := Rotated));
    FamilySetLater(s.families, row.family, f.(generation := f.generation + 1));
  }

  lemma RotationLater(s: Store, token: Id, now: int, a: Id, r: Id)
    requires token in s.refresh && s.refresh[token].status.Active? && s.refresh[token].family in s.families
    requires a !in s.access && r !in s.refresh
    ensures Later(s, AfterRotation(s, token, now, a, r))
  {
    var s1, row := Advanced(s, token), s.refresh[token];
    var f := s.families[row.family];
    AdvanceLater(s, token);
    IssueLater(s1, row.family, f, f.generation + 1, now, a, r);
    LaterTransitive(s, s1, AfterRotation(s, token, now, a, r));
  }

  lemma RotateLater(s: Store, rules: Rules, token: Id, expected: Option<Resource>, now: int, a: Id, r: Id)
    requires a !in s.access && r !in s.refresh
    ensures Later(s, Rotate(s, rules, token, expected, now, a, r).0)
  {
    var answer := Rotate(s, rules, token, expected, now, a, r).1;
    if answer == Err(FamilyRevoked) {
      RevokeLater(s, {s.refresh[token].family});
      NothingLater(s);
    } else if answer.Ok? {
      RotationLater(s, token, now, a, r);
    } else {
      NothingLater(s);
    }
  }

  lemma IssueLater(s: Store, family: Id, f: Family, generation: nat, now: int, a: Id, r: Id)
    requires a !in s.access && r !in s.refresh
    ensures Later(s, IssuePair(s, family, f, generation, now, a, r))
  {
  }

  /** Only accounts, memberships, authenticators and connections differ, and they moved forward. */
  ghost predicate SideOnly(s: Store, t: Store) {
    t.families == s.families && t.refresh == s.refresh && t.access == s.access && SideLaterThan(s, t)
  }

  ghost predicate IsSide(a: Action) {
    a.Enroll? || a.OpenAccount? || a.AddAuthenticator? || a.Replace? || a.Bump? || a.Join? || a.BindTenant?
  }

  lemma OpenSide(s: Store, account: Id, tenant: Id)
    ensures SideOnly(s, OpenSpec(s, account, tenant))
  {
    SameSide(s, s);
  }

  lemma AddSide(s: Store, account: Id, authenticator: Id)
    requires authenticator !in s.authenticators
    ensures SideOnly(s, AddSpec(s, account, authenticator))
  {
    SameSide(s, s);
  }

  lemma EnrollSide(s: Store, account: Id, tenant: Id, authenticator: Id)
    requires authenticator !in s.authenticators
    ensures SideOnly(s, EnrollSpec(s, account, tenant, authenticator))
  {
    SameSide(s, s);
    if account in s.accounts {
      AddSide(s, account, authenticator);
    } else {
      var s1 := OpenSpec(s, account, tenant);
      OpenSide(s, account, tenant);
      AddSide(s1, account, authenticator);
      SideTransitive(s, s1, AddSpec(s1, account, authenticator));
    }
  }

  lemma ReplaceSide(s: Store, account: Id, previous: Id, authenticator: Id, stepUp: bool)
    requires authenticator !in s.authenticators
    ensures SideOnly(s, ReplaceSpec(s, account, previous, authenticator, stepUp))
  {
    SameSide(s, s);
  }

  lemma BindSide(s: Store, connection: Id, tenant: Id)
    ensures SideOnly(s, BindSpec(s, connection, tenant))
  {
    SameSide(s, s);
  }

  lemma BumpSide(s: Store, account: Id)
    ensures SideOnly(s, BumpAccount(s, account).0)
  {
    SameSide(s, s);
  }

  lemma BumpMembershipSide(s: Store, account: Id, tenant: Id)
    ensures SideOnly(s, BumpMembership(s, account, tenant).0)
  {
    SameSide(s, s);
  }

  lemma JoinSide(s: Store, account: Id, tenant: Id)
    ensures SideOnly(s, JoinTenant(s, account, tenant).0)
  {
    SameSide(s, s);
  }

  lemma SideStep(s: Store, rules: Rules, a: Action)
    requires IsSide(a) && Fresh(s, a)
    ensures SideOnly(s, Step(s, rules, a))
  {
    match a
    case Enroll(account, tenant, authenticator) => EnrollSide(s, account, tenant, authenticator);
    case OpenAccount(account, tenant) => OpenSide(s, account, tenant);
    case AddAuthenticator(account, authenticator) => AddSide(s, account, authenticator);
    case Replace(account, previous, authenticator, stepUp) => ReplaceSide(s, account, previous, authenticator, stepUp);
    case BindTenant(connection, tenant) => BindSide(s, connection, tenant);
    case Bump(account, choice) =>
      BumpSide(s, account);
      if choice.Some? { BumpMembershipSide(s, account, choice.value); }
    case Join(account, tenant) => JoinSide(s, account, tenant);
  }

  lemma SideLater(s: Store, t: Store)
    requires SideOnly(s, t)
    ensures Later(s, t)
  {
    SameTables(s);
  }

  lemma MintConnectionLater(s: Store, account: Id, tenant: Option<Id>, authenticator: Id, resource: Resource,
                            ids: NewIds, now: int)
    requires ids.connection !in s.connections && ids.family !in s.families
    requires ids.access !in s.access && ids.refresh !in s.refresh
    ensures Later(s, MintConnection(s, account, tenant, authenticator, resource, ids, now).0)
  {
    var (t, r) := MintConnection(s, account, tenant, authenticator, resource, ids, now);
    NothingLater(s);
    if r.Ok? {
      var s1 := s.(connections := t.connections);
      OnlyRevoked(s, t.connections, s.authenticators);
      MintLater(s1, t.families[ids.family], ids, now);
      LaterTransitive(s, s1, t);
    }
  }

  /** Only connections and authenticators differ, and each was only revoked. */
  lemma OnlyRevoked(s: Store, connections: map<Id, Connection>, authenticators: map<Id, Authenticator>)
    requires ConnectionsLater(s.connections, connections) && AuthenticatorsLater(s.authenticators, authenticators)
    ensures Later(s, s.(connections := connections, authenticators := authenticators))
  {
    NothingLater(s);
  }

  lemma ConnectionRevoked(s: map<Id, Connection>, c: Id)
    requires c in s
    ensures ConnectionsLater(s, s[c := s[c].(active := false)])
  {
  }

  lemma AuthenticatorRevoked(s: map<Id, Authenticator>, a: Id)
    requires a in s
    ensures AuthenticatorsLater(s, s[a := s[a].(status := RevokedAuthenticator)])
  {
  }

  lemma RevokeConnectionLater(s: Store, connection: Id)
    ensures Later(s, RevokeConnection(s, connection).0)
  {
    NothingLater(s);
    if connection in s.connections {
      var row := s.connections[connection].(active := false);
      var s1 := s.(connections := s.connections[connection := row]);
      ConnectionRevoked(s.connections, connection);
      OnlyRevoked(s, s1.connections, s.authenticators);
      RevokeLater(s1, ActiveFamilies(s, (f: Family) => f.connection == connection));
      LaterTransitive(s, s1, RevokeConnection(s, connection).0);
    }
  }

  lemma RevokeAuthenticatorLater(s: Store, authenticator: Id, stepUp: bool)
    ensures Later(s, RevokeAuthenticator(s, authenticator, stepUp).0)
  {
    NothingLater(s);
    if stepUp && authenticator in s.authenticators {
      var row := s.authenticators[authenticator].(status := RevokedAuthenticator);
      var s1 := s.(authenticators := s.authenticators[authenticator := row]);
      AuthenticatorRevoked(s.authenticators, authenticator);
      OnlyRevoked(s, s.connections, s1.authenticators);
      RevokeLater(s1, ActiveFamilies(s, (f: Family) => f.authenticator == authenticator));
      LaterTransitive(s, s1, RevokeAuthenticator(s, authenticator, stepUp).0);
    }
  }

  /** Every call only moves forward. */
  lemma StepLater(s: Store, rules: Rules, a: Action)
    requires Fresh(s, a)
    ensures Later(s, Step(s, rules, a))
  {
    var t := Step(s, rules, a);
    match a
    case Mint(account, tenant, authenticator, resource, ids, now) =>
      MintConnectionLater(s, account, tenant, authenticator, resource, ids, now);
    case RotateToken(token, expected, now, accessId, refreshId) =>
      RotateLater(s, rules, token, expected, now, accessId, refreshId);
    case Revoke(family) =>
      RevokeLater(s, {family});
      SideLater(s, s);
    case Endpoint(presented) => EndpointLater(s, presented);
    case RevokeC(connection) => RevokeConnectionLater(s, connection);
    case RevokeA(authenticator, stepUp) => RevokeAuthenticatorLater(s, authenticator, stepUp);
    case _ =>
      SideStep(s, rules, a);
      SideLater(s, t);
  }

  /** A store whose refresh tokens differ from another's at most in status: generations are the same. */
  lemma SameTokens(s: Store, t: Store, f: Id, g: nat)
    requires OneToken(s, f, g)
    requires forall h :: h in t.refresh <==> h in s.refresh
    requires forall h :: h in s.refresh ==>
            t.refresh[h].family == s.refresh[h].family && t.refresh[h].generation == s.refresh[h].generation
    ensures OneToken(t, f, g)
  {
    var h :| IsToken(s, h, f, g) && OnlyToken(s, h, f, g);
    assert IsToken(t, h, f, g);
    forall k | IsToken(t, k, f, g) ensures k == h { assert IsToken(s, k, f, g); }
    assert OnlyToken(t, h, f, g);
  }

  /** Adding a token of another generation or family leaves the others unique; adding the first of its own makes one. */
  lemma AddedToken(s: Store, t: Store, id: Id, f: Id, g: nat)
    requires id !in s.refresh && id in t.refresh
    requires forall h :: h in t.refresh <==> h == id || h in s.refresh
    requires forall h :: h in s.refresh ==>
            t.refresh[h].family == s.refresh[h].family && t.refresh[h].generation == s.refresh[h].generation
    requires if IsToken(t, id, f, g) then forall h :: !IsToken(s, h, f, g) else OneToken(s, f, g)
    ensures OneToken(t, f, g)
  {
    if IsToken(t, id, f, g) {
      forall k | IsToken(t, k, f, g) ensures k == id { assert k in s.refresh ==> !IsToken(s, k, f, g); }
      assert OnlyToken(t, id, f, g);
    } else {
      var h :| IsToken(s, h, f, g) && OnlyToken(s, h, f, g);
      assert IsToken(t, h, f, g);
      forall k | IsToken(t, k, f, g) ensures k == h { assert IsToken(s, k, f, g); }
      assert OnlyToken(t, h, f, g);
    }
  }

  lemma RevokeKeepsInv(s: Store, ids: set<Id>)
    requires Inv(s)
    ensures Inv(RevokeFamilies(s, ids))
  {
    var t := RevokeFamilies(s, ids);
    forall h | h in t.refresh ensures TokenOk(t, h) { assert TokenOk(s, h); }
    forall f | f in t.families ensures FamilyOk(t, f) {
      assert FamilyOk(s, f);
      forall g: nat | g <= t.families[f].generation ensures OneToken(t, f, g) {
        assert OneToken(s, f, g);
        SameTokens(s, t, f, g);
      }
    }
    forall h | h in t.access ensures AccessOk(t, h) { assert AccessOk(s, h); }
  }

  /** Changing accounts (never downwards), memberships, authenticators and connections (never away) keeps the
      invariant. */
  lemma SideKeepsInv(s: Store, t: Store)
    requires Inv(s) && SideOnly(s, t)
    ensures Inv(t)
  {
    forall h | h in t.refresh ensures TokenOk(t, h) { assert TokenOk(s, h); }
    forall f | f in t.families ensures FamilyOk(t, f) {
      assert FamilyOk(s, f);
      forall g: nat | g <= t.families[f].generation ensures OneToken(t, f, g) {
        assert OneToken(s, f, g);
        SameTokens(s, t, f, g);
      }
    }
    forall h | h in t.access ensures AccessOk(t, h) { assert AccessOk(s, h); }
  }

  lemma MintFamilyKeepsInv(s: Store, f: Family, ids: NewIds, now: int)
    requires Inv(s) && ids.family !in s.families && ids.access !in s.access && ids.refresh !in s.refresh
    requires f.active && f.generation == 0 && f.account in s.accounts && f.version <= s.accounts[f.account].version
    requires f.authenticator in s.authenticators && f.connection in s.connections
    ensures Inv(MintFamily(s, f, ids, now))
  {
    var t := MintFamily(s, f, ids, now);
    forall h | h in t.refresh ensures TokenOk(t, h) { assert h in s.refresh ==> TokenOk(s, h); }
    forall k | k in t.families ensures FamilyOk(t, k) {
      assert k in s.families ==> FamilyOk(s, k);
      forall g: nat | g <= t.families[k].generation ensures OneToken(t, k, g) {
        forall h | h in s.refresh ensures !IsToken(s, h, ids.family, g) { assert TokenOk(s, h); }
        if k in s.families { assert OneToken(s, k, g); }
        AddedToken(s, t, ids.refresh, k, g);
      }
    }
    forall h | h in t.access ensures AccessOk(t, h) { assert h in s.access ==> AccessOk(s, h); }
  }

  lemma RotateKeepsInv(s: Store, rules: Rules, token: Id, expected: Option<Resource>, now: int, accessId: Id,
                       refreshId: Id)
    requires Inv(s) && accessId !in s.access && refreshId !in s.refresh
    ensures Inv(Rotate(s, rules, token, expected, now, accessId, refreshId).0)
  {
    var (t, r) := Rotate(s, rules, token, expected, now, accessId, refreshId);
    if r == Err(FamilyRevoked) {
      RevokeKeepsInv(s, {s.refresh[token].family});
    } else if r.Ok? {
      var family := s.refresh[token].family;
      var gen := s.families[family].generation;
      assert TokenOk(s, token);
      forall h | h in t.refresh ensures TokenOk(t, h) {
        if h in s.refresh {
          assert TokenOk(s, h);
          if s.refresh[h].family == family && s.refresh[h].generation == gen { NewestUnique(s, token, h); }
        }
      }
      forall k | k in t.families ensures FamilyOk(t, k) {
        assert FamilyOk(s, k);
        forall g: nat | g <= t.families[k].generation ensures OneToken(t, k, g) {
          forall h | h in s.refresh ensures !IsToken(s, h, family, gen + 1) { assert TokenOk(s, h); }
          if k != family || g <= gen { assert OneToken(s, k, g); }
          AddedToken(s, t, refreshId, k, g);
        }
      }
      forall h | h in t.access ensures AccessOk(t, h) { assert h in s.access ==> AccessOk(s, h); }
    }
  }

  /** The active token of a family is its only one of that generation. */
  lemma NewestUnique(s: Store, token: Id, h: Id)
    requires Inv(s) && token in s.refresh && h in s.refresh
    requires s.refresh[token].status.Active? && s.refresh[h].family == s.refresh[token].family
    requires s.refresh[h].generation == s.refresh[token].generation
    ensures h == token
  {
    var f, g := s.refresh[token].family, s.refresh[token].generation;
    assert TokenOk(s, token);
    assert FamilyOk(s, f);
    assert OneToken(s, f, g);
    assert IsToken(s, token, f, g) && IsToken(s, h, f, g);
  }

  lemma MintKeepsInv(s: Store, account: Id, tenant: Option<Id>, authenticator: Id, resource: Resource, ids: NewIds,
                     now: int)
    requires Inv(s) && ids.connection !in s.connections && ids.family !in s.families
    requires ids.access !in s.access && ids.refresh !in s.refresh
    ensures Inv(MintConnection(s, account, tenant, authenticator, resource, ids, now).0)
  {
    var (t, r) := MintConnection(s, account, tenant, authenticator, resource, ids, now);
    if r.Ok? {
      var s1 := s.(connections := t.connections);
      SideKeepsInv(s, s1);
      MintFamilyKeepsInv(s1, t.families[ids.family], ids, now);
    }
  }

  lemma CascadesKeepInv(s: Store, connection: Id, authenticator: Id, stepUp: bool)
    requires Inv(s)
    ensures Inv(RevokeConnection(s, connection).0)
    ensures Inv(RevokeAuthenticator(s, authenticator, stepUp).0)
  {
    if connection in s.connections {
      var s1 := s.(connections := RevokeConnection(s, connection).0.connections);
      SideKeepsInv(s, s1);
      RevokeKeepsInv(s1, ActiveFamilies(s, (f: Family) => f.connection == connection));
    }
    if stepUp && authenticator in s.authenticators {
      var s1 := s.(authenticators := RevokeAuthenticator(s, authenticator, stepUp).0.authenticators);
      SideKeepsInv(s, s1);
      RevokeKeepsInv(s1, ActiveFamilies(s, (f: Family) => f.authenticator == authenticator));
    }
  }

  lemma EndpointKeepsInv(s: Store, presented: Presented)
    requires Inv(s)
    ensures Inv(OauthRevoke(s, presented))
  {
    var t := OauthRevoke(s, presented);
    match presented
    case RefreshToken(id) =>
      if id in s.refresh { RevokeKeepsInv(s, {s.refresh[id].family}); }
    case AccessToken(_) =>
      forall h | h in t.refresh ensures TokenOk(t, h) { assert TokenOk(s, h); }
      forall f | f in t.families ensures FamilyOk(t, f) {
        assert FamilyOk(s, f);
        forall g: nat | g <= t.families[f].generation ensures OneToken(t, f, g) {
          assert OneToken(s, f, g);
          SameTokens(s, t, f, g);
        }
      }
      forall h | h in t.access ensures AccessOk(t, h) { assert AccessOk(s, h); }
    case OtherToken =>
  }

  /** Every call keeps the invariant. */
  lemma StepKeepsInv(s: Store, rules: Rules, a: Action)
    requires Inv(s) && Fresh(s, a)
    ensures Inv(Step(s, rules, a))
  {
    match a
    case Mint(account, choice, authenticator, resource, ids, now) =>
      MintKeepsInv(s, account, choice, authenticator, resource, ids, now);
    case RotateToken(token, expected, now, accessId, refreshId) =>
      RotateKeepsInv(s, rules, token, expected, now, accessId, refreshId);
    case Revoke(family) => RevokeKeepsInv(s, {family});
    case Endpoint(presented) => EndpointKeepsInv(s, presented);
    case RevokeC(connection) => CascadesKeepInv(s, connection, 0, false);
    case RevokeA(authenticator, stepUp) => CascadesKeepInv(s, 0, authenticator, stepUp);
    case _ =>
      SideStep(s, rules, a);
      SideKeepsInv(s, Step(s, rules, a));
  }

  lemma {:induction false} RunKeeps(s: Store, rules: Rules, actions: seq<Action>)
    requires Inv(s) && FreshRun(s, rules, actions)
    ensures Inv(Run(s, rules, actions)) && Later(s, Run(s, rules, actions))
    decreases |actions|
  {
    if actions != [] {
      var t := Step(s, rules, actions[0]);
      StepKeepsInv(s, rules, actions[0]);
      StepLater(s, rules, actions[0]);
      RunKeeps(t, rules, actions[1..]);
      LaterTransitive(s, t, Run(t, rules, actions[1..]));
    }
  }

  /** Refresh rotation. After any run, a family of generation g has exactly one refresh token for each generation
      0..g and none beyond; the older ones are not active and the newest is active exactly when the family is. */
  lemma RotationGenerations(s: Store, rules: Rules, actions: seq<Action>, f: Id)
    requires Inv(s) && FreshRun(s, rules, actions) && f in Run(s, rules, actions).families
    ensures var t := Run(s, rules, actions);
      && (forall g: nat :: OneToken(t, f, g) <==> g <= t.families[f].generation)
      && (forall h :: h in t.refresh && t.refresh[h].family == f ==>
            t.refresh[h].generation <= t.families[f].generation
            && (t.refresh[h].status.Active?
                <==> t.families[f].active && t.refresh[h].generation == t.families[f].generation))
  {
    RunKeeps(s, rules, actions);
    var t := Run(s, rules, actions);
    assert FamilyOk(t, f);
    forall h | h in t.refresh && t.refresh[h].family == f
      ensures t.refresh[h].generation <= t.families[f].generation
      ensures t.refresh[h].status.Active?
              <==> t.families[f].active && t.refresh[h].generation == t.families[f].generation
    {
      assert TokenOk(t, h);
    }
  }

  /** A rotation succeeds exactly on the newest token of a fresh family, in time and for a matching resource; the
      pair it issues is good at once and until it expires, and the old refresh token no longer is. */
  lemma RotationMeaning(s: Store, rules: Rules, token: Id, expected: Option<Resource>, now: int, a: Id, r: Id)
    requires Inv(s) && Fresh(s, RotateToken(token, expected, now, a, r))
    ensures var (t, answer) := Rotate(s, rules, token, expected, now, a, r);
      && (answer.Ok? <==>
            && token in s.refresh && s.refresh[token].expires >= now && s.refresh[token].family in s.families
            && var f := s.families[s.refresh[token].family];
               && f.active && s.refresh[token].generation == f.generation
               && (expected.Some? ==> f.resource == expected.value || rules.matches(f.resource, expected.value))
               && Staleness(s, f).None?)
      && (answer.Ok? ==>
            && (forall audiences, at {:trigger Validates(t, rules, a, audiences, at)} ::
                  var resource := s.families[s.refresh[token].family].resource;
                  Validates(t, rules, a, audiences, at)
                  <==> at <= now + ACCESS_TOKEN_TTL && resource in audiences && !rules.mcpB(resource))
            && (forall at, a', r' :: Rotate(t, rules, r, None, at, a', r').1.Ok? <==> at <= now + REFRESH_TOKEN_TTL)
            && (forall e, at, a', r' :: Rotate(t, rules, token, e, at, a', r').1 == Err(FamilyRevoked)))
  {
    if token in s.refresh {
      assert TokenOk(s, token);
      var (t, answer) := Rotate(s, rules, token, expected, now, a, r);
      if answer.Ok? {
        var f, g := s.families[s.refresh[token].family], t.families[s.refresh[token].family];
        assert Staleness(t, g) == Staleness(s, f);
        assert t.access[a].family == s.refresh[token].family;
      }
    }
  }

  /** The tenant asked for, or else the account's home tenant. */
  function Chosen(s: Store, account: Id, tenant: Option<Id>): Id
    requires account in s.accounts
  {
    if tenant.Some? then tenant.value else s.accounts[account].homeTenant
  }

  /** A mint succeeds exactly for an open account, an active membership and a usable authenticator of the account. Its
      tokens are good at once and until they expire exactly when the membership's version is not past the account's,
      because the family takes the account's version and freshness asks for the larger of the two. */
  lemma MintMeaning(s: Store, rules: Rules, account: Id, tenant: Option<Id>, authenticator: Id, resource: Resource,
                    ids: NewIds, now: int)
    requires Inv(s) && Fresh(s, Mint(account, tenant, authenticator, resource, ids, now))
    ensures var (t, answer) := MintConnection(s, account, tenant, authenticator, resource, ids, now);
      && (answer.Ok? <==>
            && account in s.accounts && s.accounts[account].status.Open?
            && (account, Chosen(s, account, tenant)) in s.memberships
            && s.memberships[(account, Chosen(s, account, tenant))].active
            && authenticator in s.authenticators && s.authenticators[authenticator] == Authenticator(account, Usable))
      && (answer.Ok? ==>
            var home := Chosen(s, account, tenant);
            var current := s.memberships[(account, home)].version <= s.accounts[account].version;
            && t.connections[ids.connection] == Connection(account, home, ids.principal, true)
            && (forall audiences, at {:trigger Validates(t, rules, ids.access, audiences, at)} ::
                  Validates(t, rules, ids.access, audiences, at)
                  <==> current && at <= now + ACCESS_TOKEN_TTL && resource in audiences && !rules.mcpB(resource))
            && (forall at, a, r :: Rotate(t, rules, ids.refresh, Some(resource), at, a, r).1.Ok?
                  <==> current && at <= now + REFRESH_TOKEN_TTL))
  {
    var (t, answer) := MintConnection(s, account, tenant, authenticator, resource, ids, now);
    if answer.Ok? {
      var f, home := t.families[ids.family], Chosen(s, account, tenant);
      assert f.account == account && f.tenant == home && t.access[ids.access].family == ids.family;
      assert Staleness(t, f).None? <==> s.memberships[(account, home)].version <= s.accounts[account].version;
    }
  }

  /** So after a membership bump and a new join, in an account that was never bumped itself, every mint answers with
      tokens that are refused from the first moment. */
  lemma BornStale(s: Store, rules: Rules, account: Id, tenant: Id, authenticator: Id, resource: Resource, ids: NewIds,
                  now: int)
    requires Inv(s) && (account, tenant) in s.memberships && account in s.accounts
    requires s.memberships[(account, tenant)].version == s.accounts[account].version
    requires var t := Run(s, rules, [Bump(account, Some(tenant)), Join(account, tenant)]);
      Fresh(t, Mint(account, Some(tenant), authenticator, resource, ids, now))
      && MintConnection(t, account, Some(tenant), authenticator, resource, ids, now).1.Ok?
    ensures var t := Run(s, rules, [Bump(account, Some(tenant)), Join(account, tenant)]);
      var u := MintConnection(t, account, Some(tenant), authenticator, resource, ids, now).0;
      && (forall audiences, at :: !Validates(u, rules, ids.access, audiences, at))
      && (forall at, a, r :: !Rotate(u, rules, ids.refresh, Some(resource), at, a, r).1.Ok?)
  {
    var t := Run(s, rules, [Bump(account, Some(tenant)), Join(account, tenant)]);
    RunTwo(s, rules, Bump(account, Some(tenant)), Join(account, tenant));
    var s1 := Step(s, rules, Bump(account, Some(tenant)));
    StepKeepsInv(s, rules, Bump(account, Some(tenant)));
    StepKeepsInv(s1, rules, Join(account, tenant));
    MintMeaning(t, rules, account, Some(tenant), authenticator, resource, ids, now);
  }

  /*** Invalidation ***/

  /** No access token of the family validates and no refresh token of it rotates, at any time, for any audience. */
  ghost predicate Refused(s: Store, rules: Rules, f: Id) {
    && (forall h, audiences, now :: h in s.access && s.access[h].family == f ==>
        !Validates(s, rules, h, audiences, now))
    && (forall h, expected, now, a, r :: h in s.refresh && s.refresh[h].family == f ==>
          !Rotate(s, rules, h, expected, now, a, r).1.Ok?)
  }

  /** The family is older than its membership. */
  ghost predicate Behind(s: Store, f: Family) {
    && f.account in s.accounts && (f.account, f.tenant) in s.memberships
    && f.version < s.memberships[(f.account, f.tenant)].version
  }

  /** The four permanent reasons a family is dead. */
  ghost predicate Dead(s: Store, f: Id) {
    && f in s.families
    && ( || !s.families[f].active
         || (s.families[f].account in s.accounts && s.families[f].version < s.accounts[s.families[f].account].version)
         || (s.families[f].connection in s.connections && !s.connections[s.families[f].connection].active)
         || Behind(s, s.families[f]))
  }

  lemma DeadRefused(s: Store, rules: Rules, f: Id)
    requires Dead(s, f)
    ensures Refused(s, rules, f)
  {
    assert !s.families[f].active || Staleness(s, s.families[f]).Some?;
  }

  lemma DeadForGood(s: Store, t: Store, f: Id)
    requires Dead(s, f) && Later(s, t)
    ensures Dead(t, f)
  {
    assert FamilyLater(s.families[f], t.families[f]);
  }

  /** Refused now and in every later state. */
  ghost predicate RefusedForever(s: Store, rules: Rules, f: Id) {
    forall after {:trigger Run(s, rules, after)} :: FreshRun(s, rules, after) ==>
      Refused(Run(s, rules, after), rules, f)
  }

  lemma DeadForever(s: Store, rules: Rules, f: Id)
    requires Inv(s) && Dead(s, f)
    ensures RefusedForever(s, rules, f)
  {
    forall after | FreshRun(s, rules, after) ensures Refused(Run(s, rules, after), rules, f) {
      RunKeeps(s, rules, after);
      DeadForGood(s, Run(s, rules, after), f);
      DeadRefused(Run(s, rules, after), rules, f);
    }
  }

  /** A second presentation of a rotated token revokes its family. */
  lemma SecondPresentation(t: Store, rules: Rules, token: Id, expected: Option<Resource>, now: int, a: Id, r: Id)
    requires Inv(t) && Fresh(t, RotateToken(token, expected, now, a, r)) && token in t.refresh
            && t.refresh[token].status.Rotated?
    ensures var (u, answer) := Rotate(t, rules, token, expected, now, a, r);
      var family := t.refresh[token].family;
      answer == Err(FamilyRevoked) && family in u.families && !u.families[family].active
        && RefusedForever(u, rules, family)
  {
    assert TokenOk(t, token);
    StepKeepsInv(t, rules, RotateToken(token, expected, now, a, r));
    DeadForever(Step(t, rules, RotateToken(token, expected, now, a, r)), rules, t.refresh[token].family);
  }

  /** Reuse detection: a token that rotated once leaves its family revoked when presented again, whatever happened in
      between, and nothing of that family is accepted in any later state. */
  lemma ReuseRevokes(s: Store, rules: Rules, token: Id, expected: Option<Resource>, now: int, a: Id, r: Id,
                     between: seq<Action>, expected': Option<Resource>, now': int, a': Id, r': Id)
    requires Inv(s) && Fresh(s, RotateToken(token, expected, now, a, r))
    requires Rotate(s, rules, token, expected, now, a, r).1.Ok?
    requires FreshRun(Rotate(s, rules, token, expected, now, a, r).0, rules, between)
    requires Fresh(Run(Rotate(s, rules, token, expected, now, a, r).0, rules, between),
                   RotateToken(token, expected', now', a', r'))
    ensures var t := Run(Rotate(s, rules, token, expected, now, a, r).0, rules, between);
      var (u, answer) := Rotate(t, rules, token, expected', now', a', r');
      var family := s.refresh[token].family;
      answer == Err(FamilyRevoked) && family in u.families && !u.families[family].active
        && RefusedForever(u, rules, family)
  {
    var s1 := Rotate(s, rules, token, expected, now, a, r).0;
    StepKeepsInv(s, rules, RotateToken(token, expected, now, a, r));
    assert token in s1.refresh && s1.refresh[token].status.Rotated?
      && s1.refresh[token].family == s.refresh[token].family;
    RunKeeps(s1, rules, between);
    var t := Run(s1, rules, between);
    assert RefreshLater(s1.refresh[token], t.refresh[token]);
    SecondPresentation(t, rules, token, expected', now', a', r');
  }

  lemma EndpointRefresh(s: Store, rules: Rules, id: Id)
    requires Inv(s) && id in s.refresh
    ensures RefusedForever(OauthRevoke(s, RefreshToken(id)), rules, s.refresh[id].family)
  {
    var family := s.refresh[id].family;
    assert TokenOk(s, id);
    RevokeKeepsInv(s, {family});
    DeadForever(RevokeFamilies(s, {family}), rules, family);
  }

  lemma EndpointAccess(s: Store, rules: Rules, id: Id, after: seq<Action>, audiences: seq<Resource>, now: int)
    requires Inv(s) && id in s.access && FreshRun(OauthRevoke(s, AccessToken(id)), rules, after)
    ensures !Validates(Run(OauthRevoke(s, AccessToken(id)), rules, after), rules, id, audiences, now)
  {
    var t := OauthRevoke(s, AccessToken(id));
    EndpointKeepsInv(s, AccessToken(id));
    RunKeeps(t, rules, after);
    assert AccessLater(t.access[id], Run(t, rules, after).access[id]);
  }

  lemma EndpointFrame(s: Store, id: Id)
    ensures var t := OauthRevoke(s, AccessToken(id));
      && t.families == s.families && t.refresh == s.refresh
      && (forall h :: h in s.access && h != id ==> h in t.access && t.access[h] == s.access[h])
  {
  }

  /** The revocation endpoint: a refresh token ends its family for good; an access token is refused in every later
      state, while families and refresh tokens are left as they were. */
  lemma EndpointMeaning(s: Store, rules: Rules, id: Id, after: seq<Action>, audiences: seq<Resource>, now: int)
    requires Inv(s)
    ensures id in s.refresh ==> RefusedForever(OauthRevoke(s, RefreshToken(id)), rules, s.refresh[id].family)
    ensures var t := OauthRevoke(s, AccessToken(id));
      && t.families == s.families && t.refresh == s.refresh
      && (forall h :: h in s.access && h != id ==> h in t.access && t.access[h] == s.access[h])
      && (id in s.access && FreshRun(t, rules, after) ==> !Validates(Run(t, rules, after), rules, id, audiences, now))
  {
    if id in s.refresh { EndpointRefresh(s, rules, id); }
    EndpointFrame(s, id);
    if id in s.access && FreshRun(OauthRevoke(s, AccessToken(id)), rules, after) {
      EndpointAccess(s, rules, id, after, audiences, now);
    }
  }

  /** Exactly the families in the set stop being active, exactly their active refresh tokens become revoked, and exactly
      their access tokens do; no row comes or goes, and no other field of any row changes. */
  ghost predicate RevokedExactly(s: Store, t: Store, gone: set<Id>) {
    && t.families.Keys == s.families.Keys && t.refresh.Keys == s.refresh.Keys && t.access.Keys == s.access.Keys
    && (forall f :: f in s.families ==>
          t.families[f] == s.families[f].(active := s.families[f].active && f !in gone))
    && (forall h :: h in s.refresh ==>
          var r := s.refresh[h];
          t.refresh[h] == if r.family in gone && r.status.Active? then r.(status := Revoked) else r)
    && (forall h :: h in s.access ==>
          t.access[h] == s.access[h].(revoked := s.access[h].revoked || s.access[h].family in gone))
  }

  /** Revoking a connection reaches its active families and nothing else. */
  lemma ConnectionCascade(s: Store, connection: Id)
    ensures var (t, r) := RevokeConnection(s, connection);
      if connection in s.connections then
        && r.Ok?
        && RevokedExactly(
          s, t, set f | f in s.families && s.families[f].active && s.families[f].connection == connection)
        && t.connections == s.connections[connection := s.connections[connection].(active := false)]
        && t.accounts == s.accounts && t.memberships == s.memberships && t.authenticators == s.authenticators
      else (t, r) == (s, Err(ConnectionNotFound))
  {
    if connection in s.connections {
      var s1 := s.(connections := s.connections[connection := s.connections[connection].(active := false)]);
      FamiliesRevokedExactly(s1, ActiveFamilies(s, (f: Family) => f.connection == connection));
    }
  }

  /** Revoking an authenticator reaches the active families that came from it and nothing else; without step-up, nothing
      at all. */
  lemma AuthenticatorCascade(s: Store, authenticator: Id, stepUp: bool)
    ensures var (t, r) := RevokeAuthenticator(s, authenticator, stepUp);
      if !stepUp then (t, r) == (s, Err(StepUpRequired))
      else if authenticator in s.authenticators then
        && r.Ok?
        && RevokedExactly(
          s, t, set f | f in s.families && s.families[f].active && s.families[f].authenticator == authenticator)
        && t.authenticators == s.authenticators[
                                 authenticator := s.authenticators[authenticator].(status := RevokedAuthenticator)]
        && t.accounts == s.accounts && t.memberships == s.memberships && t.connections == s.connections
      else (t, r) == (s, Err(AuthenticatorNotFound))
  {
    if stepUp && authenticator in s.authenticators {
      var row := s.authenticators[authenticator].(status := RevokedAuthenticator);
      var s1 := s.(authenticators := s.authenticators[authenticator := row]);
      FamiliesRevokedExactly(s1, ActiveFamilies(s, (f: Family) => f.authenticator == authenticator));
    }
  }

  lemma FamiliesRevokedExactly(s: Store, gone: set<Id>)
    ensures RevokedExactly(s, RevokeFamilies(s, gone), gone)
  {
  }

  /** An account-level bump invalidates, for good, every family minted before it under the account. */
  lemma BumpInvalidates(s: Store, rules: Rules, account: Id, f: Id)
    requires Inv(s) && f in s.families && s.families[f].account == account
    ensures BumpAccount(s, account).1.Ok? && RefusedForever(BumpAccount(s, account).0, rules, f)
  {
    assert FamilyOk(s, f);
    StepKeepsInv(s, rules, Bump(account, None));
    DeadForever(BumpAccount(s, account).0, rules, f);
  }

  /** Revoking a connection invalidates, for good, every family of it. */
  lemma ConnectionInvalidates(s: Store, rules: Rules, connection: Id, f: Id)
    requires Inv(s) && f in s.families && s.families[f].connection == connection
    ensures RevokeConnection(s, connection).1.Ok? && !RevokeConnection(s, connection).0.families[f].active
    ensures RefusedForever(RevokeConnection(s, connection).0, rules, f)
  {
    assert FamilyOk(s, f);
    StepKeepsInv(s, rules, RevokeC(connection));
    DeadForever(RevokeConnection(s, connection).0, rules, f);
  }

  /** No mint from the authenticator ever succeeds again. */
  ghost predicate NeverMints(s: Store, rules: Rules, authenticator: Id) {
    forall after, account, tenant, resource, ids, now
      {:trigger MintConnection(Run(s, rules, after), account, tenant, authenticator, resource, ids, now)} ::
      FreshRun(s, rules, after) ==>
        !MintConnection(Run(s, rules, after), account, tenant, authenticator, resource, ids, now).1.Ok?
  }

  lemma UnusableNeverMints(s: Store, rules: Rules, authenticator: Id)
    requires Inv(s) && authenticator in s.authenticators && !s.authenticators[authenticator].status.Usable?
    ensures NeverMints(s, rules, authenticator)
  {
    forall after, account, tenant, resource, ids, now | FreshRun(s, rules, after)
      ensures !MintConnection(Run(s, rules, after), account, tenant, authenticator, resource, ids, now).1.Ok?
    {
      RunKeeps(s, rules, after);
    }
  }

  /** Revoking an authenticator (with step-up) invalidates, for good, every family that came from it, and it never
      mints another. */
  lemma AuthenticatorInvalidates(s: Store, rules: Rules, authenticator: Id)
    requires Inv(s) && authenticator in s.authenticators
    ensures var (t, r) := RevokeAuthenticator(s, authenticator, true);
      && r.Ok? && NeverMints(t, rules, authenticator)
      && forall f :: f in s.families && s.families[f].authenticator == authenticator ==> RefusedForever(t, rules, f)
  {
    var t := RevokeAuthenticator(s, authenticator, true).0;
    StepKeepsInv(s, rules, RevokeA(authenticator, true));
    UnusableNeverMints(t, rules, authenticator);
    forall f | f in s.families && s.families[f].authenticator == authenticator ensures RefusedForever(t, rules, f) {
      assert !t.families[f].active;
      DeadForever(t, rules, f);
    }
  }

  lemma RunOne(s: Store, rules: Rules, a: Action)
    ensures Run(s, rules, [a]) == Step(s, rules, a) && (FreshRun(s, rules, [a]) <==> Fresh(s, a))
  {
    assert [a][1..] == [];
    assert Run(Step(s, rules, a), rules, []) == Step(s, rules, a);
  }

  lemma RunTwo(s: Store, rules: Rules, a: Action, b: Action)
    ensures Run(s, rules, [a, b]) == Step(Step(s, rules, a), rules, b)
  {
    var t := Step(s, rules, a);
    assert [a, b][1..] == [b] && [b][1..] == [];
    assert Run(t, rules, [b]) == Run(Step(t, rules, b), rules, []);
  }

  /** The newest refresh token of an active, fresh family rotates, at its own expiry at the latest. */
  lemma FreshRotates(s: Store, rules: Rules, f: Id)
    requires Inv(s) && f in s.families && s.families[f].active && Staleness(s, s.families[f]).None?
    ensures !Refused(s, rules, f)
  {
    var g := s.families[f].generation;
    assert FamilyOk(s, f);
    assert OneToken(s, f, g);
    var h :| IsToken(s, h, f, g) && OnlyToken(s, h, f, g);
    assert TokenOk(s, h);
    assert Rotate(s, rules, h, None, s.refresh[h].expires, 0, 0).1.Ok?;
  }

  /** Re-activating the membership makes a family fresh again when its version reaches the membership's. */
  lemma RejoinFresh(s: Store, f: Family)
    requires Staleness(s, f).None? && f.version > s.memberships[(f.account, f.tenant)].version
    ensures Staleness(JoinTenant(BumpMembership(s, f.account, f.tenant).0, f.account, f.tenant).0, f).None?
  {
  }

  /** A membership bump invalidates a working family for good exactly when the family's version is not past the
      membership's; otherwise joining the tenant again brings its tokens back. */
  lemma RejoinExact(s: Store, rules: Rules, f: Id)
    requires Inv(s) && f in s.families && s.families[f].active && Staleness(s, s.families[f]).None?
    ensures var (account, tenant) := (s.families[f].account, s.families[f].tenant);
      RefusedForever(BumpMembership(s, account, tenant).0, rules, f)
      <==> s.families[f].version <= s.memberships[(account, tenant)].version
  {
    var family := s.families[f];
    var bump, join := Bump(family.account, Some(family.tenant)), Join(family.account, family.tenant);
    var s1 := Step(s, rules, bump);
    StepKeepsInv(s, rules, bump);
    if family.version <= s.memberships[(family.account, family.tenant)].version {
      assert Behind(s1, family);
      DeadForever(s1, rules, f);
    } else {
      StepKeepsInv(s1, rules, join);
      RejoinFresh(s, family);
      FreshRotates(Step(s1, rules, join), rules, f);
      RunOne(s1, rules, join);
    }
  }

  /** Such a family exists: any account whose own version was bumped before it minted. */
  lemma RejoinWitness(rules: Rules)
    ensures var s0 := Store(map[1 := Account(Open, 5, 1)], map[(1, 1) := Membership(true, 1)],
                            map[1 := Authenticator(1, Usable)],
                            map[], map[], map[], map[]);
      var s := MintConnection(s0, 1, None, 1, 0, NewIds(1, 1, 1, 1, 1), 0).0;
      && Inv(s) && 1 in s.families
      && Refused(BumpMembership(s, 1, 1).0, rules, 1) && !RefusedForever(BumpMembership(s, 1, 1).0, rules, 1)
  {
    var s0 := Store(map[1 := Account(Open, 5, 1)], map[(1, 1) := Membership(true, 1)],
                    map[1 := Authenticator(1, Usable)],
                    map[], map[], map[], map[]);
    MintKeepsInv(s0, 1, None, 1, 0, NewIds(1, 1, 1, 1, 1), 0);
    var s := MintConnection(s0, 1, None, 1, 0, NewIds(1, 1, 1, 1, 1), 0).0;
    RejoinExact(s, rules, 1);
  }
}
