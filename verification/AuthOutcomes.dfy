/** What each core-auth call answers and writes, case by case: which error comes when, that a refusal writes nothing,
    and that a success writes the rows it names and no other (src/core-auth.js). */
module AuthOutcomes {
  import opened Ordering
  import opened AuthStore
  import opened AuthLaws

  /** The tables besides families and tokens. */
  ghost predicate SameTables(s: Store, t: Store) {
    && t.accounts == s.accounts && t.memberships == s.memberships
    && t.authenticators == s.authenticators && t.connections == s.connections
  }

  ghost predicate OpenFor(s: Store, f: Family) { f.account in s.accounts && s.accounts[f.account].status.Open? }

  ghost predicate MemberFor(s: Store, f: Family) {
    (f.account, f.tenant) in s.memberships && s.memberships[(f.account, f.tenant)].active
  }

  ghost predicate VersionFor(s: Store, f: Family)
    requires OpenFor(s, f) && MemberFor(s, f)
  {
    f.version >= s.accounts[f.account].version && f.version >= s.memberships[(f.account, f.tenant)].version
  }

  /** A family is fresh exactly with an open account, an active membership, a version behind neither, and an active
      connection; otherwise the first of these that fails names the error. */
  lemma StalenessMeaning(s: Store, f: Family)
    ensures var e := Staleness(s, f);
      && (e == Some(AccountNotFound) <==> f.account !in s.accounts)
      && (e == Some(AccountNotActive) <==> f.account in s.accounts && !OpenFor(s, f))
      && (e == Some(StaleVersion) <==> OpenFor(s, f) && (!MemberFor(s, f) || !VersionFor(s, f)))
      && (e == Some(ConnectionRevoked) <==>
            && OpenFor(s, f) && MemberFor(s, f) && VersionFor(s, f)
            && !(f.connection in s.connections && s.connections[f.connection].active))
      && (e.None? <==>
            && OpenFor(s, f) && MemberFor(s, f) && VersionFor(s, f)
            && f.connection in s.connections && s.connections[f.connection].active)
  {
  }

  /** The presented token is active and in time, its family is active, and the resource asked for is the family's. */
  ghost predicate Presentable(s: Store, rules: Rules, token: Id, expected: Option<Resource>, now: int) {
    && token in s.refresh && s.refresh[token].status.Active? && s.refresh[token].expires >= now
    && s.refresh[token].family in s.families
    && var f := s.families[s.refresh[token].family];
       f.active && (expected.Some? ==> f.resource == expected.value || rules.matches(f.resource, expected.value))
  }

  /** Every answer of a rotation. A token that is not active any more revokes its family and nothing else; every other
      refusal, a resource mismatch included, writes nothing. */
  lemma RotationRefusals(s: Store, rules: Rules, token: Id, expected: Option<Resource>, now: int, a: Id, r: Id)
    requires Inv(s)
    ensures var (t, answer) := Rotate(s, rules, token, expected, now, a, r);
      var spent := token in s.refresh && !s.refresh[token].status.Active?;
      && (answer == Err(FamilyRevoked) <==> spent)
      && (spent ==> RevokedExactly(s, t, {s.refresh[token].family}) && SameTables(s, t))
      && (answer.Err? && !spent ==> t == s)
      && (answer == Err(InvalidGrant) <==> !spent && !Presentable(s, rules, token, expected, now))
      && (Presentable(s, rules, token, expected, now) ==>
            var stale := Staleness(s, s.families[s.refresh[token].family]);
            answer == if stale.Some? then Err(stale.value) else Outcome.Ok)
  {
    if token in s.refresh {
      assert TokenOk(s, token);
      if !s.refresh[token].status.Active? { FamiliesRevokedExactly(s, {s.refresh[token].family}); }
      if Presentable(s, rules, token, expected, now) {
        StalenessMeaning(s, s.families[s.refresh[token].family]);
      }
    }
  }

  /** A successful rotation marks the old token, moves the family one generation on, adds one token of each kind for
      the family, and changes nothing else. */
  lemma RotationRows(s: Store, rules: Rules, token: Id, expected: Option<Resource>, now: int, a: Id, r: Id)
    requires Fresh(s, RotateToken(token, expected, now, a, r)) && Rotate(s, rules, token, expected, now, a, r).1.Ok?
    ensures var t, family := Rotate(s, rules, token, expected, now, a, r).0, s.refresh[token].family;
      var f := s.families[family];
      && SameTables(s, t)
      && t.families == s.families[family := f.(generation := f.generation + 1)]
      && t.access == s.access[
                       a := Access(family, f.principal, f.connection, f.resource, now + 15 * 60 * 1000, false)]
      && t.refresh.Keys == s.refresh.Keys + {r}
      && t.refresh[r] == Refresh(family, f.generation + 1, Active, now + 30 * 24 * 60 * 60 * 1000)
      && t.refresh[token] == s.refresh[token].(status := Rotated)
      && (forall h :: h in s.refresh && h != token ==> t.refresh[h] == s.refresh[h])
  {
  }

  /** Every answer of a mint, and the four rows of a successful one. */
  lemma MintRows(s: Store, account: Id, tenant: Option<Id>, authenticator: Id, resource: Resource, ids: NewIds,
                 now: int)
    ensures var (t, answer) := MintConnection(s, account, tenant, authenticator, resource, ids, now);
      var open := account in s.accounts && s.accounts[account].status.Open?;
      var joined := open && (account, Chosen(s, account, tenant)) in s.memberships
                    && s.memberships[(account, Chosen(s, account, tenant))].active;
      && (answer == Err(AccountNotFound) <==> account !in s.accounts)
      && (answer == Err(AccountNotActive) <==> account in s.accounts && !open)
      && (answer == Err(MembershipRequired) <==> open && !joined)
      && (answer == Err(AuthenticatorNotFound) <==>
            joined && !(authenticator in s.authenticators
                        && s.authenticators[authenticator] == Authenticator(account, Usable)))
      && (answer.Err? ==> t == s && answer.error in {AccountNotFound, AccountNotActive, MembershipRequired,
                                                     AuthenticatorNotFound})
      && (answer.Ok? ==>
            var home := Chosen(s, account, tenant);
            && t.accounts == s.accounts && t.memberships == s.memberships && t.authenticators == s.authenticators
            && t.connections == s.connections[ids.connection := Connection(account, home, ids.principal, true)]
            && t.families == s.families[ids.family :=
                               Family(ids.connection, ids.principal, account, home, authenticator, resource, true,
                                      s.accounts[account].version, 0)]
            && t.access == s.access[ids.access := Access(ids.family, ids.principal, ids.connection, resource,
                                                         now + 15 * 60 * 1000, false)]
            && t.refresh == s.refresh[ids.refresh := Refresh(ids.family, 0, Active, now + 30 * 24 * 60 * 60 * 1000)])
  {
  }

  /** An access token of a state every run reaches is accepted exactly when it is not revoked, in time, meant for one of
      the audiences and not for the refused one, and its family is active and fresh: that its principal and connection
      are the family's never has to be asked. */
  lemma ValidatesMeaning(s: Store, rules: Rules, token: Id, audiences: seq<Resource>, now: int)
    requires Inv(s) && token in s.access
    ensures var row := s.access[token];
      Validates(s, rules, token, audiences, now) <==>
        && !row.revoked && now <= row.expires && row.resource in audiences && !rules.mcpB(row.resource)
        && row.family in s.families && s.families[row.family].active && Staleness(s, s.families[row.family]).None?
  {
    assert AccessOk(s, token);
  }

  /** Bumps and joins: an account bump moves the account's version on, a membership bump also ends the membership, and a
      join starts it again at the version it had, or at 1. Nothing else changes, and an unknown row is an error. */
  lemma VersionMeaning(s: Store, account: Id, tenant: Id)
    ensures var (t, r) := BumpAccount(s, account);
      if account in s.accounts then
        var a := s.accounts[account];
        r.Ok? && t == s.(accounts := s.accounts[account := Account(a.status, a.version + 1, a.homeTenant)])
      else (t, r) == (s, Err(AccountNotFound))
    ensures var (t, r) := BumpMembership(s, account, tenant);
      if (account, tenant) in s.memberships then
        var m := Membership(false, s.memberships[(account, tenant)].version + 1);
        r.Ok? && t == s.(memberships := s.memberships[(account, tenant) := m])
      else (t, r) == (s, Err(MembershipNotFound))
    ensures var (t, r) := JoinTenant(s, account, tenant);
      if account in s.accounts then
        && r.Ok? && (account, tenant) in t.memberships && t.memberships[(account, tenant)].active
        && t.memberships[(account, tenant)].version
           == (if (account, tenant) in s.memberships then s.memberships[(account, tenant)].version else 1)
        && t == s.(memberships := s.memberships[(account, tenant) := t.memberships[(account, tenant)]])
      else (t, r) == (s, Err(AccountNotFound))
  {
  }

  /** A family revoked by id, and a presented token at the revocation endpoint: what each takes with it. */
  lemma EndpointRows(s: Store, p: Presented)
    requires Inv(s)
    ensures var t := OauthRevoke(s, p);
      && SameTables(s, t)
      && (p.RefreshToken? && p.id in s.refresh ==> RevokedExactly(s, t, {s.refresh[p.id].family}))
      && (p.AccessToken? && p.id in s.access ==>
            t == s.(access := s.access[p.id := s.access[p.id].(revoked := true)]))
      && (!(p.RefreshToken? && p.id in s.refresh) && !(p.AccessToken? && p.id in s.access) ==> t == s)
  {
    if p.RefreshToken? && p.id in s.refresh {
      assert TokenOk(s, p.id);
      FamiliesRevokedExactly(s, {s.refresh[p.id].family});
    }
  }

  /** Enrolling opens an unknown account at version 1 with an active home membership and a usable authenticator; a known
      one must be open with an active membership to get the authenticator, and gets nothing else. */
  lemma EnrollMeaning(s: Store, account: Id, tenant: Id, authenticator: Id)
    ensures var t := EnrollSpec(s, account, tenant, authenticator);
      var added := s.authenticators[authenticator := Authenticator(account, Usable)];
      if account !in s.accounts then
        t == s.(accounts := s.accounts[account := Account(Open, 1, tenant)],
                memberships := s.memberships[(account, tenant) := Membership(true, 1)], authenticators := added)
      else if s.accounts[account].status.Open? && (account, tenant) in s.memberships
           && s.memberships[(account, tenant)].active then t == s.(authenticators := added)
      else t == s
  {
  }

  /** Replacing an authenticator, with step-up and for its own account only, retires the old row and adds a usable one;
      no family is touched. */
  lemma ReplaceMeaning(s: Store, account: Id, previous: Id, authenticator: Id, stepUp: bool)
    requires authenticator !in s.authenticators
    ensures var t := ReplaceSpec(s, account, previous, authenticator, stepUp);
      var allowed := && stepUp && account in s.accounts && previous in s.authenticators
                     && s.authenticators[previous].account == account;
      && t == s.(authenticators := t.authenticators)
      && (!allowed ==> t == s)
      && (allowed ==>
            && t.authenticators.Keys == s.authenticators.Keys + {authenticator}
            && t.authenticators[authenticator] == Authenticator(account, Usable)
            && t.authenticators[previous] == Authenticator(account, Replaced)
            && forall a :: a in s.authenticators && a != previous ==> t.authenticators[a] == s.authenticators[a])
  {
  }

  /** Binding a connection to a tenant changes only that, and only for an active membership of the connection's
      account. */
  lemma BindMeaning(s: Store, connection: Id, tenant: Id)
    ensures var t := BindSpec(s, connection, tenant);
      var allowed := connection in s.connections
                     && (s.connections[connection].account, tenant) in s.memberships
                     && s.memberships[(s.connections[connection].account, tenant)].active;
      t == if allowed then s.(connections := s.connections[connection := s.connections[connection].(tenant := tenant)])
           else s
  {
  }
}
