/** Authorization-code redemption (src/core-auth.js) with the statements of any number of redeemers interleaved,
    among each other and with every other core-auth call: section 4.1.2 of RFC 6749. */
module AuthCode {
  import opened Ordering
  import opened AuthStore
  import Laws = AuthLaws

  datatype CodeStatus = Unused | Used | ExpiredCode

  datatype Code = Code(
    status: CodeStatus, account: Id, tenant: Id, authenticator: Id, client: Id, redirect: Id, issuer: Id,
    resource: Resource, challenge: Id, expires: int)

  /** A redemption request; verifier is what the PKCE challenge is computed from. */
  datatype Request = Request(
    client: Id, redirect: Id, expectedIssuer: Option<Id>, resource: Option<Resource>, verifier: Id, now: int,
    ids: NewIds)

  datatype Phase =
    | Asking(req: Request)
    | Expiring(req: Request)
    | Checked(req: Request)
    | Claimed(req: Request)
    | Done(req: Request, outcome: Outcome)

  /** The code row, the core-auth tables, the redeemers, and the auxiliary list of families minted from the code. */
  datatype System = System(code: Code, store: Store, redeemers: map<Id, Phase>, minted: seq<Id>)

  datatype Action =
    | Ask(r: Id, req: Request)
    | Look(r: Id)
    | Expire(r: Id)
    | Claim(r: Id)
    | MintFor(r: Id)
    | Other(a: Laws.Action)

  /** One of the checks made on the row as read fails. */
  predicate Objection(code: Code, rules: Rules, challengeOf: Id -> Id, req: Request) {
    || code.client != req.client
    || code.redirect != req.redirect
    || (req.expectedIssuer.Some? && code.issuer != req.expectedIssuer.value)
    || (req.resource.Some? && code.resource != req.resource.value && !rules.matches(code.resource, req.resource.value))
    || challengeOf(req.verifier) != code.challenge
  }

  function Set(s: System, r: Id, p: Phase): System { s.(redeemers := s.redeemers[r := p]) }

  /** One statement of one redeemer. The status is written without a guard when the row looked expired, and with
      a compare-and-set when it is claimed; minting happens only after a successful claim. */
  function Step(s: System, rules: Rules, challengeOf: Id -> Id, a: Action): System {
    match a
    case Ask(r, req) => if r in s.redeemers then s else Set(s, r, Asking(req))
    case Look(r) =>
      if r !in s.redeemers || !s.redeemers[r].Asking? then s
      else
        var req := s.redeemers[r].req;
        if !s.code.status.Unused? then Set(s, r, Done(req, Err(InvalidGrant)))
        else if s.code.expires < req.now then Set(s, r, Expiring(req))
        else if Objection(s.code, rules, challengeOf, req) then Set(s, r, Done(req, Err(InvalidGrant)))
        else Set(s, r, Checked(req))
    case Expire(r) =>
      if r !in s.redeemers || !s.redeemers[r].Expiring? then s
      else Set(s.(code := s.code.(status := ExpiredCode)), r, Done(s.redeemers[r].req, Err(InvalidGrant)))
    case Claim(r) =>
      if r !in s.redeemers || !s.redeemers[r].Checked? then s
      else if s.code.status.Unused? then Set(s.(code := s.code.(status := Used)), r, Claimed(s.redeemers[r].req))
      else Set(s, r, Done(s.redeemers[r].req, Err(InvalidGrant)))
    case MintFor(r) =>
      if r !in s.redeemers || !s.redeemers[r].Claimed? then s
      else
        var req := s.redeemers[r].req;
        var (store, outcome) :=
          MintConnection(s.store, s.code.account, Some(s.code.tenant), s.code.authenticator, s.code.resource, req.ids,
                         req.now);
        Set(s.(store := store, minted := if outcome.Ok? then s.minted + [req.ids.family] else s.minted), r,
            Done(req, outcome))
    case Other(b) => s.(store := Laws.Step(s.store, rules, b))
  }

  function Run(s: System, rules: Rules, challengeOf: Id -> Id, actions: seq<Action>): System
    decreases |actions|
  {
    if actions == [] then s
    else Step(Run(s, rules, challengeOf, actions[..|actions| - 1]), rules, challengeOf, actions[|actions| - 1])
  }

  /** A redeemer that won the claim, still minting or answered with tokens. */
  ghost predicate Winner(s: System, r: Id) {
    r in s.redeemers && (s.redeemers[r].Claimed? || (s.redeemers[r].Done? && s.redeemers[r].outcome.Ok?))
  }

  ghost predicate Passed(s: System, rules: Rules, challengeOf: Id -> Id, r: Id) {
    r in s.redeemers && (s.redeemers[r].Checked? || Winner(s, r)) ==>
      !Objection(s.code, rules, challengeOf, s.redeemers[r].req) && s.code.expires >= s.redeemers[r].req.now
  }

  /** The claim is still open, or one redeemer at most holds it; what it minted is the only family. */
  ghost predicate Inv(s: System, rules: Rules, challengeOf: Id -> Id) {
    && (s.code.status.Unused? ==> s.minted == [] && forall r {:trigger Winner(s, r)} :: !Winner(s, r))
    && (forall r, q {:trigger Winner(s, r), Winner(s, q)} :: Winner(s, r) && Winner(s, q) ==> r == q)
    && (forall r {:trigger Passed(s, rules, challengeOf, r)} :: Passed(s, rules, challengeOf, r))
    && (forall r {:trigger Winner(s, r)} :: Winner(s, r) ==>
          s.minted == if s.redeemers[r].Claimed? then [] else [s.redeemers[r].req.ids.family])
    && |s.minted| <= 1
    && (s.minted != [] ==> exists r {:trigger Winner(s, r)} :: Winner(s, r))
  }

  lemma StepKeepsPassed(s: System, rules: Rules, challengeOf: Id -> Id, a: Action)
    requires Inv(s, rules, challengeOf)
    ensures forall r {:trigger Passed(Step(s, rules, challengeOf, a), rules, challengeOf, r)} ::
              Passed(Step(s, rules, challengeOf, a), rules, challengeOf, r)
  {
    var t := Step(s, rules, challengeOf, a);
    forall r ensures Passed(t, rules, challengeOf, r) { assert Passed(s, rules, challengeOf, r); }
  }

  /** What the status and the code row do in one step. */
  lemma StepStatus(s: System, rules: Rules, challengeOf: Id -> Id, a: Action)
    ensures var t := Step(s, rules, challengeOf, a);
      && t.code == s.code.(status := t.code.status)
      && (!s.code.status.Unused? ==> !t.code.status.Unused?)
  {
  }

  lemma MintKeepsInv(s: System, rules: Rules, challengeOf: Id -> Id, r: Id)
    requires Inv(s, rules, challengeOf) && r in s.redeemers && s.redeemers[r].Claimed?
    ensures Inv(Step(s, rules, challengeOf, MintFor(r)), rules, challengeOf)
  {
    var t := Step(s, rules, challengeOf, MintFor(r));
    StepKeepsPassed(s, rules, challengeOf, MintFor(r));
    assert Winner(s, r);
    forall q | Winner(t, q) ensures q == r { assert q != r ==> Winner(s, q); }
    if t.minted != [] { assert Winner(t, r); }
  }

  lemma ClaimKeepsInv(s: System, rules: Rules, challengeOf: Id -> Id, r: Id)
    requires Inv(s, rules, challengeOf) && r in s.redeemers && s.redeemers[r].Checked?
    ensures Inv(Step(s, rules, challengeOf, Claim(r)), rules, challengeOf)
  {
    var t := Step(s, rules, challengeOf, Claim(r));
    StepKeepsPassed(s, rules, challengeOf, Claim(r));
    forall q | Winner(t, q) ensures q == r || Winner(s, q) {}
    if s.minted != [] {
      var q :| Winner(s, q);
      assert Winner(t, q);
    }
  }

  lemma SameWinners(s: System, rules: Rules, challengeOf: Id -> Id, a: Action)
    requires Inv(s, rules, challengeOf)
    requires a.MintFor? ==> a.r !in s.redeemers || !s.redeemers[a.r].Claimed?
    requires a.Claim? ==> a.r !in s.redeemers || !s.redeemers[a.r].Checked?
    ensures Inv(Step(s, rules, challengeOf, a), rules, challengeOf)
  {
    var t := Step(s, rules, challengeOf, a);
    StepKeepsPassed(s, rules, challengeOf, a);
    forall r ensures Winner(t, r) == Winner(s, r) {}
    if s.minted != [] {
      var r :| Winner(s, r);
      assert Winner(t, r);
    }
  }

  lemma StepKeepsInv(s: System, rules: Rules, challengeOf: Id -> Id, a: Action)
    requires Inv(s, rules, challengeOf)
    ensures Inv(Step(s, rules, challengeOf, a), rules, challengeOf)
    ensures !s.code.status.Unused? ==> !Step(s, rules, challengeOf, a).code.status.Unused?
    ensures Step(s, rules, challengeOf, a).code == s.code.(status := Step(s, rules, challengeOf, a).code.status)
  {
    StepStatus(s, rules, challengeOf, a);
    if a.MintFor? && a.r in s.redeemers && s.redeemers[a.r].Claimed? {
      MintKeepsInv(s, rules, challengeOf, a.r);
    } else if a.Claim? && a.r in s.redeemers && s.redeemers[a.r].Checked? {
      ClaimKeepsInv(s, rules, challengeOf, a.r);
    } else {
      SameWinners(s, rules, challengeOf, a);
    }
  }

  ghost predicate Initial(s: System) { s.code.status.Unused? && s.redeemers == map[] && s.minted == [] }

  lemma {:induction false} RunKeepsInv(s: System, rules: Rules, challengeOf: Id -> Id, actions: seq<Action>)
    requires Initial(s)
    ensures Inv(Run(s, rules, challengeOf, actions), rules, challengeOf)
    ensures Run(s, rules, challengeOf, actions).code
            == s.code.(status := Run(s, rules, challengeOf, actions).code.status)
    decreases |actions|
  {
    if actions != [] {
      var n := |actions| - 1;
      RunKeepsInv(s, rules, challengeOf, actions[..n]);
      StepKeepsInv(Run(s, rules, challengeOf, actions[..n]), rules, challengeOf, actions[n]);
    }
  }

  /** Single use. Over every interleaving of any number of redeemers, and of any other core-auth calls, at most one
      redeemer is answered with tokens and at most one family is minted from the code: the winner's, and only if
      its client, redirect, issuer, resource and verifier match the code and it was in time by its own clock. */
  lemma SingleUse(s: System, rules: Rules, challengeOf: Id -> Id, actions: seq<Action>)
    requires Initial(s)
    ensures var t := Run(s, rules, challengeOf, actions);
      && |t.minted| <= 1
      && (forall r, q :: Winner(t, r) && Winner(t, q) ==> r == q)
      && (forall r :: r in t.redeemers && t.redeemers[r].Done? && t.redeemers[r].outcome.Ok? ==>
            && t.minted == [t.redeemers[r].req.ids.family]
            && !t.code.status.Unused?
            && var req := t.redeemers[r].req;
               && req.client == s.code.client && req.redirect == s.code.redirect
               && (req.expectedIssuer.Some? ==> req.expectedIssuer.value == s.code.issuer)
               && (req.resource.Some? ==>
                     req.resource.value == s.code.resource || rules.matches(s.code.resource, req.resource.value))
               && challengeOf(req.verifier) == s.code.challenge
               && s.code.expires >= req.now)
  {
    RunKeepsInv(s, rules, challengeOf, actions);
    var t := Run(s, rules, challengeOf, actions);
    forall r | r in t.redeemers && t.redeemers[r].Done? && t.redeemers[r].outcome.Ok?
      ensures t.minted == [t.redeemers[r].req.ids.family] && !t.code.status.Unused?
      ensures !Objection(s.code, rules, challengeOf, t.redeemers[r].req) && s.code.expires >= t.redeemers[r].req.now
    {
      assert Winner(t, r) && Passed(t, rules, challengeOf, r);
    }
  }

  /** Minted ids and token hashes are new when a call uses them. */
  predicate FreshStep(s: System, a: Action) {
    match a
    case Other(b) => Laws.Fresh(s.store, b)
    case MintFor(r) =>
      r in s.redeemers && s.redeemers[r].Claimed? ==>
        Laws.Fresh(s.store, Laws.Mint(s.code.account, Some(s.code.tenant), s.code.authenticator, s.code.resource,
                                      s.redeemers[r].req.ids, s.redeemers[r].req.now))
    case _ => true
  }

  ghost predicate FreshRun(s: System, rules: Rules, challengeOf: Id -> Id, actions: seq<Action>)
    decreases |actions|
  {
    actions == [] ||
    var before := actions[..|actions| - 1];
    FreshRun(s, rules, challengeOf, before) && FreshStep(Run(s, rules, challengeOf, before), actions[|actions| - 1])
  }

  function FamilyIds(s: System): set<Id> { s.store.families.Keys }

  /** The families that the other core-auth calls of a run added. */
  function OthersMade(s: System, rules: Rules, challengeOf: Id -> Id, actions: seq<Action>): set<Id>
    decreases |actions|
  {
    if actions == [] then {}
    else
      var before, a := actions[..|actions| - 1], actions[|actions| - 1];
      var t := Run(s, rules, challengeOf, before);
      OthersMade(s, rules, challengeOf, before)
      + if a.Other? then FamilyIds(Step(t, rules, challengeOf, a)) - FamilyIds(t) else {}
  }

  function MintedIds(s: System): set<Id> { set f | f in s.minted }

  /** The families there are: the ones at the start, the others' and the ones minted from the code, which are new. */
  ghost predicate Accounted(start: set<Id>, others: set<Id>, t: System) {
    FamilyIds(t) == start + others + MintedIds(t) && MintedIds(t) !! start + others
  }

  lemma OtherAccounted(start: set<Id>, others: set<Id>, t: System, rules: Rules, challengeOf: Id -> Id, b: Laws.Action)
    requires Accounted(start, others, t) && Laws.Fresh(t.store, b)
    ensures var u := Step(t, rules, challengeOf, Other(b));
      Accounted(start, others + (FamilyIds(u) - FamilyIds(t)), u)
  {
    Laws.StepLater(t.store, rules, b);
    assert FamilyIds(t) <= FamilyIds(Step(t, rules, challengeOf, Other(b)));
  }

  lemma MintAccounted(start: set<Id>, others: set<Id>, t: System, rules: Rules, challengeOf: Id -> Id, r: Id)
    requires Accounted(start, others, t) && FreshStep(t, MintFor(r))
    ensures Accounted(start, others, Step(t, rules, challengeOf, MintFor(r)))
  {
    var u := Step(t, rules, challengeOf, MintFor(r));
    if u.minted != t.minted {
      var f := t.redeemers[r].req.ids.family;
      assert FamilyIds(u) == FamilyIds(t) + {f} && MintedIds(u) == MintedIds(t) + {f};
    }
  }

  lemma StepAccounted(start: set<Id>, others: set<Id>, t: System, rules: Rules, challengeOf: Id -> Id, a: Action)
    requires Accounted(start, others, t) && FreshStep(t, a)
    ensures var u := Step(t, rules, challengeOf, a);
      Accounted(start, others + if a.Other? then FamilyIds(u) - FamilyIds(t) else {}, u)
  {
    if a.Other? {
      OtherAccounted(start, others, t, rules, challengeOf, a.a);
    } else if a.MintFor? {
      MintAccounted(start, others, t, rules, challengeOf, a.r);
    } else {
      assert Step(t, rules, challengeOf, a).store == t.store;
    }
  }

  lemma {:induction false} RunAccounted(s: System, rules: Rules, challengeOf: Id -> Id, actions: seq<Action>)
    requires Initial(s) && FreshRun(s, rules, challengeOf, actions)
    ensures Accounted(FamilyIds(s), OthersMade(s, rules, challengeOf, actions), Run(s, rules, challengeOf, actions))
    decreases |actions|
  {
    if actions != [] {
      var before, a := actions[..|actions| - 1], actions[|actions| - 1];
      var t, others := Run(s, rules, challengeOf, before), OthersMade(s, rules, challengeOf, before);
      RunAccounted(s, rules, challengeOf, before);
      StepAccounted(FamilyIds(s), others, t, rules, challengeOf, a);
    }
  }

  /** Of the families in the final store, those that no other call added and that were not there at the start are the
      winner's one, if it was answered with tokens, and otherwise none. */
  lemma OneFamilyAdded(s: System, rules: Rules, challengeOf: Id -> Id, actions: seq<Action>)
    requires Initial(s) && FreshRun(s, rules, challengeOf, actions)
    ensures var t := Run(s, rules, challengeOf, actions);
      var added := FamilyIds(t) - FamilyIds(s) - OthersMade(s, rules, challengeOf, actions);
      && (forall r :: r in t.redeemers && t.redeemers[r].Done? && t.redeemers[r].outcome.Ok? ==>
            added == {t.redeemers[r].req.ids.family})
      && ((forall r :: r in t.redeemers && t.redeemers[r].Done? ==> t.redeemers[r].outcome.Err?) ==> added == {})
  {
    var t := Run(s, rules, challengeOf, actions);
    RunAccounted(s, rules, challengeOf, actions);
    RunKeepsInv(s, rules, challengeOf, actions);
    assert FamilyIds(t) - FamilyIds(s) - OthersMade(s, rules, challengeOf, actions) == MintedIds(t);
    forall r | r in t.redeemers && t.redeemers[r].Done? && t.redeemers[r].outcome.Ok?
      ensures MintedIds(t) == {t.redeemers[r].req.ids.family}
    {
      assert Winner(t, r);
    }
    if t.minted != [] {
      var r :| Winner(t, r);
      assert t.redeemers[r].Done? && t.redeemers[r].outcome.Ok?;
    }
  }

  /** A status never goes back to unused, whoever writes it. */
  lemma {:induction false} NeverUnusedAgain(s: System, rules: Rules, challengeOf: Id -> Id, first: seq<Action>,
                                            later: seq<Action>)
    requires Initial(s) && !Run(s, rules, challengeOf, first).code.status.Unused?
    ensures !Run(s, rules, challengeOf, first + later).code.status.Unused?
    decreases |later|
  {
    if later == [] {
      assert first + later == first;
    } else {
      var n := |later| - 1;
      NeverUnusedAgain(s, rules, challengeOf, first, later[..n]);
      assert (first + later)[..|first + later| - 1] == first + later[..n];
      RunKeepsInv(s, rules, challengeOf, first + later[..n]);
      StepKeepsInv(Run(s, rules, challengeOf, first + later[..n]), rules, challengeOf, later[n]);
    }
  }

  /** What a successful claim mints is what was authorized: a family of the code's account, tenant, authenticator and
      resource, under the redeemer's new ids. */
  lemma MintsWhatWasAuthorized(s: System, rules: Rules, challengeOf: Id -> Id, r: Id)
    requires r in s.redeemers && s.redeemers[r].Claimed?
    ensures var t := Step(s, rules, challengeOf, MintFor(r));
      var ids := s.redeemers[r].req.ids;
      && t.redeemers[r].Done? && t.code == s.code
      && (t.redeemers[r].outcome.Ok? ==>
            && ids.family in t.store.families && ids.connection in t.store.connections
            && var f := t.store.families[ids.family];
               && f.account == s.code.account && f.tenant == s.code.tenant && f.authenticator == s.code.authenticator
               && f.resource == s.code.resource && f.active && f.generation == 0 && f.connection == ids.connection
               && t.store.connections[ids.connection] == Connection(f.account, f.tenant, f.principal, true))
      && (t.redeemers[r].outcome.Err? ==> t.store == s.store && t.minted == s.minted)
  {
  }

  /** Every check a redemption makes on the code. */
  ghost predicate Redeemable(code: Code, rules: Rules, challengeOf: Id -> Id, req: Request) {
    && code.status.Unused? && code.expires >= req.now
    && code.client == req.client && code.redirect == req.redirect
    && (req.expectedIssuer.Some? ==> code.issuer == req.expectedIssuer.value)
    && (req.resource.Some? ==> code.resource == req.resource.value || rules.matches(code.resource, req.resource.value))
    && challengeOf(req.verifier) == code.challenge
  }

  /** All statements of one redeemer, with nothing in between. */
  function Redeem(s: System, rules: Rules, challengeOf: Id -> Id, r: Id, req: Request): System {
    var looked := Step(Step(s, rules, challengeOf, Ask(r, req)), rules, challengeOf, Look(r));
    var claimed := Step(Step(looked, rules, challengeOf, Expire(r)), rules, challengeOf, Claim(r));
    Step(claimed, rules, challengeOf, MintFor(r))
  }

  /** Redeeming alone. The answer is the mint's when every check passes, and invalid_grant otherwise; the code is used
      up by a passed check even when the mint is then refused, marked expired only when it was unused and late, and left
      as it was by any other failure; and only a mint writes to the tables. */
  lemma RedeemAlone(s: System, rules: Rules, challengeOf: Id -> Id, r: Id, req: Request)
    requires r !in s.redeemers
    ensures var t := Redeem(s, rules, challengeOf, r, req);
      var (store, outcome) :=
        MintConnection(s.store, s.code.account, Some(s.code.tenant), s.code.authenticator, s.code.resource, req.ids,
                       req.now);
      var good := Redeemable(s.code, rules, challengeOf, req);
      && t.redeemers == s.redeemers[r := Done(req, if good then outcome else Err(InvalidGrant))]
      && t.store == (if good then store else s.store)
      && t.code == s.code.(status := if good then Used
                                     else if s.code.status.Unused? && s.code.expires < req.now then ExpiredCode
                                     else s.code.status)
      && t.minted == s.minted + (if good && outcome.Ok? then [req.ids.family] else [])
  {
    var s1 := Step(s, rules, challengeOf, Ask(r, req));
    var s2 := Step(s1, rules, challengeOf, Look(r));
    var s3 := Step(s2, rules, challengeOf, Expire(r));
    var s4 := Step(s3, rules, challengeOf, Claim(r));
    assert s1.redeemers[r] == Asking(req);
    if Redeemable(s.code, rules, challengeOf, req) {
      assert s2.redeemers[r] == Checked(req) && s3 == s2 && s4.redeemers[r] == Claimed(req);
    } else {
      assert s4.redeemers[r] == Done(req, Err(InvalidGrant)) && s4.minted == s.minted;
    }
  }
}
