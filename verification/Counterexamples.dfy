/** Runs from an empty database for what does not hold without the condition stated elsewhere. */
module Counterexamples {
  import opened Domain
  import opened Tables
  import opened UseCases
  import opened Machine
  import opened SampleRuns
  import opened SessionPasswords
  import Scopes
  import Text

  // ---- a session outlives the password it was opened with ----

  function CutOffChange(): Event {
    Do(1, Credential(DoChangePassword(ChangeInput(2, FIRST_PASSWORD, SECOND_PASSWORD, SECOND_PASSWORD,
                                                  SECOND_PASSWORD))))
  }

  lemma ChangeStep()
    ensures Next(Plain(), LoggedIn(), CutOffChange()).0 ==
            LoggedIn().(accounts :=
              LoggedIn().accounts.(users := map[2 := User(ADDRESS, SECOND_PASSWORD, RoleUser, Active, Some(0))]))
  {
  }

  /** A password change cut off after its first write leaves the session opened with the old password. */
  lemma SessionOutlivesItsPassword()
    ensures var es := SignInEvents() + [CutOffChange()]; var b := After(Plain(), es);
            IsRun(Plain(), States(Plain(), es), es) && !SessionsFit(b) && ResolveSession(b, 1, 4) == Some(2)
  {
    hide Next, After;
    SignInRun();
    ChangeStep();
    AfterMore(Plain(), SignInEvents(), CutOffChange());
    StatesAreARun(Plain(), SignInEvents() + [CutOffChange()]);
    assert !SessionFits(After(Plain(), SignInEvents() + [CutOffChange()]), 4);
  }

  // ---- a suspension ends without an administrator ----

  function Suspension(): Event { Do(3, Credential(DoSetStatus(ADMIN, 2, Suspended))) }

  function Suspended2(): Db {
    SignedUp().(accounts :=
      SignedUp().accounts.(users := map[2 := User(ADDRESS, FIRST_PASSWORD, RoleUser, Suspended, None)]))
  }

  lemma SuspendStep()
    ensures Next(Plain(), SignedUp(), Suspension()).0 == Suspended2()
  {
  }

  lemma LiftStep()
    ensures Next(Plain(), Suspended2(), Do(2, Mail(DoVerifyEmail(3)))).0 == Verified()
  {
  }

  /** A user suspended before verifying its address becomes active by verifying it. */
  lemma VerificationEndsASuspension()
    ensures var es := SignUpEvents() + [Suspension()]; var longer := es + [Do(2, Mail(DoVerifyEmail(3)))];
            IsRun(Plain(), States(Plain(), longer), longer) &&
            2 in After(Plain(), es).accounts.users && After(Plain(), es).accounts.users[2].status == Suspended &&
            2 in After(Plain(), longer).accounts.users && After(Plain(), longer).accounts.users[2].CanAuthorize()
  {
    hide Next, After;
    SignInRun();
    SuspendStep();
    LiftStep();
    var es := SignUpEvents() + [Suspension()];
    AfterMore(Plain(), SignUpEvents(), Suspension());
    AfterMore(Plain(), es, Do(2, Mail(DoVerifyEmail(3))));
    StatesAreARun(Plain(), es + [Do(2, Mail(DoVerifyEmail(3)))]);
  }

  // ---- a code outlives a password change ----

  /** openid and offline_access, separated by a space. */
  function Scope(): string { Text.Join([Scopes.OPENID, Scopes.OFFLINE_ACCESS], ' ') }

  function AnnAuthorizes(): Event {
    Do(2, Action.Grants(DoAuthorize(AuthorizeInput(APP, "https://app", "code", Scope(), "state", 4, "", ""))))
  }

  function Change(): Event {
    Do(3, Credential(DoChangePassword(ChangeInput(2, FIRST_PASSWORD, SECOND_PASSWORD, SECOND_PASSWORD,
                                                  SECOND_PASSWORD))))
  }

  function AppExchanges(): Event {
    Do(4, Action.Grants(DoExchange(ExchangeInput(5, "https://app", APP, "secret", ""))))
  }

  function FreshCode(): Code { Code(2, APP, "https://app", Scope(), None, None, AUTH_CODE_TTL, None) }

  function Coded(): Db {
    LoggedIn().(next := 6,
                grants := LoggedIn().grants.(codes := map[5 := FreshCode()]))
  }

  function Changed(): Db {
    Coded().(accounts :=
               Coded().accounts.(users := map[2 := User(ADDRESS, SECOND_PASSWORD, RoleUser, Active, Some(0))]),
             sessions := Sessions(map[4 := Session(2, HOUR, Some(0))], map[4 := FIRST_PASSWORD]))
  }

  lemma ScopeIsValid()
    ensures Scopes.IsValidScope(Scope()) && Scopes.Includes(Scope(), Scopes.OFFLINE_ACCESS)
  {
    hide Text.Join, Scopes.Fields;
    var fields := [Scopes.OPENID, Scopes.OFFLINE_ACCESS];
    assert Scopes.IsField(Scopes.OPENID) && Scopes.IsField(Scopes.OFFLINE_ACCESS);
    Scopes.FieldsOfJoin(fields);
    assert fields[0] == Scopes.OPENID && fields[1] == Scopes.OFFLINE_ACCESS;
  }

  lemma AuthorizeStep()
    ensures Next(Plain(), LoggedIn(), AnnAuthorizes()).0 == Coded()
  {
    hide Scopes.IsValidScope, Scopes.ScopeError, Scope, AuthorizeError, ResolveSession;
    var i := AnnAuthorizes().act.grant.authorize;
    assert AuthorizeError(LoggedIn(), i).None? by { InputIsFine(); }
    assert ResolveSession(LoggedIn(), 0, 4) == Some(2) by { AnnResolves(); }
    assert RecordAccess(Plain(), Coded(), 0, 2, APP, "https://app") == Coded() by { AnnWasHere(); }
  }

  lemma InputIsFine()
    ensures AuthorizeError(LoggedIn(), AnnAuthorizes().act.grant.authorize).None?
  {
    hide Scopes.IsValidScope, Scopes.ScopeError, Scope;
    ScopeIsValid();
  }

  lemma AnnResolves()
    ensures ResolveSession(LoggedIn(), 0, 4) == Some(2)
  {
  }

  lemma AnnWasHere()
    ensures RecordAccess(Plain(), Coded(), 0, 2, APP, "https://app") == Coded()
  {
    hide Scope;
  }

  lemma ChangedStep()
    ensures Next(Plain(), Coded(), Change()) == (Changed(), Done)
  {
    hide Scope, RevokeAll;
    var users := Coded().accounts.users;
    assert users[2 := users[2].(hash := SECOND_PASSWORD)] == Changed().accounts.users;
    AllRevoked();
  }

  lemma AllRevoked()
    ensures RevokeAll(Coded().(accounts := Changed().accounts), 0, 2, 2) == (Changed(), Done)
  {
    hide Scope;
    assert Coded().sessions.RevokeAll(2, 0) == Changed().sessions;
    assert Coded().grants.RevokeAllRefresh(2, 0) == Changed().grants;
  }

  lemma ExchangeStep()
    ensures var r := Next(Plain(), Changed(), AppExchanges());
            r.1.TokensIssued? && r.1.access.sub == 2 && 6 in r.0.grants.refresh &&
            r.0.grants.refresh[6] == Refresh(2, APP, Scope(), REFRESH_TOKEN_TTL, None)
  {
    hide Scopes.Includes, Scope, Scopes.IsValidScope;
    ScopeIsValid();
  }

  /** A code issued before a completed password change is exchanged after it for a live refresh token. */
  lemma CodeOutlivesAPasswordChange()
    ensures var es := SignInEvents() + [AnnAuthorizes()] + [Change()]; var longer := es + [AppExchanges()];
            IsRun(Plain(), States(Plain(), longer), longer) &&
            After(Plain(), SignInEvents() + [AnnAuthorizes()]) == Coded() &&
                Next(Plain(), Coded(), Change()).1 == Done &&
            Next(Plain(), After(Plain(), es), AppExchanges()).1.TokensIssued? &&
            6 in After(Plain(), longer).grants.refresh && After(Plain(), longer).grants.refresh[6].revokedAt.None? &&
            After(Plain(), longer).grants.refresh[6].user == 2
  {
    hide Next, After;
    SignInRun();
    AuthorizeStep();
    ChangedStep();
    ExchangeStep();
    var es := SignInEvents() + [AnnAuthorizes()];
    AfterMore(Plain(), SignInEvents(), AnnAuthorizes());
    AfterMore(Plain(), es, Change());
    AfterMore(Plain(), es + [Change()], AppExchanges());
    StatesAreARun(Plain(), es + [Change()] + [AppExchanges()]);
  }

  // ---- a code is stored and not delivered ----

  function BrokenSeed(): Event { Do(1, Clients(DoSeedClient(BETA, BROKEN, "beta secret"))) }

  function AnnTriesBeta(): Event {
    Do(2, Action.Grants(DoAuthorize(AuthorizeInput(BETA, BROKEN, "code", Scope(), "state", 4, "", ""))))
  }

  function BrokenSeeded(): Db {
    LoggedIn().(clients := map[APP := Client("secret", ["https://app"], Public, ClientSecretPost),
                               BETA := Client("beta secret", [BROKEN], Public, ClientSecretPost)])
  }

  lemma BrokenSeedStep()
    ensures Next(Plain(), LoggedIn(), BrokenSeed()).0 == BrokenSeeded()
  {
  }

  lemma BetaInputIsFine()
    ensures AuthorizeError(BrokenSeeded(), AnnTriesBeta().act.grant.authorize).None?
    ensures ResolveSession(BrokenSeeded(), 0, 4) == Some(2)
  {
    hide Scopes.IsValidScope, Scopes.ScopeError, Scope;
    ScopeIsValid();
  }

  lemma UndeliveredStep()
    ensures var r := Next(Plain(), BrokenSeeded(), AnnTriesBeta());
            r.1 == Failed(InvalidRedirectURI) && 5 in r.0.grants.codes && r.0.grants.codes[5].usedAt.None? &&
                5 !in BrokenSeeded().grants.codes
  {
    hide Scopes.IsValidScope, Scopes.ScopeError, Scope, AuthorizeError, ResolveSession, RecordAccess;
    BetaInputIsFine();
  }

  /**
    An application configured with a URI that does not parse: ann's authorization answers an error, and
    its code is stored and unused.
   */
  lemma CodeIsStoredAndNotDelivered()
    ensures var es := SignInEvents() + [BrokenSeed()]; var longer := es + [AnnTriesBeta()];
            IsRun(Plain(), States(Plain(), longer), longer) &&
            Next(Plain(), After(Plain(), es), AnnTriesBeta()).1 == Failed(InvalidRedirectURI) &&
            5 !in After(Plain(), es).grants.codes && 5 in After(Plain(), longer).grants.codes &&
            After(Plain(), longer).grants.codes[5].usedAt.None?
  {
    hide Next, After;
    SignInRun();
    BrokenSeedStep();
    UndeliveredStep();
    AfterMore(Plain(), SignInEvents(), BrokenSeed());
    AfterMore(Plain(), SignInEvents() + [BrokenSeed()], AnnTriesBeta());
    StatesAreARun(Plain(), SignInEvents() + [BrokenSeed()] + [AnnTriesBeta()]);
  }

  // ---- one invite admits two users ----

  const BETA := ClientId("beta")
  const NEW_ADDRESS := Email("ann@example.com")

  function Opening(): seq<Event> {
    SignInEvents()
    + [Do(1, Clients(DoSeedClient(BETA, "https://beta", "beta secret")))]
    + [Do(1, Clients(DoSetAccessMode(ADMIN, BETA, "invite_only")))]
    + [Do(1, Entry(DoCreateInvite(ADMIN, BETA, ADDRESS.address)))]
  }

  function CutOffAccept(): Event { Do(1, Entry(DoAcceptExisting(5, 4))) }

  function Moving(): seq<Event> {
    Opening() + [CutOffAccept()]
    + [Do(2, Mail(DoAddEmail(AddInput(2, NEW_ADDRESS.address, true, true))))]
    + [Do(2, Mail(DoVerifyEmail(6)))]
    + [Do(1, Mail(DoDeleteEmail(2, ADDRESS.address)))]
  }

  function NewcomerAccepts(): Event {
    Do(4, Entry(DoRegisterViaInvite(InviteRegisterInput(5, SECOND_PASSWORD, SECOND_PASSWORD, true, true))))
  }

  function Invited(): Db {
    LoggedIn().(next := 6,
                clients := map[APP := Client("secret", ["https://app"], Public, ClientSecretPost),
                               BETA := Client("beta secret", ["https://beta"], InviteOnly, ClientSecretPost)],
                entries := LoggedIn().entries.(invites := map[5 := Invite(BETA, ADDRESS, INVITE_TTL, None, None)]))
  }

  function Accepted(): Db {
    Invited().(entries :=
      Invited().entries.(accesses := map[(2, APP) := Access("", 0, 0), (2, BETA) := Access("", 0, 0)]))
  }

  /** Ann's accounts with the new address pending, confirmed, and alone. */
  function Pending(): Accounts {
    Accounts(map[2 := User(ADDRESS, FIRST_PASSWORD, RoleUser, Active, Some(0))],
             map[ADDRESS := EmailRow(2, Primary, Some(0)), NEW_ADDRESS := EmailRow(2, Secondary, None)],
             map[3 := VerifyToken(2, None, EMAIL_VERIFY_TTL, Some(0)),
                 6 := VerifyToken(2, Some(NEW_ADDRESS), EMAIL_VERIFY_TTL, None)],
             map[3 := ADDRESS, 6 := NEW_ADDRESS])
  }

  function Confirmed(): Accounts {
    Pending().(emails := map[ADDRESS := EmailRow(2, Primary, Some(0)), NEW_ADDRESS := EmailRow(2, Secondary, Some(0))],
               verifs := map[3 := VerifyToken(2, None, EMAIL_VERIFY_TTL, Some(0)),
                             6 := VerifyToken(2, Some(NEW_ADDRESS), EMAIL_VERIFY_TTL, Some(0))])
  }

  function Alone(): Accounts {
    Confirmed().(users := map[2 := User(NEW_ADDRESS, FIRST_PASSWORD, RoleUser, Active, Some(0))],
                 emails := map[NEW_ADDRESS := EmailRow(2, Primary, Some(0))])
  }

  function Moved(): Db { Accepted().(next := 7, accounts := Alone()) }

  lemma OpeningStep(a: Db, b: Db)
    requires a == Next(Plain(), LoggedIn(), Do(1, Clients(DoSeedClient(BETA, "https://beta", "beta secret")))).0
    requires b == Next(Plain(), a, Do(1, Clients(DoSetAccessMode(ADMIN, BETA, "invite_only")))).0
    ensures Next(Plain(), b, Do(1, Entry(DoCreateInvite(ADMIN, BETA, ADDRESS.address)))).0 == Invited()
  {
  }

  lemma AcceptStep()
    ensures Next(Plain(), Invited(), CutOffAccept()).0 == Accepted()
  {
  }

  lemma AddressesDiffer()
    ensures NEW_ADDRESS != ADDRESS
  {
    assert NEW_ADDRESS.address[12] != ADDRESS.address[12];
  }

  lemma AddStep(db: Db)
    requires db.next == 6 && db.accounts == Verified().accounts
    ensures Next(Plain(), db, Do(2, Mail(DoAddEmail(AddInput(2, NEW_ADDRESS.address, true, true))))).0 ==
            db.(next := 7, accounts := Pending())
  {
    AddressesDiffer();
    NewAddressPends();
    assert !db.accounts.HasSecondary(2);
    hide Pending;
  }

  lemma NewAddressPends()
    ensures var a := Verified().accounts;
            a.(emails := a.emails[NEW_ADDRESS := EmailRow(2, Secondary, None)])
            .CreateVerifyToken(6, VerifyToken(2, Some(NEW_ADDRESS), EMAIL_VERIFY_TTL, None), NEW_ADDRESS) == Pending()
  {
    AddressesDiffer();
  }

  lemma ConfirmStep(db: Db)
    requires db.accounts == Pending()
    ensures Next(Plain(), db, Do(2, Mail(DoVerifyEmail(6)))).0 == db.(accounts := Confirmed())
  {
    AddressesDiffer();
  }

  lemma MoveStep(db: Db)
    requires db.accounts == Confirmed()
    ensures Next(Plain(), db, Do(1, Mail(DoDeleteEmail(2, ADDRESS.address)))).0 == db.(accounts := Alone())
  {
    OldAddressGoes();
    assert 2 in Confirmed().users;
    hide Confirmed, Alone;
  }

  lemma OldAddressGoes()
    ensures Confirmed().DeleteVerified(2, ADDRESS) == Ok(Alone())
  {
    AddressesDiffer();
    var a := Confirmed();
    assert a.Verified(2) == {ADDRESS, NEW_ADDRESS};
    assert a.IsSurvivor(2, ADDRESS, NEW_ADDRESS);
    assert a.Survivor(2, ADDRESS) == Some(NEW_ADDRESS);
    assert a.Promote(2, ADDRESS, NEW_ADDRESS) == Alone();
  }

  /** A registration by invite writes the user and the access row first. */
  lemma ViaInviteGrants(db: Db, at: Clock, cut: nat, i: InviteRegisterInput)
    requires cut >= 2 && LoadUsable(db, at.first, i.invite).Ok? && i.captchaOk && |i.password| >= MIN_PASSWORD_LENGTH
    requires var e := LoadUsable(db, at.first, i.invite).value.email;
             (e !in db.accounts.emails && forall u :: u in db.accounts.users ==> db.accounts.users[u].email != e)
    ensures var b := RegisterViaInvite(db, at, cut, i).0; var row := LoadUsable(db, at.first, i.invite).value;
            db.next in b.accounts.users && b.accounts.users[db.next].email == row.email &&
            (db.next, row.client) in b.entries.accesses && b.entries.invites.Keys == db.entries.invites.Keys &&
            forall a :: a in db.entries.accesses ==> a in b.entries.accesses
  {
    hide LoadUsable;
  }

  lemma NewcomerStep()
    ensures var b := Next(Plain(), Moved(), NewcomerAccepts()).0;
            7 in b.accounts.users && b.accounts.users[7].email == ADDRESS && (2, BETA) in b.entries.accesses &&
                (7, BETA) in b.entries.accesses &&
            b.entries.invites.Keys == {5}
  {
    hide RegisterViaInvite;
    AddressesDiffer();
    ViaInviteGrants(Moved(), NOON, 4, InviteRegisterInput(5, SECOND_PASSWORD, SECOND_PASSWORD, true, true));
  }

  lemma MovingRun()
    ensures After(Plain(), Opening()) == Invited() && After(Plain(), Moving()) == Moved()
  {
    hide Next, After;
    var env := Plain();
    var e1 := Do(1, Clients(DoSeedClient(BETA, "https://beta", "beta secret")));
    var e2 := Do(1, Clients(DoSetAccessMode(ADMIN, BETA, "invite_only")));
    var e3 := Do(1, Entry(DoCreateInvite(ADMIN, BETA, ADDRESS.address)));
    SignInRun();
    AfterMore(env, SignInEvents(), e1);
    AfterMore(env, SignInEvents() + [e1], e2);
    AfterMore(env, SignInEvents() + [e1] + [e2], e3);
    OpeningStep(After(env, SignInEvents() + [e1]), After(env, SignInEvents() + [e1] + [e2]));
    var f1, f2 := Do(2, Mail(DoAddEmail(AddInput(2, NEW_ADDRESS.address, true, true)))), Do(2, Mail(DoVerifyEmail(6)));
    AcceptStep();
    AddStep(Accepted());
    ConfirmStep(Accepted().(next := 7, accounts := Pending()));
    MoveStep(Accepted().(next := 7, accounts := Confirmed()));
    var es := Opening() + [CutOffAccept()];
    AfterMore(env, Opening(), CutOffAccept());
    AfterMore(env, es, f1);
    AfterMore(env, es + [f1], f2);
    AfterMore(env, es + [f1] + [f2], Do(1, Mail(DoDeleteEmail(2, ADDRESS.address))));
  }

  /**
    The only invite was accepted by ann, cut off after the grant; she moved to another address,
    and a newcomer took the old one and was admitted by the same invite.
   */
  lemma OneInviteAdmitsTwoUsers()
    ensures var es := Moving() + [NewcomerAccepts()]; var b := After(Plain(), es);
            IsRun(Plain(), States(Plain(), es), es) && b.entries.invites.Keys == {5} &&
            (2, BETA) in b.entries.accesses && (7, BETA) in b.entries.accesses &&
            !((2, BETA) in After(Plain(), Opening()).entries.accesses) && 7 in b.accounts.users
  {
    hide Next, After;
    MovingRun();
    NewcomerStep();
    AfterMore(Plain(), Moving(), NewcomerAccepts());
    AllAtNoon();
    StatesAreARun(Plain(), Moving() + [NewcomerAccepts()]);
  }

  lemma AllAtNoon()
    ensures forall i :: 0 <= i < |Moving()| ==> Moving()[i].at == NOON
  {
  }
}
