/** Runs of the machine given by their events, and one that signs a user up and in. */
module SampleRuns {
  import opened Domain
  import opened Tables
  import opened UseCases
  import opened Machine

  /** The state after the events. */
  ghost function After(env: Env, es: seq<Event>): Db
    decreases |es|
  {
    if es == [] then Empty() else Next(env, After(env, es[..|es| - 1]), es[|es| - 1]).0
  }

  ghost function States(env: Env, es: seq<Event>): seq<Db> {
    seq(|es| + 1, i requires 0 <= i <= |es| => After(env, es[..i]))
  }

  lemma StatesAreARun(env: Env, es: seq<Event>)
    requires forall i :: 0 <= i < |es| ==> es[i].at.Ordered()
    requires forall i, j :: 0 <= i < j < |es| ==> es[i].at.third <= es[j].at.first
    ensures IsRun(env, States(env, es), es) && States(env, es)[|es|] == After(env, es)
  {
    hide Next;
    var ss := States(env, es);
    assert es[..|es|] == es;
    forall i | 0 <= i < |es| ensures ss[i + 1] == Next(env, ss[i], es[i]).0 {
      assert es[..i + 1][..i] == es[..i];
    }
  }

  lemma AfterMore(env: Env, es: seq<Event>, e: Event)
    ensures After(env, es + [e]) == Next(env, After(env, es), e).0
  {
    hide Next;
    assert (es + [e])[..|es|] == es;
  }

  // ---- ann signs up to an application, verifies her address and signs in ----

  const APP := ClientId("app")
  const ADDRESS := Email("ann@example.org")
  const FIRST_PASSWORD := "first password"
  const SECOND_PASSWORD := "second password"
  const BROKEN := "http://["
  const NOON := Clock(0, 0, 0)
  const ADMIN := Actor(0, true)

  /** The hash of a password is the password itself. */
  function Plain(): Env {
    Env(true, HOUR, (raw: string) => Some(Email(raw)), (hash: string, password: string) => hash == password,
        (verifier: string) => verifier,
        (raw: string) => if raw == BROKEN then None else Some(Url("https", "app", "", "", "")), (raw: string) => "")
  }

  function Seeded(): Db { Empty().(clients := map[APP := Client("secret", ["https://app"], Public, ClientSecretPost)]) }

  function Ticketed(): Db {
    Seeded().(next := 2, entries := Seeded().entries.(tickets := map[1 := Ticket(APP, REGISTRATION_TICKET_TTL, None)]))
  }

  function SignedUp(): Db {
    Ticketed().(next := 4,
                accounts := Accounts(map[2 := User(ADDRESS, FIRST_PASSWORD, RoleUser, Pending, None)],
                                     map[ADDRESS := EmailRow(2, Primary, None)],
                                     map[3 := VerifyToken(2, None, EMAIL_VERIFY_TTL, None)], map[3 := ADDRESS]),
                entries := Ticketed().entries.(tickets := map[1 := Ticket(APP, REGISTRATION_TICKET_TTL, Some(0))],
                                               accesses := map[(2, APP) := Access("", 0, 0)]))
  }

  function Verified(): Db {
    SignedUp().(accounts := Accounts(map[2 := User(ADDRESS, FIRST_PASSWORD, RoleUser, Active, Some(0))],
                                     map[ADDRESS := EmailRow(2, Primary, Some(0))],
                                     map[3 := VerifyToken(2, None, EMAIL_VERIFY_TTL, Some(0))], map[3 := ADDRESS]))
  }

  function LoggedIn(): Db {
    Verified().(next := 5, sessions := Sessions(map[4 := Session(2, HOUR, None)], map[4 := FIRST_PASSWORD]))
  }

  function Do(cut: nat, act: Action): Event { Event(NOON, cut, act) }

  function SignUpEvents(): seq<Event> {
    [] + [Do(1, Clients(DoSeedClient(APP, "https://app", "secret")))]
    + [Do(1, Entry(DoIssueTicket(APP, "secret")))]
    + [Do(4, Entry(DoRegister(RegisterInput(ADDRESS.address, FIRST_PASSWORD, FIRST_PASSWORD, true, 1, true))))]
  }

  function VerifyEvents(): seq<Event> { SignUpEvents() + [Do(2, Mail(DoVerifyEmail(3)))] }

  function SignInEvents(): seq<Event> {
    VerifyEvents() + [Do(1, Credential(DoLogin(ADDRESS.address, FIRST_PASSWORD, true)))]
  }

  lemma SeedStep()
    ensures Next(Plain(), Empty(), Do(1, Clients(DoSeedClient(APP, "https://app", "secret")))).0 == Seeded()
    ensures Next(Plain(), Seeded(), Do(1, Entry(DoIssueTicket(APP, "secret")))).0 == Ticketed()
  {
  }

  lemma RegisterStep()
    ensures Next(Plain(), Ticketed(),
                 Do(4, Entry(DoRegister(RegisterInput(ADDRESS.address, FIRST_PASSWORD, FIRST_PASSWORD,
                                                      true, 1, true))))).0
            == SignedUp()
  {
  }

  lemma VerifyStep()
    ensures Next(Plain(), SignedUp(), Do(2, Mail(DoVerifyEmail(3)))).0 == Verified()
  {
  }

  lemma LoginStep()
    ensures Next(Plain(), Verified(), Do(1, Credential(DoLogin(ADDRESS.address, FIRST_PASSWORD, true)))).0 == LoggedIn()
  {
  }

  lemma SignInRun()
    ensures After(Plain(), SignUpEvents()) == SignedUp()
    ensures After(Plain(), VerifyEvents()) == Verified()
    ensures After(Plain(), SignInEvents()) == LoggedIn()
  {
    hide Next, After;
    SeedStep();
    RegisterStep();
    VerifyStep();
    LoginStep();
    var env := Plain();
    var es := [];
    assert After(env, es) == Empty() by { AfterNothing(env); }
    AfterMore(env, es, Do(1, Clients(DoSeedClient(APP, "https://app", "secret"))));
    es := es + [Do(1, Clients(DoSeedClient(APP, "https://app", "secret")))];
    AfterMore(env, es, Do(1, Entry(DoIssueTicket(APP, "secret"))));
    es := es + [Do(1, Entry(DoIssueTicket(APP, "secret")))];
    AfterMore(env, es,
              Do(4, Entry(DoRegister(RegisterInput(ADDRESS.address, FIRST_PASSWORD, FIRST_PASSWORD, true, 1, true)))));
    AfterMore(env, SignUpEvents(), Do(2, Mail(DoVerifyEmail(3))));
    AfterMore(env, VerifyEvents(), Do(1, Credential(DoLogin(ADDRESS.address, FIRST_PASSWORD, true))));
  }

  lemma AfterNothing(env: Env)
    ensures After(env, []) == Empty()
  {
  }
}
