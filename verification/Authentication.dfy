/** The two logon decisions in the code, `Controller::operator()(Credentials)` and
    `Shared::session_logon_helper`: when they agree, and what they come to for the users that a
    configuration file describes. */
module Authentication {
  import opened Wrappers
  import opened Readiness
  import Configuration

  datatype Error = NoError | InvalidUsername | InvalidComponent | InvalidPassword

  /** What the controller answers: the error, and the strategy of the user if there is none. */
  datatype Verdict = Verdict(error: Error, strategyId: Configuration.Word)

  /** `Controller::operator()(Credentials)`. */
  function Authenticate(setup: Setup, c: Credentials): Verdict {
    if c.username !in setup.users then Verdict(InvalidUsername, 0)
    else
      var user := setup.users[c.username];
      if c.component != user.component then Verdict(Error.InvalidComponent, 0)
      else if !setup.validate(c.password, user.password, c.rawData) then Verdict(Error.InvalidPassword, 0)
      else Verdict(NoError, user.strategyId)
  }

  /** Each answer of the controller, and nothing else leads to it: the component is checked before the
      password, and a strategy is only named with an acceptance. */
  lemma AuthenticatedIff(setup: Setup, c: Credentials)
    ensures var r := Authenticate(setup, c);
      && (r.error == InvalidUsername <==> c.username !in setup.users)
      && (r.error != NoError ==> r.strategyId == 0)
      && (c.username in setup.users ==>
            var user := setup.users[c.username];
            var valid := setup.validate(c.password, user.password, c.rawData);
            && (r.error == Error.InvalidComponent <==> c.component != user.component)
            && (r.error == Error.InvalidPassword <==> c.component == user.component && !valid)
            && (r == Verdict(NoError, user.strategyId) <==> c.component == user.component && valid))
  {
  }

  /** The two decisions accept the same logons, or they differ. */
  ghost predicate Agree(setup: Setup, t: Table, c: Credentials) {
    Authenticate(setup, c).error == NoError <==> Decide(setup, t, c).reason == Accepted
  }

  /** Exactly when the two decisions agree on a configured user: one without an account must have the
      right credentials, and one with an account and the right credentials must not be held back by a
      source that is not ready. On an unknown username they always agree. */
  lemma AgreeIff(setup: Setup, sources: nat, events: seq<Event>, c: Credentials)
    requires InRange(events, sources)
    ensures Agree(setup, Run(sources, events), c) <==>
      (c.username in setup.users ==>
        var account := setup.users[c.username].account;
        if account == "" then RightCredentials(setup, c)
        else !RightCredentials(setup, c) || !setup.blockOnNotReady || ReadyEverywhere(sources, events, account))
  {
    if c.username in setup.users && setup.users[c.username].account != "" {
      NotReadyByHistory(sources, events, setup.users[c.username].account);
    }
  }

  // ---------- the users of a configuration file ----------

  /** The setup holds an index that looks up the users of the entries, as `StartUp` ensures. */
  ghost predicate Indexes(setup: Setup, entries: seq<Configuration.Fields>) {
    forall username ::
      Configuration.Lookup(setup.users, username) == Configuration.Search(Configuration.UsersOf(entries), username)
  }

  /** The entry describes a user with this name. */
  ghost predicate Names(entry: Configuration.Fields, username: string) {
    Configuration.TextOr(entry, "username") == username
  }

  lemma IndexedByName(setup: Setup, entries: seq<Configuration.Fields>, username: string)
    requires Indexes(setup, entries) && Configuration.DistinctEntryUsernames(entries)
    ensures forall i :: 0 <= i < |entries| && Names(entries[i], username) ==>
      username in setup.users && setup.users[username] == Configuration.UsersOf(entries)[i]
    ensures username in setup.users ==> exists i :: 0 <= i < |entries| && Names(entries[i], username)
  {
    var made := Configuration.UsersOf(entries);
    Configuration.SearchFinds(made, username);
    Configuration.NamesAndAccounts(entries);
    assert Configuration.Lookup(setup.users, username) == Configuration.Search(made, username);
    if username in setup.users {
      var k :| 0 <= k < |made| && made[k] == setup.users[username];
      assert Names(entries[k], username);
    }
  }

  lemma NoAccountsByStrategy(entries: seq<Configuration.Fields>, i: nat)
    requires i < |entries| && Configuration.AllTrue(Configuration.UserVerdicts(true, entries))
    ensures Configuration.UsersOf(entries)[i].account == ""
  {
    assert Configuration.UserVerdicts(true, entries)[i];
  }

  /** A configuration that is accepted and routes by strategy has no accounts, so
      `session_logon_helper` accepts exactly the usernames that the file names, as nobody, whatever
      the component, the password and the sources are. */
  lemma ByStrategyAnyoneIsAccepted(setup: Setup, t: Table, entries: seq<Configuration.Fields>, c: Credentials)
    requires Configuration.AllTrue(Configuration.UserVerdicts(true, entries))
    requires Configuration.DistinctEntryUsernames(entries) && Indexes(setup, entries)
    ensures Decide(setup, t, c) ==
      if exists i :: 0 <= i < |entries| && Names(entries[i], c.username) then Logon("", None, Accepted)
      else Logon("", None, UnknownUsername)
  {
    IndexedByName(setup, entries, c.username);
    if i :| 0 <= i < |entries| && Names(entries[i], c.username) {
      NoAccountsByStrategy(entries, i);
    }
  }

  /** The entry has the component of the logon, and a password that passes the check. */
  ghost predicate Admits(entry: Configuration.Fields, validate: (string, string, string) -> bool, c: Credentials) {
    && Names(entry, c.username) && Configuration.TextOr(entry, "component") == c.component
    && validate(c.password, Configuration.TextOr(entry, "password"), c.rawData)
  }

  /** The controller, in contrast, lets in exactly those whom some entry of the file admits, and
      answers with the strategy of that entry. */
  lemma AuthenticatedFromFile(setup: Setup, entries: seq<Configuration.Fields>, c: Credentials)
    requires Configuration.DistinctEntryUsernames(entries) && Indexes(setup, entries)
    ensures Authenticate(setup, c).error == NoError <==>
            exists i :: 0 <= i < |entries| && Admits(entries[i], setup.validate, c)
    ensures forall i :: 0 <= i < |entries| && Admits(entries[i], setup.validate, c) ==>
      Authenticate(setup, c) == Verdict(NoError, Configuration.NumberOr(entries[i], "strategy_id"))
  {
    IndexedByName(setup, entries, c.username);
    if Authenticate(setup, c).error == NoError {
      var i :| 0 <= i < |entries| && Names(entries[i], c.username);
      assert Admits(entries[i], setup.validate, c);
    }
  }

  /** From the tables of the file to both decisions, with the setup that the two constructors make of
      an accepted configuration. */
  method StartAndLogon(
      byStrategy: bool, keys: set<string>, users: Configuration.Section, broadcast: Configuration.Section,
      others: Configuration.Others, blockOnNotReady: bool, validate: (string, string, string) -> bool,
      sources: nat, c: Credentials)
      returns (r: Option<(Verdict, Logon)>)
    requires Configuration.TablesIn(users) !! Configuration.TablesIn(broadcast)
    modifies Configuration.TablesIn(users), Configuration.TablesIn(broadcast)
    ensures r.Some? <==> old(Configuration.Acceptable(byStrategy, keys, users, broadcast, others))
    ensures r.Some? ==>
      var entries := old(Configuration.FieldsOf(users));
      && (r.value.0.error == NoError <==> exists i :: 0 <= i < |entries| && Admits(entries[i], validate, c))
      && (byStrategy ==>
            (r.value.1.reason == Accepted <==> exists i :: 0 <= i < |entries| && Names(entries[i], c.username)))
  {
    ghost var entries := Configuration.FieldsOf(users);
    ghost var verdicts := Configuration.UserVerdicts(byStrategy, entries);
    var startup := Configuration.StartUp(byStrategy, keys, users, broadcast, others);
    if startup.None? {
      return None;
    }
    assert Configuration.AllTrue(verdicts);
    var setup := Setup(blockOnNotReady, startup.value.byShared, validate);
    var shared := new Sources(setup, sources);
    var logon := shared.SessionLogon(c);
    AuthenticatedFromFile(setup, entries, c);
    if byStrategy {
      ByStrategyAnyoneIsAccepted(setup, shared.omsStatus, entries, c);
    }
    return Some((Authenticate(setup.(users := startup.value.byController), c), logon));
  }
}
