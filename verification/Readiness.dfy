/** Order-management readiness per source and account, and the logon decision that rests on it. */
module Readiness {
  import opened Wrappers
  import Configuration

  type Source = nat
  datatype ConnectionStatus = Ready | NotReady

  datatype Event =
    | StreamStatus(source: Source, account: string, supportsOrder: bool, status: ConnectionStatus)
    | SourceDisconnected(source: Source)

  /** One map from account to status for each source. */
  type Table = seq<map<string, ConnectionStatus>>

  function Apply(t: Table, e: Event): Table
    requires e.source < |t|
  {
    match e
    case SourceDisconnected(source) => t[source := map[]]
    case StreamStatus(source, account, supportsOrder, status) =>
      if account == "" || !supportsOrder then t else t[source := t[source][account := status]]
  }

  /** Every event names one of the configured sources. */
  ghost predicate InRange(events: seq<Event>, sources: nat) {
    forall i :: 0 <= i < |events| ==> events[i].source < sources
  }

  ghost function Run(sources: nat, events: seq<Event>): (t: Table)
    requires InRange(events, sources)
    ensures |t| == sources
  {
    if events == [] then seq(sources, _ => map[])
    else Apply(Run(sources, events[..|events| - 1]), events[|events| - 1])
  }

  // ---------- the reference: look back through the history ----------

  /** The event reports the order status of the account at the source. */
  predicate Reports(e: Event, source: Source, account: string) {
    e.StreamStatus? && e.source == source && e.account == account && e.supportsOrder
  }

  /** The latest report for the account since the source was last disconnected is at `i`. */
  ghost predicate IsLatest(events: seq<Event>, i: nat, source: Source, account: string) {
    && i < |events| && Reports(events[i], source, account)
    && forall j :: i < j < |events| ==>
         !Reports(events[j], source, account) && events[j] != SourceDisconnected(source)
  }

  ghost predicate LatestIs(events: seq<Event>, source: Source, account: string, status: ConnectionStatus) {
    exists i: nat :: IsLatest(events, i, source, account) && events[i].status == status
  }

  lemma LatestStep(init: seq<Event>, last: Event, source: Source, account: string, status: ConnectionStatus)
    ensures LatestIs(init + [last], source, account, status) <==>
      if Reports(last, source, account) then last.status == status
      else last != SourceDisconnected(source) && LatestIs(init, source, account, status)
  {
    var events, n := init + [last], |init|;
    assert IsLatest(events, n, source, account) <==> Reports(last, source, account);
    if LatestIs(events, source, account, status) {
      var i: nat :| IsLatest(events, i, source, account) && events[i].status == status;
      if i < n {
        assert events[n] == last;
        forall j | i < j < n ensures !Reports(init[j], source, account) && init[j] != SourceDisconnected(source) {
          assert init[j] == events[j];
        }
        assert IsLatest(init, i, source, account);
      }
    }
    if !Reports(last, source, account) && last != SourceDisconnected(source) &&
       LatestIs(init, source, account, status) {
      var i: nat :| IsLatest(init, i, source, account) && init[i].status == status;
      assert IsLatest(events, i, source, account);
    }
  }

  /** The table holds a status for an account iff it is the latest one reported since the source
      was last disconnected. */
  lemma {:induction false} TableIsHistory(
      sources: nat, events: seq<Event>, source: Source, account: string, status: ConnectionStatus)
    requires InRange(events, sources) && source < sources && account != ""
    ensures var m := Run(sources, events)[source];
      (account in m && m[account] == status) <==> LatestIs(events, source, account, status)
  {
    if events != [] {
      var n := |events| - 1;
      TableIsHistory(sources, events[..n], source, account, status);
      LatestStep(events[..n], events[n], source, account, status);
      assert events == events[..n] + [events[n]];
    }
  }

  // ---------- logon ----------

  type User = Configuration.User

  datatype Credentials = Credentials(component: string, username: string, password: string, rawData: string)

  datatype Reason = Accepted | UnknownUsername | AccountNotReady | InvalidComponent | InvalidPassword

  datatype Logon = Logon(account: string, user: Option<User>, reason: Reason)

  /** What `session_logon` needs: the settings, the configured users and the password check. */
  datatype Setup = Setup(blockOnNotReady: bool, users: map<string, User>, validate: (string, string, string) -> bool)

  /** Some source has nothing, or something other than ready, for the account. */
  ghost predicate SomeSourceNotReady(t: Table, account: string) {
    exists s :: 0 <= s < |t| && !(account in t[s] && t[s][account] == Ready)
  }

  /** The decision, in the order of the checks. A user without an account is let in before any
      other check, and without being named. */
  ghost function Decide(setup: Setup, t: Table, c: Credentials): Logon {
    if c.username !in setup.users then Logon("", None, UnknownUsername)
    else
      var user := setup.users[c.username];
      if user.account == "" then Logon("", None, Accepted)
      else if setup.blockOnNotReady && SomeSourceNotReady(t, user.account) then Logon("", None, AccountNotReady)
      else if c.component != user.component then Logon("", None, InvalidComponent)
      else if !setup.validate(c.password, user.password, c.rawData) then Logon("", None, InvalidPassword)
      else Logon(user.account, Some(user), Accepted)
  }

  class Sources {
    const setup: Setup
    var omsStatus: Table

    constructor (setup: Setup, sources: nat)
      ensures this.setup == setup && omsStatus == Run(sources, [])
    {
      this.setup := setup;
      omsStatus := seq(sources, _ => map[]);
    }

    method OnDisconnected(source: Source)
      requires source < |omsStatus|
      modifies this
      ensures omsStatus == Apply(old(omsStatus), SourceDisconnected(source))
    {
      omsStatus := omsStatus[source := map[]];
    }

    method OnStreamStatus(source: Source, account: string, supportsOrder: bool, status: ConnectionStatus)
      requires source < |omsStatus|
      modifies this
      ensures omsStatus == Apply(old(omsStatus), StreamStatus(source, account, supportsOrder, status))
    {
      if account == "" {
        return;
      }
      if !supportsOrder {
        return;
      }
      omsStatus := omsStatus[source := omsStatus[source][account := status]];
    }

    /** `session_logon_helper`, with its loop over all sources. */
    method SessionLogon(c: Credentials) returns (r: Logon)
      ensures r == Decide(setup, omsStatus, c)
    {
      if c.username !in setup.users {
        return Logon("", None, UnknownUsername);
      }
      var user := setup.users[c.username];
      if user.account == "" {
        return Logon("", None, Accepted);
      }
      if setup.blockOnNotReady {
        var ready := true;
        for s := 0 to |omsStatus|
          invariant ready <==>
            forall i :: 0 <= i < s ==> user.account in omsStatus[i] && omsStatus[i][user.account] == Ready
        {
          if !(user.account in omsStatus[s] && omsStatus[s][user.account] == Ready) {
            ready := false;
          }
        }
        if !ready {
          return Logon("", None, AccountNotReady);
        }
      }
      if c.component != user.component {
        return Logon("", None, InvalidComponent);
      }
      if !setup.validate(c.password, user.password, c.rawData) {
        return Logon("", None, InvalidPassword);
      }
      return Logon(user.account, Some(user), Accepted);
    }
  }

  /** Every source's latest report for the account since its last disconnect says ready. */
  ghost predicate ReadyEverywhere(sources: nat, events: seq<Event>, account: string) {
    forall s :: 0 <= s < sources ==> LatestIs(events, s, account, Ready)
  }

  lemma NotReadyByHistory(sources: nat, events: seq<Event>, account: string)
    requires InRange(events, sources) && account != ""
    ensures SomeSourceNotReady(Run(sources, events), account) <==> !ReadyEverywhere(sources, events, account)
  {
    forall s | 0 <= s < sources
      ensures LatestIs(events, s, account, Ready) <==>
        (account in Run(sources, events)[s] && Run(sources, events)[s][account] == Ready)
    {
      TableIsHistory(sources, events, s, account, Ready);
    }
  }

  /** Readiness agrees with history: a logon is refused as not ready iff the check is switched on,
      the user is known and has an account, and for some source the latest report for that account
      since the source's last disconnect is missing or not ready. It is accepted under the name of
      the user iff none of that holds it back, and component and password are right. */
  lemma LogonByHistory(setup: Setup, sources: nat, events: seq<Event>, c: Credentials)
    requires InRange(events, sources)
    requires c.username in setup.users && setup.users[c.username].account != ""
    ensures var r, user := Decide(setup, Run(sources, events), c), setup.users[c.username];
      && (r.reason == AccountNotReady <==>
            setup.blockOnNotReady && !ReadyEverywhere(sources, events, user.account))
      && (r.reason == Accepted <==>
            && (setup.blockOnNotReady ==> ReadyEverywhere(sources, events, user.account))
            && c.component == user.component && setup.validate(c.password, user.password, c.rawData))
      && (r.reason == Accepted <==> r.user == Some(user))
      && (r.reason == Accepted <==> r.account == user.account)
  {
    NotReadyByHistory(sources, events, setup.users[c.username].account);
  }

  /** Component and password are right for the configured user. */
  predicate RightCredentials(setup: Setup, c: Credentials)
    requires c.username in setup.users
  {
    var user := setup.users[c.username];
    c.component == user.component && setup.validate(c.password, user.password, c.rawData)
  }

  /** What one expects of a logon that is accepted: readiness, if it is looked at, and component and
      password are right. */
  ghost predicate Checked(setup: Setup, t: Table, c: Credentials)
    requires c.username in setup.users
  {
    && (setup.blockOnNotReady ==> !SomeSourceNotReady(t, setup.users[c.username].account))
    && RightCredentials(setup, c)
  }

  /** The same, in terms of what the sources reported. */
  ghost predicate CheckedByHistory(setup: Setup, sources: nat, events: seq<Event>, c: Credentials)
    requires c.username in setup.users
  {
    && (setup.blockOnNotReady ==> ReadyEverywhere(sources, events, setup.users[c.username].account))
    && RightCredentials(setup, c)
  }

  /** Exactly who is accepted: a configured user that has no account or is checked; and exactly when
      being accepted means being checked: the user has an account, or would have passed anyway. A user
      without an account is accepted as nobody. */
  lemma AcceptedIff(setup: Setup, t: Table, c: Credentials)
    ensures var r := Decide(setup, t, c);
      && (r.reason == UnknownUsername <==> c.username !in setup.users)
      && (c.username in setup.users ==>
            var account := setup.users[c.username].account;
            && (r.reason == Accepted <==> account == "" || Checked(setup, t, c))
            && ((r.reason == Accepted ==> Checked(setup, t, c)) <==> account != "" || Checked(setup, t, c))
            && (r.reason == Accepted && account == "" ==> r == Logon("", None, Accepted)))
  {
  }

  /** The same over the history of the sources. */
  lemma AcceptedByHistoryIff(setup: Setup, sources: nat, events: seq<Event>, c: Credentials)
    requires InRange(events, sources) && c.username in setup.users
    ensures var r, account := Decide(setup, Run(sources, events), c), setup.users[c.username].account;
      && (r.reason == Accepted <==> account == "" || CheckedByHistory(setup, sources, events, c))
      && ((r.reason == Accepted ==> CheckedByHistory(setup, sources, events, c)) <==>
          account != "" || CheckedByHistory(setup, sources, events, c))
  {
    if setup.users[c.username].account != "" {
      NotReadyByHistory(sources, events, setup.users[c.username].account);
    }
  }

  /** Each answer for the users that have an account, and nothing else leads to it: the checks are made
      in the order readiness, component, password. */
  lemma RefusedIff(setup: Setup, sources: nat, events: seq<Event>, c: Credentials)
    requires InRange(events, sources)
    ensures var reason := Decide(setup, Run(sources, events), c).reason;
      if c.username !in setup.users || setup.users[c.username].account == "" then
        reason == if c.username in setup.users then Accepted else UnknownUsername
      else
        var user := setup.users[c.username];
        var heldBack := setup.blockOnNotReady && !ReadyEverywhere(sources, events, user.account);
        var valid := setup.validate(c.password, user.password, c.rawData);
        && (reason == AccountNotReady <==> heldBack)
        && (reason == InvalidComponent <==> !heldBack && c.component != user.component)
        && (reason == InvalidPassword <==> !heldBack && c.component == user.component && !valid)
        && (reason == Accepted <==> !heldBack && c.component == user.component && valid)
  {
    if c.username in setup.users && setup.users[c.username].account != "" {
      NotReadyByHistory(sources, events, setup.users[c.username].account);
    }
  }

  /** Nothing is ever recorded for an empty account. */
  lemma {:induction false} EmptyAccountIsNeverRecorded(sources: nat, events: seq<Event>)
    requires InRange(events, sources)
    ensures forall s :: 0 <= s < sources ==> "" !in Run(sources, events)[s]
  {
    if events != [] {
      EmptyAccountIsNeverRecorded(sources, events[..|events| - 1]);
    }
  }

  /** An input at which an unchecked logon is accepted: readiness is looked at and the only source has
      reported nothing, and component and password are wrong. */
  lemma UncheckedLogon()
    ensures var user := Configuration.User(1, "component", "name", "password", 0, "", [], []);
      var setup := Setup(true, map["name" := user], (given, expected, _) => given == expected);
      var c := Credentials("other", "name", "wrong", "");
      && SomeSourceNotReady(Run(1, []), "") && !RightCredentials(setup, c)
      && Decide(setup, Run(1, []), c) == Logon("", None, Accepted)
  {
    assert Run(1, [])[0] == map[];
  }
}
