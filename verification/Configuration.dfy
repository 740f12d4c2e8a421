/** The configuration file: strict parsing of its tables, and the index of users by name.

    A parser removes every key it consumes from its table, and a table that is not empty at the end
    is an error. Thrown exceptions and `log::fatal` both end the construction: the result is `None`. */
module Configuration {
  import opened Wrappers

  const U16 := 0x1_0000
  const U32 := 0x1_0000_0000

  type Word = n: nat | n < U32

  /** A value in a table: text, an integer, an array, another scalar with the 32-bit number that the
      TOML library converts it to, if it does, or a table. */
  datatype Value =
    | Text(text: string) | Integer(value: int) | Scalar(converted: Option<Word>) | Array(items: seq<Value>) | Nested

  type Fields = map<string, Value>

  datatype User = User(
    userId: nat, component: string, username: string, password: string, strategyId: Word,
    account: string, accountsRegex: seq<string>, symbolsRegex: seq<string>)

  const IDENTITY_KEYS := {"component", "username", "password", "strategy_id"}

  // ---------- what an acceptable entry is, declared ----------

  ghost predicate TextAt(f: Fields, key: string) { key in f && f[key].Text? }

  ghost predicate TextIfAt(f: Fields, key: string) { key in f ==> f[key].Text? }

  ghost predicate AllText(items: seq<Value>) { forall i :: 0 <= i < |items| ==> items[i].Text? }

  ghost predicate Patterns(v: Value) { v.Text? || (v.Array? && AllText(v.items)) }

  ghost predicate IdentityAccepted(f: Fields) {
    && TextAt(f, "component") && TextAt(f, "username") && TextIfAt(f, "password")
    && ("strategy_id" in f ==> NumberIn(f["strategy_id"]).Some?)
  }

  /** The value as an unsigned 32-bit number. */
  function NumberIn(v: Value): Option<Word> {
    match v
    case Integer(value) => if 0 <= value < U32 then Some(value) else None
    case Scalar(converted) => converted
    case _ => None
  }

  /** An entry of the users table that is accepted: no unknown key, every known key well typed, a
      username, and nothing the routing mode forbids. */
  ghost predicate UserAccepted(byStrategy: bool, f: Fields) {
    && f.Keys <= IDENTITY_KEYS + {"account", "accounts", "symbols"}
    && IdentityAccepted(f) && f["username"].text != ""
    && TextIfAt(f, "account")
    && (byStrategy && "account" in f ==> f["account"].text == "")
    && ("accounts" in f ==> Patterns(f["accounts"]) || (!byStrategy && !f["accounts"].Array?))
    && ("symbols" in f ==> byStrategy && Patterns(f["symbols"]))
  }

  datatype Broadcast = Broadcast(exchange: string, sourceRegex: string, targetsRegex: seq<string>)

  /** An entry of the broadcast table that is accepted: exactly its three keys, none of them empty. */
  ghost predicate BroadcastAccepted(f: Fields) {
    && f.Keys == {"exchange", "source_regex", "targets_regex"}
    && f["exchange"].Text? && f["exchange"].text != ""
    && f["source_regex"].Text? && f["source_regex"].text != ""
    && Patterns(f["targets_regex"]) && f["targets_regex"] != Array([])
  }

  // ---------- what an accepted entry says, declared ----------

  ghost predicate SaysText(f: Fields, key: string, text: string) {
    if key in f then f[key] == Text(text) else text == ""
  }

  ghost predicate SaysNumber(f: Fields, key: string, number: Word) {
    if key in f then f[key] == Integer(number) || f[key] == Scalar(Some(number)) else number == 0
  }

  /** One pattern for a text, one for each text of an array in its order, none for anything else. */
  ghost predicate SaysPatterns(f: Fields, key: string, patterns: seq<string>) {
    if key !in f then patterns == []
    else match f[key]
      case Text(text) => patterns == [text]
      case Array(items) =>
        |patterns| == |items| && forall i :: 0 <= i < |items| ==> items[i] == Text(patterns[i])
      case _ => patterns == []
  }

  ghost predicate SaysUser(f: Fields, user: User) {
    && {"component", "username"} <= f.Keys
    && SaysText(f, "component", user.component) && SaysText(f, "username", user.username)
    && SaysText(f, "password", user.password) && SaysText(f, "account", user.account)
    && SaysNumber(f, "strategy_id", user.strategyId)
    && SaysPatterns(f, "accounts", user.accountsRegex) && SaysPatterns(f, "symbols", user.symbolsRegex)
  }

  ghost predicate SaysBroadcast(f: Fields, broadcast: Broadcast) {
    && f.Keys == {"exchange", "source_regex", "targets_regex"}
    && SaysText(f, "exchange", broadcast.exchange) && SaysText(f, "source_regex", broadcast.sourceRegex)
    && SaysPatterns(f, "targets_regex", broadcast.targetsRegex)
  }

  lemma {:induction false} TextsAreRead(items: seq<Value>)
    requires AllText(items)
    ensures |TextsOf(items)| == |items| && forall i :: 0 <= i < |items| ==> items[i] == Text(TextsOf(items)[i])
  {
    if items != [] {
      TextsAreRead(items[..|items| - 1]);
    }
  }

  lemma PatternsAreRead(f: Fields, key: string)
    requires key in f && f[key].Array? ==> AllText(f[key].items)
    ensures SaysPatterns(f, key, PatternsOr(f, key))
  {
    if key in f && f[key].Array? {
      TextsAreRead(f[key].items);
    }
  }

  /** The user that is read off an accepted entry is the one that the entry describes. */
  lemma UserIsRead(byStrategy: bool, f: Fields, userId: nat)
    requires UserAccepted(byStrategy, f)
    ensures SaysUser(f, UserOf(f, userId)) && UserOf(f, userId).userId == userId
  {
    PatternsAreRead(f, "accounts");
    PatternsAreRead(f, "symbols");
  }

  lemma BroadcastIsRead(f: Fields)
    requires BroadcastAccepted(f)
    ensures SaysBroadcast(f, BroadcastOf(f))
  {
    PatternsAreRead(f, "targets_regex");
  }

  // ---------- the table, consumed in place ----------

  class Table {
    var entries: Fields

    constructor (entries: Fields)
      ensures this.entries == entries
    {
      this.entries := entries;
    }

    method GetTextAndRemove(key: string) returns (r: Option<string>)
      modifies this
      ensures r.Some? <==> TextAt(old(entries), key)
      ensures r.Some? ==> r.value == old(entries)[key].text && entries == old(entries) - {key}
    {
      if key !in entries || !entries[key].Text? {
        return None;
      }
      var text := entries[key].text;
      entries := entries - {key};
      return Some(text);
    }

    method MaybeGetTextAndRemove(key: string) returns (r: Option<string>)
      modifies this
      ensures r.Some? <==> TextIfAt(old(entries), key)
      ensures r.Some? ==> entries == old(entries) - {key} && r.value == TextOr(old(entries), key)
    {
      if key !in entries {
        assert entries == entries - {key};
        return Some("");
      }
      r := GetTextAndRemove(key);
    }

    method MaybeGetNumberAndRemove(key: string) returns (r: Option<Word>)
      modifies this
      ensures r.Some? <==> (key in old(entries) ==> NumberIn(old(entries)[key]).Some?)
      ensures r.Some? ==> entries == old(entries) - {key} && r.value == NumberOr(old(entries), key)
    {
      if key !in entries {
        assert entries == entries - {key};
        return Some(0);
      }
      var number := NumberIn(entries[key]);
      if number.None? {
        return None;
      }
      entries := entries - {key};
      return Some(number.value);
    }

    /** `lenient` lets a value that is neither text nor an array pass as no pattern at all. */
    method FindPatternsAndRemove(key: string, lenient: bool) returns (r: Option<seq<string>>)
      modifies this
      ensures r.Some? <==> (key in old(entries) ==>
                Patterns(old(entries)[key]) || (lenient && !old(entries)[key].Array?))
      ensures r.Some? ==> entries == old(entries) - {key} && r.value == PatternsOr(old(entries), key)
    {
      if key !in entries {
        assert entries == entries - {key};
        return Some([]);
      }
      var value := entries[key];
      var result: seq<string> := [];
      if value.Text? {
        result := [value.text];
      } else if value.Array? {
        for i := 0 to |value.items|
          invariant AllText(value.items[..i]) && result == TextsOf(value.items[..i])
          invariant entries == old(entries)
        {
          if !value.items[i].Text? {
            return None;
          }
          assert value.items[..i + 1][..i] == value.items[..i];
          result := result + [value.items[i].text];
        }
        assert value.items[..|value.items|] == value.items;
      } else if !lenient {
        return None;
      }
      entries := entries - {key};
      return Some(result);
    }

    /** The first four fields of a users entry, in the order they are read. */
    method ParseIdentity(userId: nat) returns (r: Option<User>)
      modifies this
      ensures r.Some? <==> IdentityAccepted(old(entries))
      ensures r.Some? ==> r.value == IdentityOf(old(entries), userId)
      ensures r.Some? ==> entries == old(entries) - IDENTITY_KEYS
    {
      var component := GetTextAndRemove("component");
      if component.None? { return None; }
      var username := GetTextAndRemove("username");
      if username.None? { return None; }
      var password := MaybeGetTextAndRemove("password");
      if password.None? { return None; }
      var strategyId := MaybeGetNumberAndRemove("strategy_id");
      if strategyId.None? { return None; }
      return Some(User(userId, component.value, username.value, password.value, strategyId.value, "", [], []));
    }

    /** One entry of the users table, with the check that nothing is left over. */
    method ParseUser(byStrategy: bool, userId: nat) returns (r: Option<User>)
      modifies this
      ensures r.Some? <==> UserAccepted(byStrategy, old(entries))
      ensures r.Some? ==> r.value == UserOf(old(entries), userId)
      ensures r.Some? ==> SaysUser(old(entries), r.value) && r.value.userId == userId
    {
      ghost var f := entries;
      var identity := ParseIdentity(userId);
      if identity.None? { return None; }
      var account := MaybeGetTextAndRemove("account");
      if account.None? { return None; }
      var accounts := FindPatternsAndRemove("accounts", !byStrategy);
      if accounts.None? { return None; }
      if "symbols" in entries && !byStrategy {
        return None;
      }
      var symbols := FindPatternsAndRemove("symbols", !byStrategy);
      if symbols.None? { return None; }
      if identity.value.username == "" || (byStrategy && account.value != "") {
        return None;
      }
      if entries.Keys != {} {
        return None;
      }
      UserIsRead(byStrategy, f, userId);
      return Some(identity.value.(
        account := account.value, accountsRegex := accounts.value, symbolsRegex := symbols.value));
    }

    /** One entry of the broadcast table, with the check that nothing is left over. */
    method ParseBroadcast() returns (r: Option<Broadcast>)
      modifies this
      ensures r.Some? <==> BroadcastAccepted(old(entries))
      ensures r.Some? ==> r.value == BroadcastOf(old(entries))
      ensures r.Some? ==> SaysBroadcast(old(entries), r.value)
    {
      ghost var f := entries;
      var exchange := GetTextAndRemove("exchange");
      if exchange.None? { return None; }
      var sourceRegex := GetTextAndRemove("source_regex");
      if sourceRegex.None? { return None; }
      var targetsRegex := FindPatternsAndRemove("targets_regex", false);
      if targetsRegex.None? { return None; }
      if exchange.value == "" || sourceRegex.value == "" || targetsRegex.value == [] {
        return None;
      }
      if entries.Keys != {} {
        return None;
      }
      BroadcastIsRead(f);
      return Some(Broadcast(exchange.value, sourceRegex.value, targetsRegex.value));
    }
  }

  // ---------- the values that are read ----------

  function TextOr(f: Fields, key: string): string {
    if key in f && f[key].Text? then f[key].text else ""
  }

  function NumberOr(f: Fields, key: string): Word {
    if key in f && NumberIn(f[key]).Some? then NumberIn(f[key]).value else 0
  }

  function TextsOf(items: seq<Value>): seq<string> {
    if items == [] then []
    else
      var last := items[|items| - 1];
      TextsOf(items[..|items| - 1]) + [if last.Text? then last.text else ""]
  }

  function PatternsOr(f: Fields, key: string): seq<string> {
    if key !in f then []
    else match f[key]
      case Text(text) => [text]
      case Array(items) => TextsOf(items)
      case _ => []
  }

  function IdentityOf(f: Fields, userId: nat): User {
    User(userId, TextOr(f, "component"), TextOr(f, "username"), TextOr(f, "password"), NumberOr(f, "strategy_id"),
         "", [], [])
  }

  function UserOf(f: Fields, userId: nat): User {
    IdentityOf(f, userId).(
      account := TextOr(f, "account"),
      accountsRegex := PatternsOr(f, "accounts"),
      symbolsRegex := PatternsOr(f, "symbols"))
  }

  function BroadcastOf(f: Fields): Broadcast {
    Broadcast(TextOr(f, "exchange"), TextOr(f, "source_regex"), PatternsOr(f, "targets_regex"))
  }

  // ---------- the tables of entries ----------

  /** A table of named tables: the names are distinct, and so are the tables. */
  type Section = s: seq<(string, Table)> |
    forall i, j :: 0 <= i < j < |s| ==> s[i].0 != s[j].0 && s[i].1 != s[j].1

  ghost function TablesIn(s: Section): set<Table> {
    set i | 0 <= i < |s| :: s[i].1
  }

  ghost predicate AllUsersAccepted(byStrategy: bool, s: Section)
    reads TablesIn(s)
  {
    AllTrue(UserVerdicts(byStrategy, FieldsOf(s)))
  }

  ghost function UserVerdicts(byStrategy: bool, fields: seq<Fields>): seq<bool> {
    seq(|fields|, i requires 0 <= i < |fields| => UserAccepted(byStrategy, fields[i]))
  }

  predicate AllTrue(verdicts: seq<bool>) {
    forall i :: 0 <= i < |verdicts| ==> verdicts[i]
  }

  /** `m` holds the values under their names, and nothing else. */
  ghost predicate Holds<T>(m: map<string, T>, names: seq<string>, values: seq<T>)
    requires |names| == |values|
  {
    && (forall i :: 0 <= i < |names| ==> names[i] in m && m[names[i]] == values[i])
    && (forall k :: k in m ==> k in names)
  }

  lemma HoldsStep<T>(m: map<string, T>, names: seq<string>, values: seq<T>, name: string, value: T)
    requires |names| == |values| && Holds(m, names, values) && name !in names
    ensures Holds(m[name := value], names + [name], values + [value])
    ensures |m[name := value]| == |m| + 1
  {
  }

  lemma TakeStep<T>(s: seq<T>, i: nat)
    requires i < |s|
    ensures s[..i + 1] == s[..i] + [s[i]]
  {
  }

  lemma TakeAll<T>(s: seq<T>)
    ensures s[..|s|] == s
  {
  }

  lemma AllTrueStep(verdicts: seq<bool>, i: nat)
    requires i < |verdicts| && AllTrue(verdicts[..i]) && verdicts[i]
    ensures AllTrue(verdicts[..i + 1])
  {
  }

  lemma AllTrueStops(verdicts: seq<bool>, i: nat)
    requires i < |verdicts|
    ensures !verdicts[i] ==> !AllTrue(verdicts)
  {
  }

  /** The users that the entries describe, with 16-bit ids in their order. */
  ghost function UsersOf(fields: seq<Fields>): seq<User> {
    seq(|fields|, i requires 0 <= i < |fields| => UserOf(fields[i], (i + 1) % U16))
  }

  ghost function BroadcastsOf(fields: seq<Fields>): seq<Broadcast> {
    seq(|fields|, i requires 0 <= i < |fields| => BroadcastOf(fields[i]))
  }

  ghost function NamesOf(s: Section): seq<string> {
    seq(|s|, i requires 0 <= i < |s| => s[i].0)
  }

  ghost function FieldsOf(s: Section): seq<Fields>
    reads TablesIn(s)
  {
    seq(|s|, i requires 0 <= i < |s| reads TablesIn(s) => s[i].1.entries)
  }

  method ParseUserAt(byStrategy: bool, s: Section, i: nat, ghost fields: seq<Fields>) returns (r: Option<User>)
    requires i < |s| == |fields| && s[i].1.entries == fields[i]
    modifies s[i].1
    ensures r.Some? <==> UserVerdicts(byStrategy, fields)[i]
    ensures r.Some? ==> r.value == UsersOf(fields)[i]
  {
    r := s[i].1.ParseUser(byStrategy, (i + 1) % U16);
  }

  /** `parse_users`: the size of the result so far numbers the users. */
  method ParseUsers(byStrategy: bool, s: Section) returns (r: Option<map<string, User>>)
    modifies TablesIn(s)
    ensures r.Some? <==> old(AllUsersAccepted(byStrategy, s))
    ensures r.Some? ==> Holds(r.value, NamesOf(s), UsersOf(old(FieldsOf(s))))
  {
    var result: map<string, User> := map[];
    ghost var fields := FieldsOf(s);
    ghost var verdicts, names, made := UserVerdicts(byStrategy, fields), NamesOf(s), UsersOf(fields);
    for i := 0 to |s|
      invariant forall j :: i <= j < |s| ==> s[j].1.entries == fields[j]
      invariant AllTrue(verdicts[..i])
      invariant |result| == i && Holds(result, names[..i], made[..i])
    {
      var user := ParseUserAt(byStrategy, s, |result|, fields);
      AllTrueStops(verdicts, i);
      if user.None? {
        return None;
      }
      HoldsStep(result, names[..i], made[..i], names[i], made[i]);
      TakeStep(names, i);
      TakeStep(made, i);
      AllTrueStep(verdicts, i);
      result := result[s[i].0 := user.value];
    }
    TakeAll(names);
    TakeAll(made);
    TakeAll(verdicts);
    return Some(result);
  }

  // ---------- uniqueness, and the index by username ----------

  ghost predicate DistinctUsernames(users: map<string, User>) {
    forall k, l :: k in users && l in users && k != l ==> users[k].username != users[l].username
  }

  ghost predicate DistinctAccounts(users: map<string, User>) {
    forall k, l :: k in users && l in users && k != l && users[k].account != "" ==> users[k].account != users[l].account
  }

  /** `index` finds exactly the users of the table, each under its username. */
  ghost predicate IsIndex(users: map<string, User>, index: map<string, User>) {
    && (forall k :: k in users ==> users[k].username in index && index[users[k].username] == users[k])
    && (forall n :: n in index ==> exists k :: k in users && users[k].username == n)
  }

  function Only(users: map<string, User>, keys: set<string>): map<string, User> {
    map k | k in users && k in keys :: users[k]
  }

  /** The accounts that some user has. */
  ghost predicate IsAccounts(users: map<string, User>, accounts: set<string>) {
    forall a :: a in accounts <==> a != "" && exists k :: k in users && users[k].account == a
  }

  lemma UsernameStep(done: map<string, User>, index: map<string, User>, key: string, user: User)
    requires key !in done && DistinctUsernames(done) && IsIndex(done, index)
    ensures DistinctUsernames(done[key := user]) <==> user.username !in index
    ensures user.username !in index ==> IsIndex(done[key := user], index[user.username := user])
  {
    var more := done[key := user];
    if user.username in index {
      var k :| k in done && done[k].username == user.username;
      assert more[k].username == more[key].username && k != key;
    } else {
      assert key in more && more[key].username == user.username;
      forall n | n in index ensures exists k :: k in more && more[k].username == n {
        var k :| k in done && done[k].username == n;
        assert k in more && more[k].username == n;
      }
    }
  }

  lemma AccountStep(done: map<string, User>, accounts: set<string>, key: string, user: User)
    requires key !in done && DistinctAccounts(done) && IsAccounts(done, accounts)
    ensures DistinctAccounts(done[key := user]) <==> user.account == "" || user.account !in accounts
    ensures IsAccounts(done[key := user], if user.account == "" then accounts else accounts + {user.account})
  {
    var more := done[key := user];
    if user.account != "" && user.account in accounts {
      var k :| k in done && done[k].account == user.account;
      assert more[k].account == more[key].account && k != key;
    }
    forall a | a != "" && (a in accounts || a == user.account) ensures exists k :: k in more && more[k].account == a {
      if a == user.account {
        assert key in more && more[key].account == a;
      } else {
        var k :| k in done && done[k].account == a;
        assert k in more && more[k].account == a;
      }
    }
  }

  lemma DistinctOfMore(users: map<string, User>, done: map<string, User>)
    requires forall k :: k in done ==> k in users && users[k] == done[k]
    ensures DistinctUsernames(users) ==> DistinctUsernames(done)
    ensures DistinctAccounts(users) ==> DistinctAccounts(done)
  {
  }

  /** `create_username_to_user` and `extract_username_to_user`: one pass over the users in the
      unspecified order of the container, which stops the process on a duplicate. */
  method IndexUsernames(byStrategy: bool, users: map<string, User>) returns (r: Option<map<string, User>>)
    ensures r.Some? <==> DistinctUsernames(users) && (byStrategy || DistinctAccounts(users))
    ensures r.Some? ==> IsIndex(users, r.value)
  {
    var result: map<string, User> := map[];
    var accountToUsername: map<string, string> := map[];
    var rest := users.Keys;
    ghost var done: map<string, User> := map[];
    while rest != {}
      invariant rest <= users.Keys && done == Only(users, users.Keys - rest)
      invariant DistinctUsernames(done) && IsIndex(done, result)
      invariant !byStrategy ==> DistinctAccounts(done) && IsAccounts(done, accountToUsername.Keys)
      decreases rest
    {
      var key :| key in rest;
      var user := users[key];
      OnlyStep(users, rest, key);
      UsernameStep(done, result, key, user);
      DistinctOfMore(users, done[key := user]);
      if user.username in result {
        return None;
      }
      result := result[user.username := user];
      if !byStrategy {
        AccountStep(done, accountToUsername.Keys, key, user);
        if user.account != "" {
          if user.account in accountToUsername {
            return None;
          }
          accountToUsername := accountToUsername[user.account := user.username];
        }
      }
      rest, done := rest - {key}, done[key := user];
    }
    assert done == users;
    return Some(result);
  }

  lemma OnlyStep(users: map<string, User>, rest: set<string>, key: string)
    requires rest <= users.Keys && key in rest
    ensures var done := Only(users, users.Keys - rest);
      && key !in done
      && Only(users, users.Keys - (rest - {key})) == done[key := users[key]]
      && forall k :: k in done[key := users[key]] ==> k in users && users[k] == done[key := users[key]][k]
  {
  }

  /** The order of the pass does not matter: both builders end with the same index. */
  lemma IndexIsUnique(users: map<string, User>, a: map<string, User>, b: map<string, User>)
    requires IsIndex(users, a) && IsIndex(users, b)
    ensures a == b
  {
  }

  /** Looking a username up agrees with a linear search of the users table. */
  lemma LookupIsSearch(users: map<string, User>, index: map<string, User>, username: string)
    requires IsIndex(users, index)
    ensures username in index <==> exists k :: k in users && users[k].username == username
    ensures forall k :: k in users && users[k].username == username ==> index[username] == users[k]
  {
  }

  /** The linear search that the index replaces. */
  function Search(users: seq<User>, username: string): Option<User> {
    if users == [] then None
    else if users[0].username == username then Some(users[0])
    else Search(users[1..], username)
  }

  function Lookup(index: map<string, User>, username: string): Option<User> {
    if username in index then Some(index[username]) else None
  }

  lemma {:induction false} SearchFinds(users: seq<User>, username: string)
    ensures match Search(users, username)
      case Some(user) => user in users && user.username == username
      case None => forall i :: 0 <= i < |users| ==> users[i].username != username
  {
    if users != [] && users[0].username != username {
      SearchFinds(users[1..], username);
      if Search(users[1..], username).None? {
        forall i | 0 < i < |users| ensures users[i].username != username {
          assert users[i] == users[1..][i - 1];
        }
      }
    }
  }

  /** The index of a table agrees with the linear search of its users, in the order of the file. */
  lemma LookupIsLinear(
      users: map<string, User>, names: seq<string>, made: seq<User>, index: map<string, User>, username: string)
    requires |names| == |made| && Holds(users, names, made) && IsIndex(users, index)
    ensures Lookup(index, username) == Search(made, username)
  {
    SearchFinds(made, username);
    if username in index {
      var k :| k in users && users[k].username == username;
      var i :| 0 <= i < |names| && names[i] == k;
      assert made[i] == users[k];
    }
    if Search(made, username).Some? {
      var i :| 0 <= i < |made| && made[i] == Search(made, username).value;
      assert users[names[i]] == made[i];
    }
  }

  // ---------- the configuration as a whole ----------

  datatype Config = Config(users: map<string, User>, broadcast: map<string, Broadcast>)

  /** What the parsers of the other tables (symbols, statistics, errors) make of them. */
  datatype Others = Others(symbolsParse: bool, statisticsParse: bool, errorsParse: bool)

  const ROOT_KEYS := {"symbols", "users", "statistics", "broadcast", "errors"}

  ghost predicate AllBroadcastsAccepted(s: Section)
    reads TablesIn(s)
  {
    AllTrue(BroadcastVerdicts(FieldsOf(s)))
  }

  ghost function BroadcastVerdicts(fields: seq<Fields>): seq<bool> {
    seq(|fields|, i requires 0 <= i < |fields| => BroadcastAccepted(fields[i]))
  }

  /** `parse_broadcast`. */
  method ParseBroadcasts(s: Section) returns (r: Option<map<string, Broadcast>>)
    modifies TablesIn(s)
    ensures r.Some? <==> old(AllBroadcastsAccepted(s))
    ensures r.Some? ==> Holds(r.value, NamesOf(s), BroadcastsOf(old(FieldsOf(s))))
  {
    var result: map<string, Broadcast> := map[];
    ghost var fields := FieldsOf(s);
    ghost var verdicts, names, made := BroadcastVerdicts(fields), NamesOf(s), BroadcastsOf(fields);
    for i := 0 to |s|
      invariant forall j :: i <= j < |s| ==> s[j].1.entries == fields[j]
      invariant AllTrue(verdicts[..i])
      invariant Holds(result, names[..i], made[..i])
    {
      var broadcast := s[i].1.ParseBroadcast();
      assert verdicts[i] == broadcast.Some?;
      AllTrueStops(verdicts, i);
      if broadcast.None? {
        return None;
      }
      assert broadcast.value == made[i];
      HoldsStep(result, names[..i], made[..i], names[i], made[i]);
      TakeStep(names, i);
      TakeStep(made, i);
      AllTrueStep(verdicts, i);
      result := result[s[i].0 := broadcast.value];
    }
    TakeAll(names);
    TakeAll(made);
    TakeAll(verdicts);
    return Some(result);
  }

  /** `check_unique_usernames`: stops the process on a repeated username. */
  method CheckUniqueUsernames(users: map<string, User>) returns (ok: bool)
    ensures ok <==> DistinctUsernames(users)
  {
    var seen: set<string> := {};
    var rest := users.Keys;
    while rest != {}
      invariant rest <= users.Keys
      invariant DistinctUsernames(Only(users, users.Keys - rest))
      invariant forall n :: n in seen <==> exists k :: k in users && k !in rest && users[k].username == n
      decreases rest
    {
      var key :| key in rest;
      if users[key].username in seen {
        return false;
      }
      seen := seen + {users[key].username};
      rest := rest - {key};
    }
    assert Only(users, users.Keys - {}) == users;
    return true;
  }

  /** `check_unique_accounts`: users without an account may be many. */
  method CheckUniqueAccounts(users: map<string, User>) returns (ok: bool)
    ensures ok <==> DistinctAccounts(users)
  {
    var seen: set<string> := {};
    var rest := users.Keys;
    while rest != {}
      invariant rest <= users.Keys
      invariant DistinctAccounts(Only(users, users.Keys - rest))
      invariant forall a :: a in seen <==> a != "" && exists k :: k in users && k !in rest && users[k].account == a
      decreases rest
    {
      var key :| key in rest;
      if users[key].account != "" {
        if users[key].account in seen {
          return false;
        }
        seen := seen + {users[key].account};
      }
      rest := rest - {key};
    }
    assert Only(users, users.Keys - {}) == users;
    return true;
  }

  /** The same uniqueness, read off the entries themselves. */
  ghost predicate DistinctEntryUsernames(fields: seq<Fields>) {
    forall i, j :: 0 <= i < j < |fields| ==> TextOr(fields[i], "username") != TextOr(fields[j], "username")
  }

  ghost predicate DistinctEntryAccounts(fields: seq<Fields>) {
    forall i, j :: 0 <= i < j < |fields| && TextOr(fields[i], "account") != "" ==>
      TextOr(fields[i], "account") != TextOr(fields[j], "account")
  }

  lemma DistinctValues(users: map<string, User>, names: seq<string>, made: seq<User>)
    requires |names| == |made| && Holds(users, names, made)
    requires forall i, j :: 0 <= i < j < |names| ==> names[i] != names[j]
    ensures DistinctUsernames(users) <==>
            forall i, j :: 0 <= i < j < |made| ==> made[i].username != made[j].username
    ensures DistinctAccounts(users) <==>
            forall i, j :: 0 <= i < j < |made| && made[i].account != "" ==> made[i].account != made[j].account
  {
  }

  lemma NamesAndAccounts(fields: seq<Fields>)
    ensures var made := UsersOf(fields);
      && |made| == |fields|
      && (forall i :: 0 <= i < |made| ==> made[i].username == TextOr(fields[i], "username"))
      && (forall i :: 0 <= i < |made| ==> made[i].account == TextOr(fields[i], "account"))
  {
  }

  lemma DistinctEntries(users: map<string, User>, names: seq<string>, fields: seq<Fields>)
    requires |names| == |fields| && Holds(users, names, UsersOf(fields))
    requires forall i, j :: 0 <= i < j < |names| ==> names[i] != names[j]
    ensures DistinctUsernames(users) <==> DistinctEntryUsernames(fields)
    ensures DistinctAccounts(users) <==> DistinctEntryAccounts(fields)
  {
    DistinctValues(users, names, UsersOf(fields));
    NamesAndAccounts(fields);
  }

  /** The ids are exactly 1, 2, ..., n while they fit in 16 bits. */
  lemma UserIdsCountUp(fields: seq<Fields>, i: nat)
    requires i < |fields|
    ensures UsersOf(fields)[i].userId == (i + 1) % U16
    ensures |fields| < U16 ==> UsersOf(fields)[i].userId == i + 1
  {
  }

  /** All tables in turn, then the check that no key of the root table is left over. */
  method ParseTables(byStrategy: bool, keys: set<string>, users: Section, broadcast: Section, others: Others)
      returns (r: Option<Config>)
    requires TablesIn(users) !! TablesIn(broadcast)
    modifies TablesIn(users), TablesIn(broadcast)
    ensures r.Some? <==>
      && {"symbols", "users"} <= keys <= ROOT_KEYS
      && OthersParse(keys, others)
      && old(AllUsersAccepted(byStrategy, users))
      && ("broadcast" in keys ==> old(AllBroadcastsAccepted(broadcast)))
    ensures r.Some? ==> Holds(r.value.users, NamesOf(users), UsersOf(old(FieldsOf(users))))
    ensures r.Some? ==>
      if "broadcast" in keys then Holds(r.value.broadcast, NamesOf(broadcast), BroadcastsOf(old(FieldsOf(broadcast))))
      else r.value.broadcast == map[]
  {
    var left := keys;
    if "symbols" !in left || !others.symbolsParse {
      return None;
    }
    left := left - {"symbols"};
    if "users" !in left {
      return None;
    }
    ghost var fields := FieldsOf(broadcast);
    var parsedUsers := ParseUsers(byStrategy, users);
    if parsedUsers.None? {
      return None;
    }
    assert FieldsOf(broadcast) == fields;
    left := left - {"users"};
    if "statistics" in left && !others.statisticsParse {
      return None;
    }
    left := left - {"statistics"};
    var parsedBroadcast: map<string, Broadcast> := map[];
    if "broadcast" in left {
      var parsed := ParseBroadcasts(broadcast);
      if parsed.None? {
        return None;
      }
      parsedBroadcast := parsed.value;
    }
    left := left - {"broadcast"};
    if "errors" in left && !others.errorsParse {
      return None;
    }
    left := left - {"errors"};
    if left != {} {
      return None;
    }
    return Some(Config(parsedUsers.value, parsedBroadcast));
  }

  /** What a configuration must be like: every key of the root table and of each users and broadcast
      entry is one that some parser consumes, all values are acceptable, and usernames (and accounts,
      unless routing by strategy) are unique. */
  ghost predicate Acceptable(byStrategy: bool, keys: set<string>, users: Section, broadcast: Section, others: Others)
    reads TablesIn(users), TablesIn(broadcast)
  {
    && {"symbols", "users"} <= keys <= ROOT_KEYS
    && OthersParse(keys, others)
    && AllUsersAccepted(byStrategy, users)
    && ("broadcast" in keys ==> AllBroadcastsAccepted(broadcast))
    && DistinctEntryUsernames(FieldsOf(users))
    && (byStrategy || DistinctEntryAccounts(FieldsOf(users)))
  }

  /** The configuration holds, under its name, what every entry of the file says, and nothing else. */
  ghost predicate EntriesAreRead(
      config: Config, keys: set<string>, userNames: seq<string>, users: seq<Fields>,
      broadcastNames: seq<string>, broadcast: seq<Fields>)
    requires |userNames| == |users| && |broadcastNames| == |broadcast|
  {
    && (forall i :: 0 <= i < |users| ==>
          userNames[i] in config.users && SaysUser(users[i], config.users[userNames[i]]))
    && (forall k :: k in config.users ==> k in userNames)
    && (forall i :: 0 <= i < |broadcast| && "broadcast" in keys ==>
          broadcastNames[i] in config.broadcast && SaysBroadcast(broadcast[i], config.broadcast[broadcastNames[i]]))
    && (forall k :: k in config.broadcast ==> "broadcast" in keys && k in broadcastNames)
  }

  lemma AllEntriesAreRead(
      byStrategy: bool, config: Config, keys: set<string>, userNames: seq<string>, users: seq<Fields>,
      broadcastNames: seq<string>, broadcast: seq<Fields>)
    requires |userNames| == |users| && |broadcastNames| == |broadcast|
    requires AllTrue(UserVerdicts(byStrategy, users)) && Holds(config.users, userNames, UsersOf(users))
    requires "broadcast" in keys ==>
      AllTrue(BroadcastVerdicts(broadcast)) && Holds(config.broadcast, broadcastNames, BroadcastsOf(broadcast))
    requires "broadcast" !in keys ==> config.broadcast == map[]
    ensures EntriesAreRead(config, keys, userNames, users, broadcastNames, broadcast)
  {
    forall i | 0 <= i < |users| ensures SaysUser(users[i], UsersOf(users)[i]) {
      assert UserVerdicts(byStrategy, users)[i];
      UserIsRead(byStrategy, users[i], (i + 1) % U16);
    }
    if "broadcast" in keys {
      forall i | 0 <= i < |broadcast| ensures SaysBroadcast(broadcast[i], BroadcastsOf(broadcast)[i]) {
        assert BroadcastVerdicts(broadcast)[i];
        BroadcastIsRead(broadcast[i]);
      }
    }
  }

  /** The construction of the configuration finishes iff the tables are acceptable. */
  method Construct(byStrategy: bool, keys: set<string>, users: Section, broadcast: Section, others: Others)
      returns (r: Option<Config>)
    requires TablesIn(users) !! TablesIn(broadcast)
    modifies TablesIn(users), TablesIn(broadcast)
    ensures r.Some? <==> old(Acceptable(byStrategy, keys, users, broadcast, others))
    ensures r.Some? ==> Holds(r.value.users, NamesOf(users), UsersOf(old(FieldsOf(users))))
    ensures r.Some? ==>
      if "broadcast" in keys then Holds(r.value.broadcast, NamesOf(broadcast), BroadcastsOf(old(FieldsOf(broadcast))))
      else r.value.broadcast == map[]
    ensures r.Some? ==> DistinctUsernames(r.value.users) && (byStrategy || DistinctAccounts(r.value.users))
    ensures r.Some? ==> EntriesAreRead(r.value, keys, NamesOf(users), old(FieldsOf(users)),
                                       NamesOf(broadcast), old(FieldsOf(broadcast)))
  {
    ghost var userFields, broadcastFields := FieldsOf(users), FieldsOf(broadcast);
    ghost var verdicts, broadcastVerdicts := UserVerdicts(byStrategy, userFields), BroadcastVerdicts(broadcastFields);
    r := ParseTables(byStrategy, keys, users, broadcast, others);
    if r.Some? {
      assert AllTrue(verdicts) && ("broadcast" in keys ==> AllTrue(broadcastVerdicts));
      AllEntriesAreRead(byStrategy, r.value, keys, NamesOf(users), userFields, NamesOf(broadcast), broadcastFields);
      DistinctEntries(r.value.users, NamesOf(users), old(FieldsOf(users)));
      var unique := CheckUniqueUsernames(r.value.users);
      if unique && !byStrategy {
        unique := CheckUniqueAccounts(r.value.users);
      }
      if !unique {
        r := None;
      }
    }
  }

  /** A configuration, and the indexes of its users that `Controller` and `Shared` build. */
  datatype Startup = Startup(config: Config, byController: map<string, User>, byShared: map<string, User>)

  /** Construction and then both index builders: an acceptable configuration is all they need, neither
      builder ever stops a configuration that was constructed, both end with the same index, and
      looking a username up in it is a linear search of the users in the file. */
  method StartUp(byStrategy: bool, keys: set<string>, users: Section, broadcast: Section, others: Others)
      returns (r: Option<Startup>)
    requires TablesIn(users) !! TablesIn(broadcast)
    modifies TablesIn(users), TablesIn(broadcast)
    ensures r.Some? <==> old(Acceptable(byStrategy, keys, users, broadcast, others))
    ensures r.Some? ==> Holds(r.value.config.users, NamesOf(users), UsersOf(old(FieldsOf(users))))
    ensures r.Some? ==> r.value.byController == r.value.byShared
    ensures r.Some? ==> forall username ::
      Lookup(r.value.byController, username) == Search(UsersOf(old(FieldsOf(users))), username)
  {
    var config := Construct(byStrategy, keys, users, broadcast, others);
    if config.None? {
      return None;
    }
    var byController := IndexUsernames(byStrategy, config.value.users);
    var byShared := IndexUsernames(byStrategy, config.value.users);
    IndexIsUnique(config.value.users, byController.value, byShared.value);
    forall username
      ensures Lookup(byController.value, username) == Search(UsersOf(old(FieldsOf(users))), username)
    {
      LookupIsLinear(config.value.users, NamesOf(users), UsersOf(old(FieldsOf(users))), byController.value, username);
    }
    return Some(Startup(config.value, byController.value, byShared.value));
  }

  predicate OthersParse(keys: set<string>, others: Others) {
    && others.symbolsParse
    && ("statistics" in keys ==> others.statisticsParse)
    && ("errors" in keys ==> others.errorsParse)
  }
}
