/** From the broadcast table of the configuration file to the mappings, and to what they reach. */
module Broadcasting {
  import opened Wrappers
  import opened JoinIndex
  import opened BroadcastMapping
  import Configuration

  type Compiler = string -> Pattern

  /** The mapping that an entry of the file asks for. */
  ghost function Wanted(f: Configuration.Fields, compile: Compiler): Patterns
    requires Configuration.BroadcastAccepted(f)
  {
    Patterns(
      f["exchange"].text,
      compile(f["source_regex"].text),
      match f["targets_regex"]
      case Text(text) => [compile(text)]
      case Array(items) => seq(|items|, i requires 0 <= i < |items| => compile(items[i].text)))
  }

  /** `mappings` are one for each named broadcast, in the unspecified order `names` of the container. */
  ghost predicate OneEach(
      mappings: seq<Mapping>, names: seq<string>, broadcast: map<string, Configuration.Broadcast>, compile: Compiler)
  {
    && |mappings| == |names|
    && (forall i, j :: 0 <= i < j < |names| ==> names[i] != names[j] && mappings[i] != mappings[j])
    && (forall k :: k in broadcast <==> k in names)
    && forall j :: 0 <= j < |names| ==>
         names[j] in broadcast && IsCompiled(mappings[j].Config(), broadcast[names[j]], compile)
  }

  ghost predicate IsCompiled(p: Patterns, b: Configuration.Broadcast, compile: Compiler) {
    && p.exchange == b.exchange && p.source == compile(b.sourceRegex)
    && |p.targets| == |b.targetsRegex| && forall i :: 0 <= i < |p.targets| ==> p.targets[i] == compile(b.targetsRegex[i])
  }

  /** `extract_broadcast_mappings`. */
  method ExtractMappings(broadcast: map<string, Configuration.Broadcast>, compile: Compiler)
      returns (mappings: seq<Mapping>, ghost names: seq<string>)
    ensures fresh(mappings) && OneEach(mappings, names, broadcast, compile)
    ensures forall j :: 0 <= j < |mappings| ==> mappings[j].View() == EMPTY
  {
    mappings, names := [], [];
    var rest := broadcast.Keys;
    while rest != {}
      invariant rest <= broadcast.Keys && fresh(mappings)
      invariant OneEach(mappings, names, map k | k in broadcast && k !in rest :: broadcast[k], compile)
      invariant forall j :: 0 <= j < |mappings| ==> mappings[j].View() == EMPTY
      decreases rest
    {
      var name :| name in rest;
      var b := broadcast[name];
      var targets := seq(|b.targetsRegex|, i requires 0 <= i < |b.targetsRegex| => compile(b.targetsRegex[i]));
      var mapping := new Mapping(b.exchange, compile(b.sourceRegex), targets);
      mappings, names := mappings + [mapping], names + [name];
      rest := rest - {name};
    }
    assert broadcast == map k | k in broadcast && k !in rest :: broadcast[k];
  }

  /** Offers every listing to every mapping, up to the first failure. */
  method UpdateAll(mappings: seq<Mapping>, listings: seq<Listing>) returns (r: Result<()>)
    requires forall i, j :: 0 <= i < j < |mappings| ==> mappings[i] != mappings[j]
    requires forall j :: 0 <= j < |mappings| ==> mappings[j].View() == EMPTY
    modifies mappings
    ensures match RunTable(Configs(mappings), listings)
      case Ok(table) => r.Ok? && Views(mappings) == table
      case Failed(fatal) => r == Failed(fatal)
  {
    ghost var ps := Configs(mappings);
    assert Views(mappings) == seq(|ps|, _ => EMPTY);
    for i := 0 to |listings|
      invariant RunTable(ps, listings[..i]) == Ok(Views(mappings))
    {
      r := UpdateBroadcastTable(mappings, listings[i].exchange, listings[i].symbol);
      assert listings[..i + 1][..i] == listings[..i];
      if r.Failed? {
        TableRunStops(ps, listings, i + 1);
        return;
      }
    }
    assert listings[..|listings|] == listings;
    r := Ok(());
  }

  lemma {:induction false} TableRunStops(ps: seq<Patterns>, listings: seq<Listing>, i: nat)
    requires i <= |listings| && RunTable(ps, listings[..i]).Failed?
    ensures RunTable(ps, listings) == RunTable(ps, listings[..i])
    decreases |listings| - i
  {
    if i < |listings| {
      assert listings[..i + 1][..i] == listings[..i];
      TableRunStops(ps, listings, i + 1);
    } else {
      assert listings[..i] == listings;
    }
  }

  lemma CompiledIsWanted(p: Patterns, f: Configuration.Fields, b: Configuration.Broadcast, compile: Compiler)
    requires Configuration.BroadcastAccepted(f) && Configuration.SaysBroadcast(f, b) && IsCompiled(p, b, compile)
    ensures p == Wanted(f, compile)
  {
    assert p.targets == Wanted(f, compile).targets;
  }

  /** The patterns `ps`, under their names, are those that the entries ask for, one for one. */
  ghost predicate Match(
      ps: seq<Patterns>, names: seq<string>, entryNames: seq<string>, fields: seq<Configuration.Fields>,
      compile: Compiler)
  {
    && |ps| == |names| && |entryNames| == |fields|
    && (forall i :: 0 <= i < |fields| ==> Configuration.BroadcastAccepted(fields[i]))
    && (forall i, j :: 0 <= i < j < |names| ==> names[i] != names[j])
    && (forall k :: k in names <==> k in entryNames)
    && (forall j, i :: 0 <= j < |ps| && 0 <= i < |fields| && names[j] == entryNames[i] ==>
          ps[j] == Wanted(fields[i], compile))
  }

  /** The listings are admissible for every entry. */
  ghost predicate AllAdmissible(fields: seq<Configuration.Fields>, compile: Compiler, listings: seq<Listing>)
    requires forall i :: 0 <= i < |fields| ==> Configuration.BroadcastAccepted(fields[i])
  {
    forall i :: 0 <= i < |fields| ==> Admissible(Wanted(fields[i], compile), multiset(listings))
  }

  /** Every mapping holds the join that its patterns define over the listings. */
  ghost predicate AllJoined(ps: seq<Patterns>, views: seq<Index>, listings: seq<Listing>) {
    && |views| == |ps|
    && forall j :: 0 <= j < |ps| ==> Represents(ps[j], SymbolsIn(ps[j], multiset(listings)), views[j])
  }

  lemma AdmissibleByEntry(
      ps: seq<Patterns>, names: seq<string>, entryNames: seq<string>, fields: seq<Configuration.Fields>,
      compile: Compiler, listings: seq<Listing>)
    requires Match(ps, names, entryNames, fields, compile)
    ensures (forall j :: 0 <= j < |ps| ==> Admissible(ps[j], multiset(listings))) <==>
            AllAdmissible(fields, compile, listings)
  {
    forall j | 0 <= j < |ps| ensures exists i :: 0 <= i < |fields| && ps[j] == Wanted(fields[i], compile) {
      assert names[j] in entryNames;
      var i :| 0 <= i < |fields| && entryNames[i] == names[j];
    }
    forall i | 0 <= i < |fields| ensures exists j :: 0 <= j < |ps| && ps[j] == Wanted(fields[i], compile) {
      assert entryNames[i] in names;
      var j :| 0 <= j < |ps| && names[j] == entryNames[i];
    }
  }

  lemma TableIsJoined(ps: seq<Patterns>, listings: seq<Listing>)
    ensures RunTable(ps, listings).Ok? <==> forall j :: 0 <= j < |ps| ==> Admissible(ps[j], multiset(listings))
    ensures RunTable(ps, listings).Ok? ==> AllJoined(ps, RunTable(ps, listings).value, listings)
  {
    TableRunsAreIndependent(ps, listings);
    if RunTable(ps, listings).Ok? {
      forall j | 0 <= j < |ps|
        ensures Represents(ps[j], SymbolsIn(ps[j], multiset(listings)), RunTable(ps, listings).value[j])
      {
        RunCharacterised(ps[j], listings);
      }
    }
  }

  lemma ReadIsMatched(
      ps: seq<Patterns>, names: seq<string>, config: Configuration.Config, entryNames: seq<string>,
      fields: seq<Configuration.Fields>, compile: Compiler)
    requires |ps| == |names| && |entryNames| == |fields|
    requires forall i :: 0 <= i < |fields| ==> Configuration.BroadcastAccepted(fields[i])
    requires forall i :: 0 <= i < |fields| ==> entryNames[i] in config.broadcast
    requires forall i :: 0 <= i < |fields| ==> Configuration.SaysBroadcast(fields[i], config.broadcast[entryNames[i]])
    requires forall k :: k in config.broadcast ==> k in entryNames
    requires forall i, j :: 0 <= i < j < |names| ==> names[i] != names[j]
    requires forall k :: k in config.broadcast <==> k in names
    requires forall j :: 0 <= j < |names| ==> IsCompiled(ps[j], config.broadcast[names[j]], compile)
    ensures Match(ps, names, entryNames, fields, compile)
  {
    forall j, i | 0 <= j < |ps| && 0 <= i < |fields| && names[j] == entryNames[i]
      ensures ps[j] == Wanted(fields[i], compile)
    {
      CompiledIsWanted(ps[j], fields[i], config.broadcast[names[j]], compile);
    }
  }

  lemma AcceptedByVerdict(fields: seq<Configuration.Fields>)
    requires Configuration.AllTrue(Configuration.BroadcastVerdicts(fields))
    ensures forall i :: 0 <= i < |fields| ==> Configuration.BroadcastAccepted(fields[i])
  {
    forall i | 0 <= i < |fields| ensures Configuration.BroadcastAccepted(fields[i]) {
      assert Configuration.BroadcastVerdicts(fields)[i];
    }
  }

  /** From the file to the mappings: construction, one mapping for each entry, and all listings offered
      to all of them. It finishes iff the tables are acceptable and the listings are admissible for every
      entry; then the mapping of each entry has the exchange and the patterns that the entry asks for,
      and holds the join that they define. */
  method StartBroadcasting(
      byStrategy: bool, keys: set<string>, users: Configuration.Section, broadcast: Configuration.Section,
      others: Configuration.Others, compile: Compiler, listings: seq<Listing>)
      returns (r: Option<Result<()>>, mappings: seq<Mapping>, ghost names: seq<string>)
    requires Configuration.TablesIn(users) !! Configuration.TablesIn(broadcast)
    modifies Configuration.TablesIn(users), Configuration.TablesIn(broadcast)
    ensures r.Some? <==> old(Configuration.Acceptable(byStrategy, keys, users, broadcast, others))
    ensures r.Some? ==>
      var fields := if "broadcast" in keys then old(Configuration.FieldsOf(broadcast)) else [];
      var entryNames := if "broadcast" in keys then Configuration.NamesOf(broadcast) else [];
      && Match(Configs(mappings), names, entryNames, fields, compile)
      && (r.value.Ok? <==> AllAdmissible(fields, compile, listings))
      && (r.value.Ok? ==> AllJoined(Configs(mappings), Views(mappings), listings))
  {
    ghost var fields := if "broadcast" in keys then Configuration.FieldsOf(broadcast) else [];
    ghost var entryNames := if "broadcast" in keys then Configuration.NamesOf(broadcast) else [];
    var config := Configuration.Construct(byStrategy, keys, users, broadcast, others);
    if config.None? {
      return None, [], [];
    }
    mappings, names := ExtractMappings(config.value.broadcast, compile);
    ghost var ps := Configs(mappings);
    AcceptedByVerdict(fields);
    ReadIsMatched(ps, names, config.value, entryNames, fields, compile);
    AdmissibleByEntry(ps, names, entryNames, fields, compile, listings);
    TableIsJoined(ps, listings);
    var updated := UpdateAll(mappings, listings);
    return Some(updated), mappings, names;
  }
}
