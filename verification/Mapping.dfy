/** `tools::Mapping`: the broadcast mapping, updated in place, against the index it must hold. */
module BroadcastMapping {
  import opened Wrappers
  import opened JoinIndex

  class Mapping {
    const exchange: string
    const sourceRegex: Pattern
    const targetsRegex: seq<Pattern>
    var processed: set<string>
    var source: map<string, string>
    var target: map<string, set<string>>
    var outbound: map<string, set<string>>

    ghost function View(): Index
      reads this
    {
      Index(processed, source, target, outbound)
    }

    ghost function Config(): Patterns {
      Patterns(exchange, sourceRegex, targetsRegex)
    }

    constructor (exchange: string, sourceRegex: Pattern, targetsRegex: seq<Pattern>)
      ensures Config() == Patterns(exchange, sourceRegex, targetsRegex)
      ensures View() == EMPTY
    {
      this.exchange, this.sourceRegex, this.targetsRegex := exchange, sourceRegex, targetsRegex;
      processed, source, target, outbound := {}, map[], map[], map[];
    }

    method Add(exchange: string, symbol: string) returns (r: Result<bool>)
      modifies this
      ensures match JoinIndex.Add(Config(), old(View()), exchange, symbol)
        case Ok(ix) => View() == ix && r == Ok(this.exchange == exchange && Matches(Config(), symbol))
        case Failed(fatal) => r == Failed(fatal)
    {
      if this.exchange != exchange {
        return Ok(false);
      }
      if symbol in processed {
        return Failed(DuplicateSymbol);
      }
      processed := processed + {symbol};
      var result := false;
      var extracted := sourceRegex(symbol);
      if extracted.Some? {
        var res := AddSource(extracted.value, symbol);
        if res.Failed? {
          return Failed(res.fatal);
        }
        result := true;
      }
      ghost var start := View();
      var i := 0;
      while i < |targetsRegex|
        invariant 0 <= i <= |targetsRegex|
        invariant AddTargets(start, targetsRegex[..i], symbol) == Ok(View())
        invariant result <==> extracted.Some? || exists j :: 0 <= j < i && targetsRegex[j](symbol).Some?
      {
        var key := targetsRegex[i](symbol);
        ghost var before := View();
        PrefixStep(start, targetsRegex, i, symbol);
        if key.Some? {
          var res := AddTarget(key.value, symbol);
          if res.Failed? {
            FailurePersists(start, targetsRegex, i + 1, symbol);
            return Failed(res.fatal);
          }
          result := true;
        }
        i := i + 1;
      }
      assert targetsRegex[..i] == targetsRegex;
      return Ok(result);
    }

    method AddSource(key: string, symbol: string) returns (r: Result<()>)
      modifies `source, `outbound
      ensures match JoinIndex.AddSource(old(View()), key, symbol)
        case Ok(ix) => r.Ok? && View() == ix
        case Failed(fatal) => r == Failed(fatal)
    {
      if key in source {
        return Failed(MultipleSources);
      }
      source := source[key := symbol];
      if key in target {
        ghost var have := Get(outbound, symbol);
        outbound := outbound[symbol := Get(outbound, symbol)];
        var rest := target[key];
        while rest != {}
          invariant rest <= target[key] && source == old(source)[key := symbol]
          invariant symbol in outbound && outbound[symbol] == have + (target[key] - rest)
          invariant have * (target[key] - rest) == {}
          invariant outbound == old(outbound)[symbol := outbound[symbol]]
          decreases rest
        {
          var t :| t in rest;
          if t in outbound[symbol] {
            assert t in have * target[key];
            return Failed(AssertionFailed);
          }
          outbound := outbound[symbol := outbound[symbol] + {t}];
          rest := rest - {t};
        }
        assert target[key] - rest == target[key];
      }
      return Ok(());
    }

    method AddTarget(key: string, symbol: string) returns (r: Result<()>)
      modifies `target, `outbound
      ensures match JoinIndex.AddTarget(old(View()), key, symbol)
        case Ok(ix) => r.Ok? && View() == ix
        case Failed(fatal) => r == Failed(fatal)
    {
      var have := Get(target, key);
      if symbol in have {
        return Failed(MultipleInsertions);
      }
      target := target[key := have + {symbol}];
      if key in source {
        var out := Get(outbound, source[key]);
        if symbol in out {
          return Failed(AssertionFailed);
        }
        outbound := outbound[source[key] := out + {symbol}];
      }
      return Ok(());
    }

    /** Calls back once per target, in the unspecified order of the container. The exchange that
        is asked for plays no part in the lookup. */
    method Dispatch(exchange: string, symbol: string) returns (found: bool, calls: seq<Listing>)
      ensures found <==> symbol in outbound
      ensures forall c :: c in calls ==> c.exchange == this.exchange
      ensures forall t :: Listing(this.exchange, t) in calls <==> t in Get(outbound, symbol)
      ensures forall i, j :: 0 <= i < j < |calls| ==> calls[i] != calls[j]
    {
      calls := [];
      if symbol !in outbound {
        return false, calls;
      }
      var rest := outbound[symbol];
      while rest != {}
        invariant rest <= outbound[symbol]
        invariant forall c :: c in calls ==> c.exchange == this.exchange
        invariant forall t :: Listing(this.exchange, t) in calls <==> t in outbound[symbol] - rest
        invariant forall i, j :: 0 <= i < j < |calls| ==> calls[i] != calls[j]
        decreases rest
      {
        var t :| t in rest;
        calls := calls + [Listing(this.exchange, t)];
        rest := rest - {t};
      }
      return true, calls;
    }
  }

  /** A new mapping, all listings in turn, and one dispatch. The process stops iff the listings are not
      admissible; otherwise the dispatch calls back, once each, exactly the listed symbols that are
      joined with `symbol`, and answers whether there is one. */
  method AddAllAndDispatch(
      exchange: string, sourceRegex: Pattern, targetsRegex: seq<Pattern>, listings: seq<Listing>, symbol: string)
      returns (r: Result<bool>, calls: seq<Listing>)
    ensures var p, all := Patterns(exchange, sourceRegex, targetsRegex), multiset(listings);
      && (r.Ok? <==> Admissible(p, all))
      && r != Failed(AssertionFailed)
      && (r.Ok? ==>
            && (r.value <==> JoinOf(p, SymbolsIn(p, all), symbol) != {})
            && (forall c :: c in calls <==> c.exchange == exchange && c.symbol in JoinOf(p, SymbolsIn(p, all), symbol))
            && (forall i, j :: 0 <= i < j < |calls| ==> calls[i] != calls[j]))
  {
    var mapping := new Mapping(exchange, sourceRegex, targetsRegex);
    ghost var p := mapping.Config();
    RunCharacterised(p, listings);
    for i := 0 to |listings|
      invariant Run(p, listings[..i]) == Ok(mapping.View()) && mapping.Config() == p
    {
      var added := mapping.Add(listings[i].exchange, listings[i].symbol);
      assert listings[..i + 1][..i] == listings[..i];
      if added.Failed? {
        RunStops(p, listings, i + 1);
        return Failed(added.fatal), [];
      }
    }
    assert listings[..|listings|] == listings;
    assert Get(mapping.outbound, symbol) == JoinOf(p, SymbolsIn(p, multiset(listings)), symbol);
    var found;
    found, calls := mapping.Dispatch(exchange, symbol);
    forall c | c in calls ensures c.symbol in Get(mapping.outbound, symbol) {
      assert c == Listing(exchange, c.symbol);
    }
    return Ok(found), calls;
  }

  ghost function Configs(mappings: seq<Mapping>): seq<Patterns> {
    seq(|mappings|, i requires 0 <= i < |mappings| => mappings[i].Config())
  }

  ghost function Views(mappings: seq<Mapping>): seq<Index>
    reads mappings
  {
    seq(|mappings|, i requires 0 <= i < |mappings| reads mappings => mappings[i].View())
  }

  /** `Shared::update_broadcast_table`: offers a listing to every mapping in turn. */
  method UpdateBroadcastTable(mappings: seq<Mapping>, exchange: string, symbol: string) returns (r: Result<()>)
    requires forall i, j :: 0 <= i < j < |mappings| ==> mappings[i] != mappings[j]
    modifies mappings
    ensures match JoinIndex.UpdateTable(Configs(mappings), old(Views(mappings)), Listing(exchange, symbol))
      case Ok(table) => r.Ok? && Views(mappings) == table
      case Failed(fatal) => r == Failed(fatal)
  {
    ghost var ps, table, listing := Configs(mappings), Views(mappings), Listing(exchange, symbol);
    for i := 0 to |mappings|
      invariant forall j :: i <= j < |mappings| ==> mappings[j].View() == table[j]
      invariant forall j :: 0 <= j < i ==> JoinIndex.Add(ps[j], table[j], exchange, symbol) == Ok(mappings[j].View())
    {
      var res := mappings[i].Add(exchange, symbol);
      if res.Failed? {
        UpdateTableFailsAt(ps, table, listing, i);
        return Failed(res.fatal);
      }
    }
    UpdateTablePointwise(ps, table, listing);
    return Ok(());
  }
}
