/** The broadcast mapping index: an incrementally maintained equi-join.

    Symbols arrive one at a time. A source pattern and a list of target patterns each
    extract a join key from a symbol; `outbound` relates every source symbol to all target
    symbols that share its key. The functions specify one operation each; the lemmas say what
    a whole run of additions computes, when it stops, and that the order does not matter. */
module JoinIndex {
  import opened Wrappers

  /** What `regex::Pattern::extract` yields: the key, or nothing when the pattern fails. */
  type Pattern = string -> Option<string>

  datatype Patterns = Patterns(exchange: string, source: Pattern, targets: seq<Pattern>)

  datatype Index = Index(
    processed: set<string>,
    source: map<string, string>,
    target: map<string, set<string>>,
    outbound: map<string, set<string>>)

  /** Why the process stops: three calls of `log::fatal`, and the asserts on fresh insertion. */
  datatype Fatal = DuplicateSymbol | MultipleSources | MultipleInsertions | AssertionFailed

  datatype Result<+T> = Ok(value: T) | Failed(fatal: Fatal)

  const EMPTY := Index({}, map[], map[], map[])

  function Get(m: map<string, set<string>>, key: string): set<string> {
    if key in m then m[key] else {}
  }

  // ---------- specification of the operations ----------

  function AddSource(ix: Index, key: string, symbol: string): Result<Index> {
    if key in ix.source then
      Failed(MultipleSources)
    else
      var ix1 := ix.(source := ix.source[key := symbol]);
      if key !in ix.target then
        Ok(ix1)
      else
        var have := Get(ix.outbound, symbol);
        if have * ix.target[key] != {} then
          Failed(AssertionFailed)
        else
          Ok(ix1.(outbound := ix.outbound[symbol := have + ix.target[key]]))
  }

  function AddTarget(ix: Index, key: string, symbol: string): Result<Index> {
    var have := Get(ix.target, key);
    if symbol in have then
      Failed(MultipleInsertions)
    else
      var ix1 := ix.(target := ix.target[key := have + {symbol}]);
      if key !in ix.source then
        Ok(ix1)
      else
        var source := ix.source[key];
        var out := Get(ix.outbound, source);
        if symbol in out then
          Failed(AssertionFailed)
        else
          Ok(ix1.(outbound := ix.outbound[source := out + {symbol}]))
  }

  function AddTargets(ix: Index, targets: seq<Pattern>, symbol: string): Result<Index> {
    if targets == [] then
      Ok(ix)
    else
      var last := |targets| - 1;
      match AddTargets(ix, targets[..last], symbol)
      case Failed(fatal) => Failed(fatal)
      case Ok(ix1) =>
        match targets[last](symbol)
        case None => Ok(ix1)
        case Some(key) => AddTarget(ix1, key, symbol)
  }

  function Add(p: Patterns, ix: Index, exchange: string, symbol: string): Result<Index> {
    if p.exchange != exchange then
      Ok(ix)
    else if symbol in ix.processed then
      Failed(DuplicateSymbol)
    else
      var ix1 := ix.(processed := ix.processed + {symbol});
      var sourced := match p.source(symbol)
        case None => Ok(ix1)
        case Some(key) => AddSource(ix1, key, symbol);
      match sourced
      case Failed(fatal) => Failed(fatal)
      case Ok(ix2) => AddTargets(ix2, p.targets, symbol)
  }

  // ---------- the join, defined from the processed symbols alone ----------

  /** Some target pattern extracts `key` from `symbol`. */
  ghost predicate HasTargetKey(targets: seq<Pattern>, symbol: string, key: string) {
    exists j :: 0 <= j < |targets| && targets[j](symbol) == Some(key)
  }

  /** No two target patterns extract the same key from `symbol`. */
  ghost predicate DistinctTargetKeys(targets: seq<Pattern>, symbol: string) {
    forall i, j :: 0 <= i < j < |targets| && targets[i](symbol).Some? ==> targets[i](symbol) != targets[j](symbol)
  }

  ghost predicate Matches(p: Patterns, symbol: string) {
    p.source(symbol).Some? || exists j :: 0 <= j < |p.targets| && p.targets[j](symbol).Some?
  }

  ghost function TargetsOf(p: Patterns, symbols: set<string>, key: string): set<string> {
    set t | t in symbols && HasTargetKey(p.targets, t, key)
  }

  /** The symbols that `symbol` must be broadcast to once exactly `symbols` have been processed. */
  ghost function JoinOf(p: Patterns, symbols: set<string>, symbol: string): set<string> {
    if symbol in symbols && p.source(symbol).Some? then TargetsOf(p, symbols, p.source(symbol).value) else {}
  }

  /** `ix` is the join of all processed sources with all processed targets. */
  ghost predicate Represents(p: Patterns, symbols: set<string>, ix: Index) {
    && ix.processed == symbols
    && (forall k :: k in ix.source ==> ix.source[k] in symbols && p.source(ix.source[k]) == Some(k))
    && (forall s :: s in symbols && p.source(s).Some? ==>
          p.source(s).value in ix.source && ix.source[p.source(s).value] == s)
    && (forall k :: Get(ix.target, k) == TargetsOf(p, symbols, k))
    && (forall s :: Get(ix.outbound, s) == JoinOf(p, symbols, s))
    && NoEmptyEntries(ix)
  }

  ghost predicate NoEmptyEntries(ix: Index) {
    && (forall k :: k in ix.target ==> ix.target[k] != {})
    && (forall s :: s in ix.outbound ==> ix.outbound[s] != {})
  }

  /** The processed symbols determine all four containers. */
  lemma RepresentationIsUnique(p: Patterns, symbols: set<string>, a: Index, b: Index)
    requires Represents(p, symbols, a) && Represents(p, symbols, b)
    ensures a == b
  {
    assert a.source == b.source;
    forall k ensures (k in a.target <==> k in b.target) && (k in a.target ==> a.target[k] == b.target[k]) {
      assert Get(a.target, k) == Get(b.target, k);
    }
    assert a.target == b.target;
    forall s ensures (s in a.outbound <==> s in b.outbound) && (s in a.outbound ==> a.outbound[s] == b.outbound[s]) {
      assert Get(a.outbound, s) == Get(b.outbound, s);
    }
    assert a.outbound == b.outbound;
  }

  // ---------- one addition ----------

  /** `outbound` is the join of `source` and `target` as they stand. */
  ghost predicate OutboundIsJoin(ix: Index) {
    && (forall s, t :: t in Get(ix.outbound, s) <==> Linked(ix, s, t))
    && NoEmptyEntries(ix)
  }

  ghost predicate Linked(ix: Index, s: string, t: string) {
    exists k :: k in ix.source && ix.source[k] == s && t in Get(ix.target, k)
  }

  ghost predicate SourceIsInjective(ix: Index) {
    forall k, l :: k in ix.source && l in ix.source && ix.source[k] == ix.source[l] ==> k == l
  }

  lemma AddSourceKeepsJoin(ix: Index, key: string, symbol: string)
    requires OutboundIsJoin(ix) && SourceIsInjective(ix)
    requires forall k :: k in ix.source ==> ix.source[k] != symbol
    ensures var r := AddSource(ix, key, symbol);
      if key in ix.source then r == Failed(MultipleSources)
      else
        && r.Ok? && OutboundIsJoin(r.value) && SourceIsInjective(r.value)
        && r.value.(outbound := ix.outbound) == ix.(source := ix.source[key := symbol])
  {
    if key !in ix.source {
      assert Get(ix.outbound, symbol) == {} by {
        forall t ensures t !in Get(ix.outbound, symbol) { assert !Linked(ix, symbol, t); }
      }
      var r := AddSource(ix, key, symbol).value;
      forall s, t ensures t in Get(r.outbound, s) <==> Linked(r, s, t) {
        assert Linked(r, s, t) <==> Linked(ix, s, t) || (s == symbol && t in Get(ix.target, key)) by {
          if Linked(ix, s, t) {
            var k :| k in ix.source && ix.source[k] == s && t in Get(ix.target, k);
            assert k in r.source && r.source[k] == s && t in Get(r.target, k);
          }
          if s == symbol && t in Get(ix.target, key) {
            assert key in r.source && r.source[key] == s && t in Get(r.target, key);
          }
        }
      }
    }
  }

  lemma AddTargetKeepsJoin(ix: Index, key: string, symbol: string)
    requires OutboundIsJoin(ix) && SourceIsInjective(ix)
    ensures var r := AddTarget(ix, key, symbol);
      if symbol in Get(ix.target, key) then r == Failed(MultipleInsertions)
      else
        && r.Ok? && OutboundIsJoin(r.value)
        && r.value.(outbound := ix.outbound) == ix.(target := ix.target[key := Get(ix.target, key) + {symbol}])
  {
    if symbol !in Get(ix.target, key) {
      if key in ix.source {
        assert !Linked(ix, ix.source[key], symbol);
      }
      var r := AddTarget(ix, key, symbol).value;
      forall s, t ensures t in Get(r.outbound, s) <==> Linked(r, s, t) {
        var added := t == symbol && key in ix.source && ix.source[key] == s;
        assert Linked(r, s, t) <==> Linked(ix, s, t) || added by {
          if Linked(ix, s, t) {
            var k :| k in ix.source && ix.source[k] == s && t in Get(ix.target, k);
            assert k in r.source && r.source[k] == s && t in Get(r.target, k);
          }
          if added {
            assert key in r.source && r.source[key] == s && t in Get(r.target, key);
          }
        }
      }
    }
  }

  lemma TargetKeyStep(targets: seq<Pattern>, symbol: string, key: string)
    requires targets != []
    ensures var n := |targets| - 1;
      HasTargetKey(targets, symbol, key) <==>
      HasTargetKey(targets[..n], symbol, key) || targets[n](symbol) == Some(key)
  {
  }

  lemma DistinctTargetKeysStep(targets: seq<Pattern>, symbol: string)
    requires targets != []
    ensures var n := |targets| - 1;
      DistinctTargetKeys(targets, symbol) <==>
      && DistinctTargetKeys(targets[..n], symbol)
      && (targets[n](symbol).Some? ==> !HasTargetKey(targets[..n], symbol, targets[n](symbol).value))
  {
  }

  /** `r` is `ix` with the symbol inserted under every key that the patterns extract from it. */
  ghost predicate TargetsAdded(ix: Index, r: Index, targets: seq<Pattern>, symbol: string) {
    && OutboundIsJoin(r)
    && r.processed == ix.processed && r.source == ix.source
    && (forall k, t :: t in Get(r.target, k) <==>
          t in Get(ix.target, k) || (t == symbol && HasTargetKey(targets, symbol, k)))
  }

  lemma LastTargetAdded(ix: Index, mid: Index, targets: seq<Pattern>, symbol: string, key: string)
    requires SourceIsInjective(ix) && (forall k :: symbol !in Get(ix.target, k))
    requires targets != [] && targets[|targets| - 1](symbol) == Some(key)
    requires TargetsAdded(ix, mid, targets[..|targets| - 1], symbol)
    ensures var r := AddTarget(mid, key, symbol);
      if HasTargetKey(targets[..|targets| - 1], symbol, key) then r == Failed(MultipleInsertions)
      else r.Ok? && TargetsAdded(ix, r.value, targets, symbol)
  {
    AddTargetKeepsJoin(mid, key, symbol);
    assert symbol in Get(mid.target, key) <==> HasTargetKey(targets[..|targets| - 1], symbol, key);
    forall k ensures HasTargetKey(targets, symbol, k) <==> HasTargetKey(targets[..|targets| - 1], symbol, k) || k == key {
      TargetKeyStep(targets, symbol, k);
    }
    if symbol !in Get(mid.target, key) {
      var r := AddTarget(mid, key, symbol).value;
      assert r.target == mid.target[key := Get(mid.target, key) + {symbol}];
      forall k ensures Get(r.target, k) == Get(mid.target, k) + if k == key then {symbol} else {} {}
    }
  }

  /** The loop over the target patterns inserts the symbol under every key they extract, and
      stops the process exactly when two of them extract the same key. */
  lemma {:induction false} AddTargetsKeepsJoin(ix: Index, targets: seq<Pattern>, symbol: string)
    requires OutboundIsJoin(ix) && SourceIsInjective(ix)
    requires forall k :: symbol !in Get(ix.target, k)
    ensures var r := AddTargets(ix, targets, symbol);
      if DistinctTargetKeys(targets, symbol) then r.Ok? && TargetsAdded(ix, r.value, targets, symbol)
      else r == Failed(MultipleInsertions)
  {
    if targets != [] {
      var n := |targets| - 1;
      AddTargetsKeepsJoin(ix, targets[..n], symbol);
      DistinctTargetKeysStep(targets, symbol);
      if DistinctTargetKeys(targets[..n], symbol) {
        var mid := AddTargets(ix, targets[..n], symbol).value;
        if targets[n](symbol).Some? {
          LastTargetAdded(ix, mid, targets, symbol, targets[n](symbol).value);
        } else {
          forall k ensures HasTargetKey(targets, symbol, k) <==> HasTargetKey(targets[..n], symbol, k) {
            TargetKeyStep(targets, symbol, k);
          }
        }
      }
    }
  }

  /** `symbol` can be added to an index of `symbols` without stopping the process. */
  ghost predicate Addable(p: Patterns, symbols: set<string>, symbol: string) {
    && symbol !in symbols
    && (p.source(symbol).Some? ==> forall s :: s in symbols ==> p.source(s) != p.source(symbol))
    && DistinctTargetKeys(p.targets, symbol)
  }

  lemma RepresentedIsJoin(p: Patterns, symbols: set<string>, ix: Index)
    requires Represents(p, symbols, ix)
    ensures OutboundIsJoin(ix) && SourceIsInjective(ix)
  {
  }

  lemma JoinIsRepresented(p: Patterns, symbols: set<string>, ix: Index)
    requires OutboundIsJoin(ix) && ix.processed == symbols
    requires forall k :: k in ix.source ==> ix.source[k] in symbols && p.source(ix.source[k]) == Some(k)
    requires forall s :: s in symbols && p.source(s).Some? ==>
               p.source(s).value in ix.source && ix.source[p.source(s).value] == s
    requires forall k :: Get(ix.target, k) == TargetsOf(p, symbols, k)
    ensures Represents(p, symbols, ix)
  {
  }

  lemma SourceClash(p: Patterns, symbols: set<string>, ix: Index, symbol: string)
    requires Represents(p, symbols, ix) && p.source(symbol).Some?
    ensures p.source(symbol).value in ix.source <==> exists s :: s in symbols && p.source(s) == p.source(symbol)
  {
  }

  /** The target loop, once the source side of a fresh symbol is in place. */
  lemma TargetsKeepRepresentation(p: Patterns, symbols: set<string>, ix: Index, sourced: Index, symbol: string)
    requires Represents(p, symbols, ix) && symbol !in symbols
    requires sourced.processed == symbols + {symbol} && sourced.target == ix.target
    requires sourced.source == if p.source(symbol).Some? then ix.source[p.source(symbol).value := symbol] else ix.source
    requires p.source(symbol).Some? ==> p.source(symbol).value !in ix.source
    requires OutboundIsJoin(sourced) && SourceIsInjective(sourced)
    ensures var r := AddTargets(sourced, p.targets, symbol);
      if DistinctTargetKeys(p.targets, symbol) then r.Ok? && Represents(p, symbols + {symbol}, r.value)
      else r == Failed(MultipleInsertions)
  {
    forall k ensures symbol !in Get(sourced.target, k) {
      assert Get(ix.target, k) == TargetsOf(p, symbols, k);
    }
    AddTargetsKeepsJoin(sourced, p.targets, symbol);
    if DistinctTargetKeys(p.targets, symbol) {
      var r := AddTargets(sourced, p.targets, symbol).value;
      forall k ensures Get(r.target, k) == TargetsOf(p, symbols + {symbol}, k) {
        assert Get(ix.target, k) == TargetsOf(p, symbols, k);
      }
      JoinIsRepresented(p, symbols + {symbol}, r);
    }
  }

  /** One addition for the mapping's own exchange: it finishes iff the symbol is addable, never
      by a failing assert, and it leaves the join of the enlarged set. */
  lemma AddKeepsRepresentation(p: Patterns, symbols: set<string>, ix: Index, symbol: string)
    requires Represents(p, symbols, ix)
    ensures var r := Add(p, ix, p.exchange, symbol);
      && (r.Ok? <==> Addable(p, symbols, symbol))
      && (r.Ok? ==> Represents(p, symbols + {symbol}, r.value))
      && r != Failed(AssertionFailed)
  {
    if symbol !in symbols {
      RepresentedIsJoin(p, symbols, ix);
      var ix1 := ix.(processed := ix.processed + {symbol});
      forall s, t ensures Linked(ix1, s, t) == Linked(ix, s, t) {}
      if p.source(symbol).None? {
        TargetsKeepRepresentation(p, symbols, ix, ix1, symbol);
      } else {
        var key := p.source(symbol).value;
        SourceClash(p, symbols, ix, symbol);
        AddSourceKeepsJoin(ix1, key, symbol);
        if key !in ix.source {
          TargetsKeepRepresentation(p, symbols, ix, AddSource(ix1, key, symbol).value, symbol);
        }
      }
    }
  }

  /** Each way an addition fails, and nothing else leads to it. */
  lemma AddFailsBy(p: Patterns, symbols: set<string>, ix: Index, symbol: string)
    requires Represents(p, symbols, ix)
    ensures var r := Add(p, ix, p.exchange, symbol);
      var clash := p.source(symbol).Some? && exists s :: s in symbols && p.source(s) == p.source(symbol);
      && (r == Failed(DuplicateSymbol) <==> symbol in symbols)
      && (r == Failed(MultipleSources) <==> symbol !in symbols && clash)
      && (r == Failed(MultipleInsertions) <==>
            symbol !in symbols && !clash && !DistinctTargetKeys(p.targets, symbol))
  {
    AddKeepsRepresentation(p, symbols, ix, symbol);
    if symbol !in symbols {
      RepresentedIsJoin(p, symbols, ix);
      var ix1 := ix.(processed := ix.processed + {symbol});
      forall s, t ensures Linked(ix1, s, t) == Linked(ix, s, t) {}
      if p.source(symbol).None? {
        TargetsKeepRepresentation(p, symbols, ix, ix1, symbol);
      } else {
        var key := p.source(symbol).value;
        SourceClash(p, symbols, ix, symbol);
        AddSourceKeepsJoin(ix1, key, symbol);
        if key !in ix.source {
          TargetsKeepRepresentation(p, symbols, ix, AddSource(ix1, key, symbol).value, symbol);
        }
      }
    }
  }

  // ---------- whole runs ----------

  datatype Listing = Listing(exchange: string, symbol: string)

  /** Calls `add` for every listing in turn; a failure ends the run. */
  function Run(p: Patterns, listings: seq<Listing>): Result<Index> {
    if listings == [] then
      Ok(EMPTY)
    else
      var last := |listings| - 1;
      match Run(p, listings[..last])
      case Failed(fatal) => Failed(fatal)
      case Ok(ix) => Add(p, ix, listings[last].exchange, listings[last].symbol)
  }

  ghost function SymbolsIn(p: Patterns, listings: multiset<Listing>): set<string> {
    set a | a in listings && a.exchange == p.exchange :: a.symbol
  }

  /** All symbols of the mapping's exchange are distinct, no two share a source key, and none
      yields the same key from two target patterns. */
  ghost predicate Admissible(p: Patterns, listings: multiset<Listing>) {
    && (forall a :: a in listings && a.exchange == p.exchange ==>
          listings[a] == 1 && DistinctTargetKeys(p.targets, a.symbol))
    && (forall a, b :: a in listings && b in listings && a.exchange == b.exchange == p.exchange && a != b ==>
          p.source(a.symbol).None? || p.source(a.symbol) != p.source(b.symbol))
  }

  lemma AdmissibleSkips(p: Patterns, listings: multiset<Listing>, last: Listing)
    requires last.exchange != p.exchange
    ensures SymbolsIn(p, listings + multiset{last}) == SymbolsIn(p, listings)
    ensures Admissible(p, listings + multiset{last}) <==> Admissible(p, listings)
  {
  }

  lemma SymbolsInStep(p: Patterns, listings: multiset<Listing>, last: Listing)
    requires last.exchange == p.exchange
    ensures SymbolsIn(p, listings + multiset{last}) == SymbolsIn(p, listings) + {last.symbol}
    ensures forall s :: s in SymbolsIn(p, listings) <==> Listing(p.exchange, s) in listings
  {
  }

  lemma AdmissibleGrows(p: Patterns, listings: multiset<Listing>, last: Listing)
    requires last.exchange == p.exchange
    requires Admissible(p, listings) && Addable(p, SymbolsIn(p, listings), last.symbol)
    ensures Admissible(p, listings + multiset{last})
  {
  }

  lemma AdmissibleShrinks(p: Patterns, listings: multiset<Listing>, last: Listing)
    requires last.exchange == p.exchange
    requires Admissible(p, listings + multiset{last})
    ensures Admissible(p, listings) && Addable(p, SymbolsIn(p, listings), last.symbol)
  {
  }

  /** The exact abort condition and the meaning of a finished run: a run finishes iff its
      listings are admissible, then holds the join of all its symbols, and never fails an assert. */
  lemma {:induction false} RunCharacterised(p: Patterns, listings: seq<Listing>)
    ensures Run(p, listings).Ok? <==> Admissible(p, multiset(listings))
    ensures Run(p, listings).Ok? ==> Represents(p, SymbolsIn(p, multiset(listings)), Run(p, listings).value)
    ensures Run(p, listings) != Failed(AssertionFailed)
  {
    if listings == [] {
      assert SymbolsIn(p, multiset(listings)) == {};
    } else {
      var n := |listings| - 1;
      var init, last := listings[..n], listings[n];
      RunCharacterised(p, init);
      assert listings == init + [last];
      assert multiset(listings) == multiset(init) + multiset{last};
      if last.exchange != p.exchange {
        AdmissibleSkips(p, multiset(init), last);
      } else {
        SymbolsInStep(p, multiset(init), last);
        if Admissible(p, multiset(listings)) {
          AdmissibleShrinks(p, multiset(init), last);
        }
        if Run(p, init).Ok? {
          AddKeepsRepresentation(p, SymbolsIn(p, multiset(init)), Run(p, init).value, last.symbol);
          if Addable(p, SymbolsIn(p, multiset(init)), last.symbol) {
            AdmissibleGrows(p, multiset(init), last);
          }
        }
      }
    }
  }

  /** A failure ends the run. */
  lemma {:induction false} RunStops(p: Patterns, listings: seq<Listing>, i: nat)
    requires i <= |listings| && Run(p, listings[..i]).Failed?
    ensures Run(p, listings) == Run(p, listings[..i])
    decreases |listings| - i
  {
    if i < |listings| {
      assert listings[..i + 1][..i] == listings[..i];
      RunStops(p, listings, i + 1);
    } else {
      assert listings[..i] == listings;
    }
  }

  /** Order independence: any two orders of the same listings both stop the process, or both
      finish with the same four containers. */
  lemma OrderIndependence(p: Patterns, a: seq<Listing>, b: seq<Listing>)
    requires multiset(a) == multiset(b)
    ensures Run(p, a).Ok? <==> Run(p, b).Ok?
    ensures Run(p, a).Ok? ==> Run(p, a).value == Run(p, b).value
  {
    RunCharacterised(p, a);
    RunCharacterised(p, b);
    if Run(p, a).Ok? {
      RepresentationIsUnique(p, SymbolsIn(p, multiset(a)), Run(p, a).value, Run(p, b).value);
    }
  }

  /** What a dispatch after a finished run reaches: the processed symbols for which some target
      pattern extracts the key that the source pattern extracts from `symbol`. */
  lemma DispatchReachesJoin(p: Patterns, listings: seq<Listing>, symbol: string, t: string)
    requires Run(p, listings).Ok?
    ensures var ix := Run(p, listings).value;
      && (symbol in ix.outbound <==> Get(ix.outbound, symbol) != {})
      && (t in Get(ix.outbound, symbol) <==>
            && Listing(p.exchange, symbol) in listings && Listing(p.exchange, t) in listings
            && p.source(symbol).Some? && HasTargetKey(p.targets, t, p.source(symbol).value))
  {
    RunCharacterised(p, listings);
    var ix, symbols := Run(p, listings).value, SymbolsIn(p, multiset(listings));
    assert Get(ix.outbound, symbol) == JoinOf(p, symbols, symbol);
    assert forall s :: s in symbols <==> Listing(p.exchange, s) in multiset(listings);
  }

  // ---------- the table of mappings ----------

  /** `Shared::update_broadcast_table` for one listing: every mapping is offered the listing. */
  function UpdateTable(ps: seq<Patterns>, table: seq<Index>, listing: Listing): Result<seq<Index>>
    requires |ps| == |table|
    ensures UpdateTable(ps, table, listing).Ok? ==> |UpdateTable(ps, table, listing).value| == |ps|
  {
    if ps == [] then
      Ok([])
    else
      match Add(ps[0], table[0], listing.exchange, listing.symbol)
      case Failed(fatal) => Failed(fatal)
      case Ok(ix) =>
        match UpdateTable(ps[1..], table[1..], listing)
        case Failed(fatal) => Failed(fatal)
        case Ok(rest) => Ok([ix] + rest)
  }

  function RunTable(ps: seq<Patterns>, listings: seq<Listing>): (r: Result<seq<Index>>)
    ensures r.Ok? ==> |r.value| == |ps|
  {
    if listings == [] then
      Ok(seq(|ps|, _ => EMPTY))
    else
      var last := |listings| - 1;
      match RunTable(ps, listings[..last])
      case Failed(fatal) => Failed(fatal)
      case Ok(table) => UpdateTable(ps, table, listings[last])
  }

  lemma {:induction false} UpdateTablePointwise(ps: seq<Patterns>, table: seq<Index>, listing: Listing)
    requires |ps| == |table|
    ensures UpdateTable(ps, table, listing).Ok? <==>
            forall i :: 0 <= i < |ps| ==> Add(ps[i], table[i], listing.exchange, listing.symbol).Ok?
    ensures UpdateTable(ps, table, listing).Ok? ==>
            forall i :: 0 <= i < |ps| ==>
              Add(ps[i], table[i], listing.exchange, listing.symbol) == Ok(UpdateTable(ps, table, listing).value[i])
  {
    if ps != [] {
      UpdateTablePointwise(ps[1..], table[1..], listing);
      var all := forall i :: 0 <= i < |ps| ==> Add(ps[i], table[i], listing.exchange, listing.symbol).Ok?;
      if all {
        forall i | 0 <= i < |ps| - 1
          ensures Add(ps[1..][i], table[1..][i], listing.exchange, listing.symbol).Ok?
        {
          assert Add(ps[i + 1], table[i + 1], listing.exchange, listing.symbol).Ok?;
        }
      }
      if UpdateTable(ps, table, listing).Ok? {
        var r := UpdateTable(ps, table, listing).value;
        forall i | 0 <= i < |ps|
          ensures Add(ps[i], table[i], listing.exchange, listing.symbol) == Ok(r[i])
        {
          if i > 0 {
            assert ps[i] == ps[1..][i - 1] && table[i] == table[1..][i - 1] && r[i] == r[1..][i - 1];
          }
        }
      }
    }
  }

  /** The first mapping that fails decides the failure. */
  lemma {:induction false} UpdateTableFailsAt(ps: seq<Patterns>, table: seq<Index>, listing: Listing, i: nat)
    requires i < |ps| == |table|
    requires forall j :: 0 <= j < i ==> Add(ps[j], table[j], listing.exchange, listing.symbol).Ok?
    requires Add(ps[i], table[i], listing.exchange, listing.symbol).Failed?
    ensures UpdateTable(ps, table, listing).Failed?
    ensures UpdateTable(ps, table, listing).fatal == Add(ps[i], table[i], listing.exchange, listing.symbol).fatal
  {
    if i > 0 {
      forall j | 0 <= j < i - 1
        ensures Add(ps[1..][j], table[1..][j], listing.exchange, listing.symbol).Ok?
      {
        assert Add(ps[j + 1], table[j + 1], listing.exchange, listing.symbol).Ok?;
      }
      UpdateTableFailsAt(ps[1..], table[1..], listing, i - 1);
    }
  }

  /** The whole broadcast table finishes iff every mapping alone would, and then holds the same
      indexes: one mapping never influences another. */
  lemma {:induction false} TableRunsAreIndependent(ps: seq<Patterns>, listings: seq<Listing>)
    ensures RunTable(ps, listings).Ok? <==>
            forall i :: 0 <= i < |ps| ==> Admissible(ps[i], multiset(listings))
    ensures RunTable(ps, listings).Ok? ==>
            forall i :: 0 <= i < |ps| ==> Run(ps[i], listings) == Ok(RunTable(ps, listings).value[i])
  {
    forall i | 0 <= i < |ps|
      ensures Run(ps[i], listings).Ok? <==> Admissible(ps[i], multiset(listings))
    {
      RunCharacterised(ps[i], listings);
    }
    if listings != [] {
      var n := |listings| - 1;
      var init, last := listings[..n], listings[n];
      TableRunsAreIndependent(ps, init);
      forall i | 0 <= i < |ps|
        ensures Run(ps[i], init).Ok? <==> Admissible(ps[i], multiset(init))
        ensures Run(ps[i], listings).Ok? ==> Run(ps[i], init).Ok?
      {
        RunCharacterised(ps[i], init);
      }
      if RunTable(ps, init).Ok? {
        UpdateTablePointwise(ps, RunTable(ps, init).value, last);
      }
    }
  }

  // ---------- the loop over the target patterns, front to back ----------

  lemma PrefixStep(ix: Index, targets: seq<Pattern>, i: nat, symbol: string)
    requires i < |targets|
    requires AddTargets(ix, targets[..i], symbol).Ok?
    ensures var before := AddTargets(ix, targets[..i], symbol).value;
      AddTargets(ix, targets[..i + 1], symbol) ==
      (match targets[i](symbol) case None => Ok(before) case Some(key) => AddTarget(before, key, symbol))
  {
    assert targets[..i + 1][..i] == targets[..i];
  }

  lemma {:induction false} FailurePersists(ix: Index, targets: seq<Pattern>, i: nat, symbol: string)
    requires i <= |targets|
    requires AddTargets(ix, targets[..i], symbol).Failed?
    ensures AddTargets(ix, targets, symbol) == AddTargets(ix, targets[..i], symbol)
    decreases |targets| - i
  {
    if i < |targets| {
      assert targets[..i + 1][..i] == targets[..i];
      FailurePersists(ix, targets, i + 1, symbol);
    } else {
      assert targets[..i] == targets;
    }
  }
}
