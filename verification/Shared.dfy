/** `Shared`: the two route maps and the logs that all sessions write to. */
module SharedState {
  import opened Routes
  import opened Bridge

  class Shared {
    const env: Environment
    var strategyIdToSessionId: map<StrategyId, SessionId>
    var sessionIdToStrategyId: map<SessionId, set<StrategyId>>
    /** The messages received, as the FIX log records them. */
    var handled: seq<Handled>
    /** The sessions reported by `session_logout`. */
    var logouts: seq<SessionId>
    ghost var calls: seq<Call>

    ghost function RouteTable(): Table
      reads this
    {
      Table(strategyIdToSessionId, sessionIdToStrategyId)
    }

    constructor (env: Environment)
      ensures this.env == env
      ensures RouteTable() == NO_ROUTES && handled == [] && logouts == [] && calls == []
    {
      this.env := env;
      strategyIdToSessionId, sessionIdToStrategyId := map[], map[];
      handled, logouts, calls := [], [], [];
    }

    method AddRoute(session: SessionId, strategy: StrategyId) returns (success: bool)
      modifies `strategyIdToSessionId, `sessionIdToStrategyId
      ensures (RouteTable(), success) == Routes.AddRoute(old(RouteTable()), session, strategy)
    {
      if strategy !in strategyIdToSessionId {
        strategyIdToSessionId := strategyIdToSessionId[strategy := session];
        var strategies := if session in sessionIdToStrategyId then sessionIdToStrategyId[session] else {};
        sessionIdToStrategyId := sessionIdToStrategyId[session := strategies + {strategy}];
        return true;
      }
      return false;
    }

    method RemoveRoute(session: SessionId, strategy: StrategyId) returns (success: bool)
      modifies `strategyIdToSessionId, `sessionIdToStrategyId
      ensures (RouteTable(), success) == Routes.RemoveRoute(old(RouteTable()), session, strategy)
    {
      if strategy !in strategyIdToSessionId || strategyIdToSessionId[strategy] != session {
        return false;
      }
      var strategies := if session in sessionIdToStrategyId then sessionIdToStrategyId[session] else {};
      sessionIdToStrategyId := sessionIdToStrategyId[session := strategies - {strategy}];
      strategyIdToSessionId := strategyIdToSessionId - {strategy};
      return true;
    }

    method RemoveAllRoutes(session: SessionId)
      modifies `strategyIdToSessionId, `sessionIdToStrategyId
      ensures RouteTable() == Routes.RemoveAllRoutes(old(RouteTable()), session)
    {
      if session !in sessionIdToStrategyId {
        return;
      }
      var strategies := sessionIdToStrategyId[session];
      var rest := strategies;
      while rest != {}
        invariant rest <= strategies
        invariant strategyIdToSessionId == old(strategyIdToSessionId) - (strategies - rest)
        invariant sessionIdToStrategyId == old(sessionIdToStrategyId)
        decreases rest
      {
        var strategy :| strategy in rest;
        strategyIdToSessionId := strategyIdToSessionId - {strategy};
        rest := rest - {strategy};
      }
      assert strategies - {} == strategies;
      sessionIdToStrategyId := sessionIdToStrategyId - {session};
    }
  }
}
