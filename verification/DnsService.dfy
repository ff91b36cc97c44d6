/**
 The router and the transport manager together: the manager's invariants are what the router's
 guarantee about fakeip servers rests on.
 */
module DnsService {
  import opened Basics
  import opened DnsRule
  import opened DnsExchange
  import opened DnsRouter
  import TransportManager

  /** What the router sees of its surroundings, with the manager's transports. */
  function Surroundings(env: Env, manager: TransportManager.Manager): Env
    requires manager.defaultServer != null
    reads manager
  {
    env.(table := TransportManager.TableOf(manager.serverByTag),
        fallback := TransportManager.ViewOf(manager.defaultServer))
  }

  /**
   A lookup through the manager's transports, its server not chosen by the caller: no query goes to
   a fakeip server, in either mode and whatever the rules say.
   */
  method Resolve(router: Router, manager: TransportManager.Manager, env4: Env, env6: Env, options: QueryOptions,
      history4: seq<Query>, history6: seq<Query>)
    returns (r: LookupResult, sent: seq<Query>)
    requires router.Valid()
    requires manager.Valid() && manager.DefaultIsReal() && manager.defaultServer != null
    requires env4.strategy == router.defaultStrategy
    requires router.started ==> router.builtWith == TransportManager.TableOf(manager.serverByTag)
    ensures NoFakeIp(sent)
    ensures router.closing <==> r == LookupClosed
  {
    r, sent := router.Lookup(Surroundings(env4, manager), Surroundings(env6, manager), None, options, history4,
        history6);
  }
}
