/**
 * The Steam platform service `CService`: the part of its state that its
 * inline methods read and write. Listener and subsystem identities are
 * object identities, as the pointers the service stores are.
 */
module SteamService {
  import opened Wrappers
  import opened Listeners
  import ServiceCalls

  /** An external observer, registered by reference (IListener). */
  class Listener {}

  /** The service's owned subsystem modules, seen only by identity. */
  class Statistics {}
  class Leaderboards {}
  class RemoteStorage {}
  class Matchmaking {}
  class Networking {}
  class Server {}

  /** The connection status this service reports. The enumeration is declared
      in IPlatformService.h, which is not part of this model: Connected is the
      one enumerator the service names, and Disconnected stands for the rest. */
  datatype ConnectionStatus = Disconnected | Connected

  class Service {
    // Owned subsystem slots; None is an empty unique_ptr.
    var statistics: Option<Statistics>
    var leaderboards: Option<Leaderboards>
    var remoteStorage: Option<RemoteStorage>
    var matchmaking: Option<Matchmaking>
    var networking: Option<Networking>
    var server: Option<Server>

    var awaitingCallbacks: int
    var listeners: seq<Listener>

    /** The listener list and the counter, as one value. */
    function State(): ServiceCalls.Bookkeeping<Listener>
      reads this
    {
      ServiceCalls.Bookkeeping(listeners, awaitingCallbacks)
    }

    /** The service's real constructor is not part of this model, so every
        field's initial value is a parameter. */
    constructor (listeners: seq<Listener>, awaitingCallbacks: int,
                 statistics: Option<Statistics>, leaderboards: Option<Leaderboards>,
                 remoteStorage: Option<RemoteStorage>, matchmaking: Option<Matchmaking>,
                 networking: Option<Networking>, server: Option<Server>)
      ensures this.listeners == listeners && this.awaitingCallbacks == awaitingCallbacks
      ensures this.statistics == statistics && this.leaderboards == leaderboards
      ensures this.remoteStorage == remoteStorage && this.matchmaking == matchmaking
      ensures this.networking == networking && this.server == server
    {
      this.listeners := listeners;
      this.awaitingCallbacks := awaitingCallbacks;
      this.statistics := statistics;
      this.leaderboards := leaderboards;
      this.remoteStorage := remoteStorage;
      this.matchmaking := matchmaking;
      this.networking := networking;
      this.server := server;
    }

    /** Registers `listener` at the end of the list, even when it is already there. */
    method AddListener(listener: Listener)
      modifies this`listeners
      ensures listeners == old(listeners) + [listener]
      ensures |listeners| == |old(listeners)| + 1
      ensures multiset(listeners)[listener] == multiset(old(listeners))[listener] + 1
      ensures State() == ServiceCalls.Apply(old(State()), ServiceCalls.Add(listener))
    {
      listeners := listeners + [listener];
    }

    /** Unregisters the first entry equal to `listener`; a listener that is not
        registered is ignored. */
    method RemoveListener(listener: Listener)
      modifies this`listeners
      ensures listener !in old(listeners) ==> listeners == old(listeners)
      ensures listener in old(listeners) ==>
                exists i :: 0 <= i < |old(listeners)| && old(listeners)[i] == listener &&
                  listener !in old(listeners)[..i] &&
                  listeners == old(listeners)[..i] + old(listeners)[i + 1..]
      ensures listener in old(listeners) ==> |listeners| == |old(listeners)| - 1
      ensures multiset(listeners) == multiset(old(listeners)) - multiset{listener}
      ensures State() == ServiceCalls.Apply(old(State()), ServiceCalls.Remove(listener))
    {
      // std::find: the first position holding `listener`, or the end.
      var i := 0;
      while i < |listeners| && listeners[i] != listener
        invariant i <= |listeners|
        invariant forall k :: 0 <= k < i ==> listeners[k] != listener
      {
        i := i + 1;
      }
      assert i == FindIndex(listeners, listener);
      if i < |listeners| {
        assert listener !in listeners[..i];
        EraseAt(listeners, i);
        listeners := listeners[..i] + listeners[i + 1..];
      }
    }

    /** Adds a signed `awaiting` to the pending-callback counter, unclamped. */
    method SetAwaitingCallback(awaiting: int)
      modifies this`awaitingCallbacks
      ensures awaitingCallbacks == old(awaitingCallbacks) + awaiting
      ensures State() == ServiceCalls.Apply(old(State()), ServiceCalls.Adjust(awaiting))
    {
      awaitingCallbacks := awaitingCallbacks + awaiting;
    }

    method GetLocalServer() returns (r: Option<Server>)
      ensures r == server
    {
      r := server;
    }

    method GetLeaderboards() returns (r: Option<Leaderboards>)
      ensures r == leaderboards
    {
      r := leaderboards;
    }

    method GetStatistics() returns (r: Option<Statistics>)
      ensures r == statistics
    {
      r := statistics;
    }

    method GetRemoteStorage() returns (r: Option<RemoteStorage>)
      ensures r == remoteStorage
    {
      r := remoteStorage;
    }

    method GetMatchmaking() returns (r: Option<Matchmaking>)
      ensures r == matchmaking
    {
      r := matchmaking;
    }

    method GetNetworking() returns (r: Option<Networking>)
      ensures r == networking
    {
      r := networking;
    }

    /** Steam reports itself as connected whatever its state. */
    method GetConnectionStatus() returns (status: ConnectionStatus)
      ensures status == Connected
    {
      status := Connected;
    }

    /** The caller's callback is invoked once, synchronously, with `true`;
        `authorizations` lists the arguments of its invocations in order. */
    method CanAccessMultiplayerServices() returns (authorizations: seq<bool>)
      ensures authorizations == [true]
    {
      authorizations := [true];
    }
  }
}
