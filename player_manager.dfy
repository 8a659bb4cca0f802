/**
 * `AbstractPlayerManager`: the cache of online players by UUID and its lookups. The lookups by
 * name scan the cached players in the map's (unspecified) iteration order and return the first
 * whose name matches. Filling the cache is done by platform event listeners and is not part of
 * this class.
 */
module PlayerManagers {
  import opened Wrappers
  import opened JavaStrings
  import opened MapViews

  /** A `java.util.UUID`: its two 64-bit halves. */
  datatype Uuid = Uuid(mostSigBits: int, leastSigBits: int)

  /** Some cached player is named `username` exactly (`String.equals`). */
  predicate HasNamed<P>(cached: map<Uuid, P>, nameOf: P -> string, username: string) {
    exists u | u in cached :: nameOf(cached[u]) == username
  }

  /** Some cached player is named `username` ignoring case (`String.equalsIgnoreCase`). */
  predicate HasNamedIgnoreCase<P>(cached: map<Uuid, P>, nameOf: P -> string, username: string) {
    exists u | u in cached :: EqualsIgnoreCase(nameOf(cached[u]), username)
  }

  class PlayerManager<P(==), B, N> {
    var cachedPlayers: map<Uuid, P>
    /** `uuidGetter`: the UUID of a platform player. */
    const uuidGetter: B -> Uuid
    /** `EnvyPlayer.getName`. */
    const nameOf: P -> string
    var nameStore: Option<N>

    constructor (uuidGetter: B -> Uuid, nameOf: P -> string)
      ensures this.uuidGetter == uuidGetter && this.nameOf == nameOf
      ensures cachedPlayers == map[] && nameStore.None?
    {
      this.uuidGetter := uuidGetter;
      this.nameOf := nameOf;
      cachedPlayers := map[];
      nameStore := None;
    }

    /** `getPlayer(UUID)`: null for a null UUID, otherwise the cached player if any. */
    method GetPlayerById(uuid: Option<Uuid>) returns (r: Option<P>)
      ensures uuid.None? ==> r.None?
      ensures uuid.Some? ==> (r.Some? <==> uuid.value in cachedPlayers)
      ensures r.Some? ==> uuid.Some? && r.value == cachedPlayers[uuid.value]
    {
      if uuid.None? {
        return None;
      }
      if uuid.value !in cachedPlayers {
        return None;
      }
      return Some(cachedPlayers[uuid.value]);
    }

    /** `getPlayer(B)`: null for a null player, otherwise the lookup of its UUID. */
    method GetPlayer(player: Option<B>) returns (r: Option<P>)
      ensures player.None? ==> r.None?
      ensures player.Some? ==> (r.Some? <==> uuidGetter(player.value) in cachedPlayers)
      ensures r.Some? ==> player.Some? && r.value == cachedPlayers[uuidGetter(player.value)]
    {
      if player.None? {
        return None;
      }
      r := GetPlayerById(Some(uuidGetter(player.value)));
    }

    /** `getOnlinePlayer`: a cached player named exactly `username`, or null when there is none. */
    method GetOnlinePlayer(username: string) returns (r: Option<P>)
      ensures r.Some? <==> HasNamed(cachedPlayers, nameOf, username)
      ensures r.Some? ==> exists u | u in cachedPlayers :: cachedPlayers[u] == r.value && nameOf(r.value) == username
    {
      var rest := cachedPlayers.Keys;
      while rest != {}
        invariant rest <= cachedPlayers.Keys
        invariant forall u | u in cachedPlayers && u !in rest :: nameOf(cachedPlayers[u]) != username
        decreases |rest|
      {
        var u :| u in rest;
        if nameOf(cachedPlayers[u]) == username {
          return Some(cachedPlayers[u]);
        }
        rest := rest - {u};
      }
      return None;
    }

    /** `getOnlinePlayerCaseInsensitive`: as `getOnlinePlayer` with `equalsIgnoreCase`. */
    method GetOnlinePlayerCaseInsensitive(username: string) returns (r: Option<P>)
      ensures r.Some? <==> HasNamedIgnoreCase(cachedPlayers, nameOf, username)
      ensures r.Some? ==> exists u | u in cachedPlayers :: cachedPlayers[u] == r.value && EqualsIgnoreCase(nameOf(r.value), username)
    {
      var rest := cachedPlayers.Keys;
      while rest != {}
        invariant rest <= cachedPlayers.Keys
        invariant forall u | u in cachedPlayers && u !in rest :: !EqualsIgnoreCase(nameOf(cachedPlayers[u]), username)
        decreases |rest|
      {
        var u :| u in rest;
        if EqualsIgnoreCase(nameOf(cachedPlayers[u]), username) {
          return Some(cachedPlayers[u]);
        }
        rest := rest - {u};
      }
      return None;
    }

    /** `getOnlinePlayers`: a copy of the cached players, one per UUID. */
    method GetOnlinePlayers() returns (players: seq<P>, ghost order: seq<Uuid>)
      ensures Enumerates(order, cachedPlayers.Keys) && |order| == |players|
      ensures |players| == |cachedPlayers|
      ensures forall i | 0 <= i < |players| :: order[i] in cachedPlayers && players[i] == cachedPlayers[order[i]]
      ensures forall p :: p in players <==> p in cachedPlayers.Values
    {
      players, order := Values(cachedPlayers);
    }

    method GetNameStore() returns (r: Option<N>)
      ensures r == nameStore
    {
      r := nameStore;
    }

    method SetNameStore(store: Option<N>)
      modifies this`nameStore
      ensures nameStore == store
    {
      nameStore := store;
    }
  }

  /** An exact-name match is also a case-insensitive one, so the case-insensitive lookup finds someone whenever the exact one does. */
  lemma ExactMatchImpliesIgnoreCase<P>(cached: map<Uuid, P>, nameOf: P -> string, username: string)
    requires HasNamed(cached, nameOf, username)
    ensures HasNamedIgnoreCase(cached, nameOf, username)
  {
    var u :| u in cached && nameOf(cached[u]) == username;
    EqualsIgnoreCaseReflexive(username);
  }
}
