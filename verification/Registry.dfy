/** The indexer's registry of chains: databases, clients, listeners and the cancels of their contexts. */
module Registry {
  import opened Tables

  /** A chain as the admin database lists it. */
  datatype AdminChain = AdminChain(chainId: nat, paused: bool, deleted: bool, endpoints: seq<string>)

  predicate IsActive(c: AdminChain) {
    !c.deleted && !c.paused && c.endpoints != []
  }

  function FirstEndpoint(c: AdminChain): string {
    if c.endpoints == [] then "" else c.endpoints[0]
  }

  /** The active chains by id; of two entries with one id the later one stands. */
  function ActiveSet(listed: seq<AdminChain>): (active: map<nat, AdminChain>)
    ensures forall id :: id in active <==> exists c :: c in listed && IsActive(c) && c.chainId == id
    ensures forall id :: id in active ==> active[id] in listed && IsActive(active[id]) && active[id].chainId == id
  {
    if listed == [] then map[]
    else
      var rest, c := ActiveSet(listed[..|listed| - 1]), listed[|listed| - 1];
      assert forall x :: x in listed <==> x in listed[..|listed| - 1] || x == c;
      if IsActive(c) then rest[c.chainId := c] else rest
  }

  /** An entry that is neither deleted nor paused, and has an endpoint, for that chain. */
  predicate IsActiveFor(c: AdminChain, id: nat) {
    c.chainId == id && !c.deleted && !c.paused && |c.endpoints| > 0
  }

  ghost predicate IsLastActive(listed: seq<AdminChain>, id: nat, i: nat) {
    i < |listed| && IsActiveFor(listed[i], id) && forall j :: i < j < |listed| ==> !IsActiveFor(listed[j], id)
  }

  lemma OneMoreEntry(listed: seq<AdminChain>, id: nat)
    requires listed != []
    ensures var n := |listed| - 1;
            var rest := ActiveSet(listed[..n]);
            if IsActiveFor(listed[n], id) then id in ActiveSet(listed) && ActiveSet(listed)[id] == listed[n]
            else id in ActiveSet(listed) ==> id in rest && ActiveSet(listed)[id] == rest[id]
  {
  }

  lemma NotLaterEither(listed: seq<AdminChain>, id: nat, i: nat)
    requires listed != [] && !IsActiveFor(listed[|listed| - 1], id) && IsLastActive(listed[..|listed| - 1], id, i)
    ensures IsLastActive(listed, id, i)
  {
    forall j | i < j < |listed| ensures !IsActiveFor(listed[j], id) {
      if j < |listed| - 1 {
        assert listed[..|listed| - 1][j] == listed[j];
      }
    }
  }

  /** Of two active entries with one id the later one stands. */
  lemma {:induction false} LastEntryStands(listed: seq<AdminChain>, id: nat) returns (i: nat)
    requires id in ActiveSet(listed)
    ensures IsLastActive(listed, id, i) && ActiveSet(listed)[id] == listed[i]
  {
    var n := |listed| - 1;
    OneMoreEntry(listed, id);
    if IsActiveFor(listed[n], id) {
      i := n;
    } else {
      i := LastEntryStands(listed[..n], id);
      NotLaterEither(listed, id, i);
    }
  }

  /** The client of a chain asks at the first endpoint of its last active entry. */
  ghost predicate AsksAtFirst(listed: seq<AdminChain>, clients: map<nat, string>, id: nat) {
    id in clients && exists i: nat :: IsLastActive(listed, id, i) && clients[id] == listed[i].endpoints[0]
  }

  lemma ActiveMeans(listed: seq<AdminChain>, id: nat)
    ensures id in ActiveSet(listed) <==> exists c :: c in listed && IsActiveFor(c, id)
  {
    if c :| c in listed && IsActiveFor(c, id) {
      assert IsActive(c) && c.chainId == id;
    }
  }

  lemma ClientMeans(listed: seq<AdminChain>, clients: map<nat, string>, id: nat)
    requires id in ActiveSet(listed) && id in clients && clients[id] == FirstEndpoint(ActiveSet(listed)[id])
    ensures AsksAtFirst(listed, clients, id)
  {
    var i := LastEntryStands(listed, id);
  }

  /** What following a list does, in the fields of its entries. */
  ghost predicate FollowsList(listed: seq<AdminChain>, addFails: nat -> bool, before: set<nat>, after: set<nat>, clients: map<nat, string>) {
    && (forall id :: id in after ==> exists c :: c in listed && IsActiveFor(c, id))
    && (forall id :: (exists c :: c in listed && IsActiveFor(c, id)) && (id in before || !addFails(id)) ==> id in after)
    && (forall id :: id in after && id !in before ==> AsksAtFirst(listed, clients, id))
  }

  lemma RediscoveryFollows(listed: seq<AdminChain>, addFails: nat -> bool, before: set<nat>, r: map<nat, string>)
    ensures var active := ActiveSet(listed);
            var gone := before - active.Keys;
            FollowsList(listed, addFails, before, Rediscovered(before, active.Keys, addFails),
                        WithClients(r - gone, active, Added(before - gone, active.Keys, addFails)))
  {
    var active := ActiveSet(listed);
    var gone := before - active.Keys;
    var after, added := Rediscovered(before, active.Keys, addFails), Added(before - gone, active.Keys, addFails);
    forall id {
      ActiveMeans(listed, id);
    }
    forall id | id in after && id !in before ensures AsksAtFirst(listed, WithClients(r - gone, active, added), id) {
      assert id in added;
      ClientMeans(listed, WithClients(r - gone, active, added), id);
    }
  }

  /** Which chains are configured after a rediscovery. */
  ghost function Rediscovered(before: set<nat>, active: set<nat>, addFails: nat -> bool): set<nat> {
    set id | id in active && (id in before || !addFails(id))
  }

  /** Exactly the active chains if no needed add fails, otherwise fewer; kept chains, and chains added, never others. */
  lemma RediscoveredIsActive(before: set<nat>, active: set<nat>, addFails: nat -> bool)
    ensures var after := Rediscovered(before, active, addFails);
            && before * active <= after <= active
            && (after == active <==> forall id :: id in active - before ==> !addFails(id))
  {
    var after := Rediscovered(before, active, addFails);
    if after == active {
      forall id | id in active - before ensures !addFails(id) {
        assert id in after;
      }
    }
  }

  ghost predicate Injective<K, V>(m: map<K, V>) {
    forall a, b :: a in m && b in m && m[a] == m[b] ==> a == b
  }

  lemma ValuesWithout<K, V>(m: map<K, V>, k: K)
    requires Injective(m) && k in m
    ensures (m - {k}).Values == m.Values - {m[k]} && Injective(m - {k})
  {
    var less := m - {k};
    forall v ensures v in less.Values <==> v in m.Values && v != m[k] {
      if v in m.Values && v != m[k] {
        var a :| a in m && m[a] == v;
        assert a in less && less[a] == v;
      }
    }
  }

  lemma ValuesWith<K, V>(m: map<K, V>, k: K, v: V)
    requires Injective(m) && k !in m && v !in m.Values
    ensures m[k := v].Values == m.Values + {v} && Injective(m[k := v])
  {
    var more := m[k := v];
    forall x ensures x in more.Values <==> x in m.Values || x == v {
      if x in m.Values {
        var a :| a in m && m[a] == x;
        assert a in more && more[a] == x;
      }
      assert more[k] == v;
    }
  }

  /** An open database pool or a listener's context. */
  type Handle = nat

  /** The chains that AddMissing configures. */
  ghost function Added(before: set<nat>, active: set<nat>, addFails: nat -> bool): set<nat> {
    set id | id in active && id !in before && !addFails(id)
  }

  lemma NoneGone(c: set<nat>, r: map<nat, string>, l: set<nat>, active: set<nat>, gone: set<nat>)
    requires gone == c - active - c
    ensures gone == {} && c - gone == c && r - gone == r && l - gone == l
  {
  }

  lemma OneMoreClientGone(r: map<nat, string>, c: set<nat>, active: set<nat>, todo: set<nat>, gone: set<nat>, id: nat)
    requires id in todo && todo <= c && gone == c - active - todo
    ensures r - (c - active - (todo - {id})) == if id in active then r - gone else r - gone - {id}
  {
    var more := c - active - (todo - {id});
    assert more == if id in active then gone else gone + {id};
  }

  lemma OneMoreGone(s: set<nat>, c: set<nat>, active: set<nat>, todo: set<nat>, gone: set<nat>, id: nat)
    requires id in todo && todo <= c && gone == c - active - todo
    ensures s - (c - active - (todo - {id})) == if id in active then s - gone else s - gone - {id}
  {
  }

  lemma OneMoreAdded(s: set<nat>, c: set<nat>, active: set<nat>, todo: set<nat>, id: nat, addFails: nat -> bool)
    requires id in todo && todo <= active
    ensures var added := Added(c, active - todo, addFails);
            && (id in c + added <==> id in c)
            && s + Added(c, active - (todo - {id}), addFails) == if id in c || addFails(id) then s + added else s + added + {id}
  {
  }

  lemma KeptAndAdded(before: set<nat>, active: set<nat>, addFails: nat -> bool)
    ensures var kept := before - (before - active);
            kept + Added(kept, active, addFails) == Rediscovered(before, active, addFails)
  {
  }

  /** The clients once the chains of added ask at their first endpoint. */
  ghost function WithClients(r: map<nat, string>, active: map<nat, AdminChain>, added: set<nat>): map<nat, string> {
    r + map id | id in added && id in active :: FirstEndpoint(active[id])
  }

  lemma OneMoreClient(r: map<nat, string>, c: set<nat>, active: map<nat, AdminChain>, todo: set<nat>, id: nat, addFails: nat -> bool)
    requires id in todo && todo <= active.Keys
    ensures var added := Added(c, active.Keys - todo, addFails);
            WithClients(r, active, Added(c, active.Keys - (todo - {id}), addFails)) ==
            if id in c || addFails(id) then WithClients(r, active, added)
            else WithClients(r, active, added)[id := FirstEndpoint(active[id])]
  {
    OneMoreAdded({}, c, active.Keys, todo, id, addFails);
  }

  lemma NoClientYet(r: map<nat, string>, c: set<nat>, active: map<nat, AdminChain>, addFails: nat -> bool)
    ensures WithClients(r, active, Added(c, active.Keys - active.Keys, addFails)) == r
  {
  }

  lemma NoneAdded(s: set<nat>, c: set<nat>, active: set<nat>, addFails: nat -> bool)
    ensures Added(c, active - active, addFails) == {} && s + Added(c, active - active, addFails) == s
  {
  }

  class Indexer {
    const autoSubscribe: bool
    var chains: map<nat, Handle>
    var rpcClients: map<nat, string>
    var listeners: map<nat, Handle>
    var cancels: map<nat, Handle>
    var openPools: set<Handle>
    var running: set<Handle>
    var next: Handle

    /**
     Over every sequence of operations: each configured chain has a client and the only open pool on it,
     and each registered listener has the cancel that stops it.
     */
    ghost predicate Valid()
      reads this
    {
      && chains.Keys <= rpcClients.Keys
      && listeners == cancels
      && Injective(chains) && openPools == chains.Values
      && Injective(listeners) && listeners.Values <= running
      && (forall h :: h in openPools || h in running ==> h < next)
    }

    /** No listener runs that nobody can stop any more. */
    ghost predicate NoStrays()
      reads this
    {
      running == listeners.Values
    }

    constructor (autoSubscribe: bool)
      ensures Valid() && NoStrays() && this.autoSubscribe == autoSubscribe
      ensures chains == map[] && rpcClients == map[] && listeners == map[]
    {
      this.autoSubscribe := autoSubscribe;
      chains, rpcClients, listeners, cancels, openPools, running, next := map[], map[], map[], map[], {}, {}, 0;
    }

    method SetRPCClient(chainId: nat, url: string)
      requires Valid()
      modifies this`rpcClients
      ensures Valid() && rpcClients == old(rpcClients)[chainId := url]
    {
      rpcClients := rpcClients[chainId := url];
    }

    /** Opens the pool and the client of a chain that is not configured; nothing changes when the pool cannot be opened. */
    method Open(chainId: nat, url: string, poolFails: bool) returns (ok: bool)
      requires Valid() && chainId !in chains
      modifies this`chains, this`rpcClients, this`openPools, this`next
      ensures Valid() && ok == !poolFails
      ensures ok ==> chains.Keys == old(chains.Keys) + {chainId} && rpcClients == old(rpcClients)[chainId := url]
      ensures !ok ==> chains == old(chains) && rpcClients == old(rpcClients)
    {
      if poolFails {
        return false;
      }
      ValuesWith(chains, chainId, next);
      openPools := openPools + {next};
      chains, rpcClients, next := chains[chainId := next], rpcClients[chainId := url], next + 1;
      ok := true;
    }

    /** A chain that exists already is an error; a sync that cannot be set up is one too, yet leaves the chain configured. */
    method AddChain(chainId: nat, url: string, poolFails: bool, syncFails: bool) returns (ok: bool)
      requires Valid()
      modifies this`chains, this`rpcClients, this`openPools, this`next
      ensures Valid()
      ensures ok <==> chainId !in old(chains) && !poolFails && !syncFails
      ensures chains.Keys == if poolFails then old(chains.Keys) else old(chains.Keys) + {chainId}
      ensures rpcClients == if chainId in old(chains) || poolFails then old(rpcClients) else old(rpcClients)[chainId := url]
    {
      if chainId in chains {
        assert old(chains.Keys) + {chainId} == old(chains.Keys);
        return false;
      }
      var opens := Open(chainId, url, poolFails);
      ok := opens && !syncFails;
    }

    /** Closes the chain's pool and drops its client; its listener stays registered and running. */
    method RemoveChain(chainId: nat)
      requires Valid()
      modifies this`chains, this`rpcClients, this`openPools
      ensures Valid()
      ensures chains == old(chains) - {chainId} && rpcClients == old(rpcClients) - {chainId}
    {
      if chainId in chains {
        ValuesWithout(chains, chainId);
        openPools := openPools - {chains[chainId]};
        chains := chains - {chainId};
      }
      rpcClients := rpcClients - {chainId};
    }

    /** Adds a chain and, when subscribing automatically, starts its listener; a failed sync is only logged. */
    method AddChainLocked(chainId: nat, url: string, poolFails: bool) returns (ok: bool)
      requires Valid() && chainId !in chains
      modifies this
      ensures Valid() && ok == !poolFails
      ensures !ok ==> chains == old(chains) && rpcClients == old(rpcClients) && listeners == old(listeners) && running == old(running)
      ensures ok ==>
              && chains.Keys == old(chains.Keys) + {chainId} && rpcClients == old(rpcClients)[chainId := url]
              && listeners.Keys == old(listeners.Keys) + (if autoSubscribe then {chainId} else {})
      ensures forall id :: id in old(listeners) && id != chainId ==> id in listeners && listeners[id] == old(listeners)[id]
      ensures old(NoStrays()) ==> (NoStrays() <==> !(ok && autoSubscribe && chainId in old(listeners)))
    {
      ok := Open(chainId, url, poolFails);
      if ok && autoSubscribe {
        var h := next;
        next := next + 1;
        running := running + {h};
        ghost var others := listeners - {chainId};
        if chainId in listeners {
          ValuesWithout(listeners, chainId);
        } else {
          assert others == listeners;
        }
        ValuesWith(others, chainId, h);
        assert listeners[chainId := h] == others[chainId := h];
        cancels, listeners := cancels[chainId := h], listeners[chainId := h];
      }
    }

    /** Removes a chain together with its listener, which is stopped. */
    method RemoveChainLocked(chainId: nat)
      requires Valid()
      modifies this
      ensures Valid()
      ensures chains.Keys == old(chains.Keys) - {chainId} && rpcClients == old(rpcClients) - {chainId}
      ensures listeners.Keys == old(listeners.Keys) - {chainId}
      ensures old(NoStrays()) ==> NoStrays()
    {
      RemoveChain(chainId);
      if chainId in cancels {
        ValuesWithout(listeners, chainId);
        running := running - {cancels[chainId]};
        cancels := cancels - {chainId};
      }
      if chainId in listeners {
        listeners := listeners - {chainId};
      }
    }

    /** Which chains are configured, where their clients ask, and which have a listener. */
    ghost predicate Has(c: set<nat>, r: map<nat, string>, l: set<nat>)
      reads this
    {
      chains.Keys == c && rpcClients == r && listeners.Keys == l
    }

    /** Removes, in any order, the configured chains that are not active. */
    method RemoveInactive(active: set<nat>)
      requires Valid()
      modifies this
      ensures Valid() && (old(NoStrays()) ==> NoStrays())
      ensures var gone := old(chains.Keys) - active;
              Has(old(chains.Keys) - gone, old(rpcClients) - gone, old(listeners.Keys) - gone)
    {
      ghost var c, r, l, tidy := chains.Keys, rpcClients, listeners.Keys, NoStrays();
      var todo := chains.Keys;
      ghost var gone := c - active - todo;
      NoneGone(c, r, l, active, gone);
      while todo != {}
        invariant Valid() && (tidy ==> NoStrays())
        invariant todo <= c && gone == c - active - todo && Has(c - gone, r - gone, l - gone)
        decreases todo
      {
        var chainId :| chainId in todo;
        OneMoreGone(c, c, active, todo, gone, chainId);
        OneMoreClientGone(r, c, active, todo, gone, chainId);
        OneMoreGone(l, c, active, todo, gone, chainId);
        todo := todo - {chainId};
        if chainId !in active {
          RemoveChainLocked(chainId);
        }
        gone := c - active - todo;
      }
      assert gone == c - active;
    }

    /** One turn of the loop below. */
    method AddUnlessThere(chainId: nat, url: string, addFails: bool)
      requires Valid()
      modifies this
      ensures Valid()
      ensures if chainId in old(chains) || addFails then Has(old(chains.Keys), old(rpcClients), old(listeners.Keys))
              else Has(old(chains.Keys) + {chainId}, old(rpcClients)[chainId := url],
                           if autoSubscribe then old(listeners.Keys) + {chainId} else old(listeners.Keys))
      ensures old(NoStrays()) && (chainId in old(listeners) ==> chainId in old(chains)) ==> NoStrays()
    {
      if chainId !in chains {
        var ok := AddChainLocked(chainId, url, addFails);
      }
    }

    /** Adds, in any order, the active chains that are not configured; a failing add is logged and skipped. */
    method AddMissing(active: map<nat, AdminChain>, addFails: nat -> bool)
      requires Valid() && forall id :: id in active ==> IsActive(active[id])
      modifies this
      ensures Valid()
      ensures var added := Added(old(chains.Keys), active.Keys, addFails);
              Has(old(chains.Keys) + added, WithClients(old(rpcClients), active, added),
                      if autoSubscribe then old(listeners.Keys) + added else old(listeners.Keys))
      ensures old(NoStrays()) && old(listeners.Keys) <= old(chains.Keys) ==> NoStrays()
    {
      ghost var c, r, l, tidy := chains.Keys, rpcClients, listeners.Keys, NoStrays() && listeners.Keys <= chains.Keys;
      var todo := active.Keys;
      ghost var added := Added(c, active.Keys - todo, addFails);
      NoneAdded(c, c, active.Keys, addFails);
      NoClientYet(r, c, active, addFails);
      NoneAdded(l, c, active.Keys, addFails);
      while todo != {}
        invariant Valid() && (tidy ==> NoStrays() && l <= c)
        invariant todo <= active.Keys && added == Added(c, active.Keys - todo, addFails)
        invariant Has(c + added, WithClients(r, active, added), if autoSubscribe then l + added else l)
        decreases todo
      {
        var chainId :| chainId in todo;
        OneMoreAdded(c, c, active.Keys, todo, chainId, addFails);
        OneMoreClient(r, c, active, todo, chainId, addFails);
        OneMoreAdded(l, c, active.Keys, todo, chainId, addFails);
        todo := todo - {chainId};
        AddUnlessThere(chainId, active[chainId].endpoints[0], addFails(chainId));
        added := Added(c, active.Keys - todo, addFails);
      }
      assert active.Keys - todo == active.Keys;
    }

    /** Makes the configured chains follow the admin database's list; without a list nothing changes. */
    method Rediscover(listed: Option<seq<AdminChain>>, addFails: nat -> bool) returns (ok: bool)
      requires Valid()
      modifies this
      ensures Valid() && ok == listed.Some?
      ensures !ok ==> chains == old(chains) && rpcClients == old(rpcClients) && listeners == old(listeners) && running == old(running)
      ensures ok ==> chains.Keys == Rediscovered(old(chains.Keys), ActiveSet(listed.value).Keys, addFails)
      ensures ok ==> var active := ActiveSet(listed.value);
                     var gone := old(chains.Keys) - active.Keys;
                     var added := Added(old(chains.Keys) - gone, active.Keys, addFails);
                     Has(old(chains.Keys) - gone + added, WithClients(old(rpcClients) - gone, active, added),
                         if autoSubscribe then old(listeners.Keys) - gone + added else old(listeners.Keys) - gone)
      ensures ok ==> FollowsList(listed.value, addFails, old(chains.Keys), chains.Keys, rpcClients)
      ensures old(NoStrays()) && old(listeners.Keys) <= old(chains.Keys) ==> NoStrays() && listeners.Keys <= chains.Keys
    {
      if listed.None? {
        return false;
      }
      var active := ActiveSet(listed.value);
      RemoveInactive(active.Keys);
      AddMissing(active, addFails);
      KeptAndAdded(old(chains.Keys), active.Keys, addFails);
      RediscoveryFollows(listed.value, addFails, old(chains.Keys), old(rpcClients));
      ok := true;
    }

    /** Cancels every registered listener. */
    method CloseListeners()
      requires Valid()
      modifies this`cancels, this`listeners, this`running
      ensures Valid() && listeners == map[]
      ensures running == old(running) - old(listeners).Values
    {
      ghost var all := listeners.Values;
      while cancels != map[]
        invariant Injective(cancels) && cancels.Values <= all && running == old(running) - (all - cancels.Values)
        decreases |cancels|
      {
        var chainId :| chainId in cancels;
        ValuesWithout(cancels, chainId);
        running := running - {cancels[chainId]};
        cancels := cancels - {chainId};
      }
      listeners := map[];
    }

    /** Stops every registered listener and closes every pool; the clients stay. */
    method Close()
      requires Valid()
      modifies this
      ensures Valid() && chains == map[] && listeners == map[] && openPools == {} && rpcClients == old(rpcClients)
      ensures running == old(running) - old(listeners).Values
    {
      CloseListeners();
      while chains != map[]
        invariant Injective(chains) && openPools == chains.Values
        invariant unchanged(`rpcClients) && listeners == cancels == map[]
        invariant running == old(running) - old(listeners).Values && forall h :: h in running ==> h < next
        decreases |chains|
      {
        var chainId :| chainId in chains;
        ValuesWithout(chains, chainId);
        openPools := openPools - {chains[chainId]};
        chains := chains - {chainId};
      }
    }
  }

  // ================================================================ every sequence of operations

  datatype Op =
    | SetClient(chainId: nat, url: string)
    | Add(chainId: nat, url: string, poolFails: bool, syncFails: bool)
    | Remove(chainId: nat)
    | Discover(listed: Option<seq<AdminChain>>, addFails: nat -> bool)
    | CloseAll

  ghost predicate AllAddsSucceed(addFails: nat -> bool) {
    forall id :: !addFails(id)
  }

  /** A chain list that was read is followed: fully when no add fails, and never exceeded. */
  ghost predicate Follows(chains: set<nat>, op: Op) {
    op.Discover? && op.listed.Some? ==>
      var active := ActiveSet(op.listed.value).Keys;
      chains <= active && (AllAddsSucceed(op.addFails) ==> chains == active)
  }

  /** Performs one operation. */
  method PerformOne(idx: Indexer, op: Op)
    requires idx.Valid()
    modifies idx
    ensures idx.Valid() && Follows(idx.chains.Keys, op)
    ensures old(idx.NoStrays() && idx.listeners.Keys <= idx.chains.Keys) && !op.Remove? ==>
            idx.NoStrays() && idx.listeners.Keys <= idx.chains.Keys
  {
    match op {
      case SetClient(chainId, url) => idx.SetRPCClient(chainId, url);
      case Add(chainId, url, poolFails, syncFails) => var ok := idx.AddChain(chainId, url, poolFails, syncFails);
      case Remove(chainId) => idx.RemoveChain(chainId);
      case Discover(listed, addFails) =>
        ghost var before := idx.chains.Keys;
        var ok := idx.Rediscover(listed, addFails);
        if ok {
          RediscoveredIsActive(before, ActiveSet(listed.value).Keys, addFails);
        }
      case CloseAll => idx.Close();
    }
  }

  /** Performs any sequence of operations. Without RemoveChain in it every running listener can be stopped. */
  method Perform(idx: Indexer, ops: seq<Op>)
    requires idx.Valid() && idx.NoStrays() && idx.listeners.Keys <= idx.chains.Keys
    modifies idx
    ensures idx.Valid()
    ensures (forall op :: op in ops ==> !op.Remove?) ==> idx.NoStrays() && idx.listeners.Keys <= idx.chains.Keys
    ensures ops != [] ==> Follows(idx.chains.Keys, ops[|ops| - 1])
  {
    for i := 0 to |ops|
      invariant idx.Valid()
      invariant (forall op :: op in ops[..i] ==> !op.Remove?) ==> idx.NoStrays() && idx.listeners.Keys <= idx.chains.Keys
      invariant i > 0 ==> Follows(idx.chains.Keys, ops[i - 1])
    {
      assert forall op :: op in ops[..i + 1] <==> op in ops[..i] || op == ops[i];
      PerformOne(idx, ops[i]);
    }
    assert ops[..|ops|] == ops;
  }

  /**
   With RemoveChain a listener can be lost: removing a chain and discovering it again, at any address, leaves
   a listener running that nobody can stop exactly when the chain had one and gets another.
   */
  method RemoveChainLosesListener(idx: Indexer, chainId: nat, url: string)
    requires idx.Valid() && idx.NoStrays()
    modifies idx
    ensures idx.Valid() && chainId in idx.chains
    ensures idx.NoStrays() <==> !(idx.autoSubscribe && chainId in old(idx.listeners))
  {
    idx.RemoveChain(chainId);
    var ok := idx.AddChainLocked(chainId, url, false);
  }
}
