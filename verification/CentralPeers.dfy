/**
 Central's manual peers over whole runs of its management requests: the map that refreshes use
 is always the configuration list, read with the last entry of an address counting.
 */
module CentralPeers {
  import opened Types
  import opened PeerMerge
  import opened PeerRefresh
  import opened PeerCollector

  /** `settings` stands for the sections that say nothing about manual peers. */
  datatype CentralConfig = CentralConfig(settings: string, peers: seq<ConfigPeer>)

  datatype PeerRequest =
    | AddPeer(name: string, address: string, port: int)
    | RemovePeer(address: string)
    | Reload

  datatype Outcome = Done | BadRequest | SaveFailed | NotFound | RollbackFailed | LoadFailed

  // The configuration list

  function WithoutPeer(ps: seq<ConfigPeer>, address: string): seq<ConfigPeer> {
    if ps == [] then []
    else
      var before := WithoutPeer(ps[..|ps| - 1], address);
      if ps[|ps| - 1].address != address then before + [ps[|ps| - 1]] else before
  }

  lemma LastAppended(ps: seq<ConfigPeer>, p: ConfigPeer, address: string)
    ensures LastPeer(ps + [p], address) == if p.address == address then Some(p) else LastPeer(ps, address)
  {
    assert (ps + [p])[..|ps|] == ps;
  }

  /** Removing an address takes all its entries out and no others; if there were none, nothing
      changes. */
  lemma {:induction false} LastWithout(ps: seq<ConfigPeer>, gone: string, address: string)
    ensures LastPeer(WithoutPeer(ps, gone), address) == if address == gone then None else LastPeer(ps, address)
    ensures LastPeer(ps, gone).None? ==> WithoutPeer(ps, gone) == ps
    decreases |ps|
  {
    if ps != [] {
      var before, last := ps[..|ps| - 1], ps[|ps| - 1];
      LastWithout(before, gone, address);
      if last.address != gone {
        LastAppended(WithoutPeer(before, gone), last, address);
      }
    }
  }

  /** All other entries are kept, each as often and in the order it was. */
  lemma {:induction false} WithoutPeerKeepsOthers(ps: seq<ConfigPeer>, gone: string, p: ConfigPeer)
    ensures multiset(WithoutPeer(ps, gone))[p] == if p.address == gone then 0 else multiset(ps)[p]
    decreases |ps|
  {
    if ps != [] {
      WithoutPeerKeepsOthers(ps[..|ps| - 1], gone, p);
      assert ps == ps[..|ps| - 1] + [ps[|ps| - 1]];
    }
  }

  lemma {:induction false} WithoutPeerJoin(ps: seq<ConfigPeer>, qs: seq<ConfigPeer>, gone: string)
    ensures WithoutPeer(ps + qs, gone) == WithoutPeer(ps, gone) + WithoutPeer(qs, gone)
    decreases |qs|
  {
    if qs == [] {
      assert ps + qs == ps;
    } else {
      assert (ps + qs)[..|ps + qs| - 1] == ps + qs[..|qs| - 1];
      WithoutPeerJoin(ps, qs[..|qs| - 1], gone);
    }
  }

  method FilterManualPeers(ps: seq<ConfigPeer>, address: string) returns (out: seq<ConfigPeer>)
    ensures out == WithoutPeer(ps, address)
  {
    out := [];
    for i := 0 to |ps|
      invariant out == WithoutPeer(ps[..i], address)
    {
      assert ps[..i + 1][..i] == ps[..i];
      if ps[i].address != address {
        out := out + [ps[i]];
      }
    }
    assert ps[..|ps|] == ps;
  }

  method CloneCentralConfig(cfg: CentralConfig) returns (out: CentralConfig)
    ensures out == cfg
  {
    var ps := new ConfigPeer[|cfg.peers|];
    for i := 0 to |cfg.peers|
      invariant ps[..i] == cfg.peers[..i]
    {
      ps[i] := ConfigPeer(cfg.peers[i].name, cfg.peers[i].address, cfg.peers[i].port);
    }
    out := CentralConfig(cfg.settings, ps[..]);
  }

  /** A manual peer, whether it came from the file or by hand. */
  function Plain(mp: Option<ManualPeer>): Option<ConfigPeer> {
    if mp.Some? then Some(ConfigPeer(mp.value.name, mp.value.address, mp.value.port)) else None
  }

  /** The map says what the list says. */
  ghost predicate Mirrors(manual: map<string, ManualPeer>, ps: seq<ConfigPeer>) {
    forall addr :: Plain(Find(manual, addr)) == LastPeer(ps, addr)
  }

  lemma AddMirrors(manual: map<string, ManualPeer>, ps: seq<ConfigPeer>, p: ConfigPeer)
    requires Mirrors(manual, ps)
    ensures Mirrors(manual[p.address := ToManual(p, false)], ps + [p])
  {
    forall addr
      ensures Plain(Find(manual[p.address := ToManual(p, false)], addr)) == LastPeer(ps + [p], addr)
    {
      LastAppended(ps, p, addr);
      assert Plain(Find(manual, addr)) == LastPeer(ps, addr);
    }
  }

  lemma RemoveMirrors(manual: map<string, ManualPeer>, ps: seq<ConfigPeer>, gone: string)
    requires Mirrors(manual, ps)
    ensures Mirrors(manual - {gone}, WithoutPeer(ps, gone))
    ensures gone !in manual ==> WithoutPeer(ps, gone) == ps
  {
    LastWithout(ps, gone, gone);
    assert Plain(Find(manual, gone)) == LastPeer(ps, gone);
    forall addr
      ensures Plain(Find(manual - {gone}, addr)) == LastPeer(WithoutPeer(ps, gone), addr)
    {
      LastWithout(ps, gone, addr);
      assert Plain(Find(manual, addr)) == LastPeer(ps, addr);
    }
  }

  /** Peers added by hand whose address a list does not name: a reload of that list keeps them. */
  ghost predicate LeftOver(manual: map<string, ManualPeer>, ps: seq<ConfigPeer>, addr: string) {
    addr in manual && !manual[addr].fromConfig && LastPeer(ps, addr).None?
  }

  /** Replacing the peers from the file makes the map mirror the new list exactly when no peer
      added by hand is left over. */
  lemma ReplaceMirrorsIff(before: map<string, ManualPeer>, after: map<string, ManualPeer>, ps: seq<ConfigPeer>)
    requires forall addr :: Find(after, addr) ==
               if LastPeer(ps, addr).Some? then Some(ToManual(LastPeer(ps, addr).value, true))
               else ByHand(Find(before, addr))
    ensures Mirrors(after, ps) <==> forall addr :: !LeftOver(before, ps, addr)
  {
    forall addr
      ensures Plain(Find(after, addr)) == LastPeer(ps, addr) <==> !LeftOver(before, ps, addr)
    {
      assert Find(after, addr) == if LastPeer(ps, addr).Some? then Some(ToManual(LastPeer(ps, addr).value, true))
                                  else ByHand(Find(before, addr));
    }
  }

  lemma MirrorLeavesNothingOver(manual: map<string, ManualPeer>, ps: seq<ConfigPeer>)
    requires Mirrors(manual, ps)
    ensures forall addr :: !LeftOver(manual, ps, addr)
  {
    forall addr
      ensures !LeftOver(manual, ps, addr)
    {
      assert Plain(Find(manual, addr)) == LastPeer(ps, addr);
    }
  }

  // Runs

  /** The list that a request asks for. */
  function AfterRequest(ps: seq<ConfigPeer>, req: PeerRequest): seq<ConfigPeer> {
    match req
    case AddPeer(name, address, port) => ps + [ConfigPeer(name, address, port)]
    case RemovePeer(address) => WithoutPeer(ps, address)
    case Reload => ps
  }

  /** The list after a run: the requests that were done, in order. */
  function AfterRequests(ps: seq<ConfigPeer>, reqs: seq<PeerRequest>, outcomes: seq<Outcome>): seq<ConfigPeer>
    requires |reqs| == |outcomes|
  {
    if reqs == [] then ps
    else
      var last := |reqs| - 1;
      var before := AfterRequests(ps, reqs[..last], outcomes[..last]);
      if outcomes[last].Done? then AfterRequest(before, reqs[last]) else before
  }

  lemma RequestsSnoc(ps: seq<ConfigPeer>, reqs: seq<PeerRequest>, i: nat, outcomes: seq<Outcome>, outcome: Outcome)
    requires i < |reqs| && |outcomes| == i
    ensures
      var before := AfterRequests(ps, reqs[..i], outcomes);
      AfterRequests(ps, reqs[..i + 1], outcomes + [outcome]) ==
      if outcome.Done? then AfterRequest(before, reqs[i]) else before
  {
    assert reqs[..i + 1][..i] == reqs[..i] && (outcomes + [outcome])[..i] == outcomes;
  }

  /** The failure is reachable: a peer is added by hand, the file is edited by somebody else so
      that it no longer names the peer, and a reload keeps it in the map all the same. */
  method EditedFileLeavesOver(central: Central, p: ConfigPeer, edited: CentralConfig)
    returns (added: Outcome, reloaded: Outcome)
    requires central.hasFile && central.InSync() && p.address != "" && 0 <= p.port <= 65535
    requires LastPeer(edited.peers, p.address).None?
    modifies central, central.col`manualPeers
    ensures added.Done? || added.SaveFailed?
    ensures added.Done? ==>
              && reloaded.Done? && central.cfg == edited && !central.InSync()
              && Find(central.col.manualPeers, p.address) == Some(ToManual(p, false))
  {
    added := central.Add(p.name, p.address, p.port);
    central.disk := edited;
    ghost var before := central.col.manualPeers;
    reloaded := central.Reload(true);
    assert added.Done? ==> LeftOver(before, edited.peers, p.address);
  }

  class Central {
    const col: Collector
    const hasFile: bool
    var cfg: CentralConfig
    /** The configuration file, as its last successful save left it. */
    var disk: CentralConfig

    constructor (col: Collector, hasFile: bool, cfg: CentralConfig)
      requires col.manualPeers == map[]
      modifies col
      ensures this.col == col && this.hasFile == hasFile && this.cfg == cfg && disk == cfg
      ensures InSync() && KeyedByAddress(col.manualPeers)
    {
      this.col, this.hasFile, this.cfg, disk := col, hasFile, cfg, cfg;
      new;
      col.ReplaceConfigPeers(cfg.peers);
      ReplaceMirrorsIff(map[], col.manualPeers, cfg.peers);
    }

    function Stored(): seq<ConfigPeer>
      reads this
    {
      if hasFile then disk.peers else cfg.peers
    }

    /** File, memory and the collector's map say the same. */
    ghost predicate InSync()
      reads this, col
    {
      Stored() == cfg.peers && Mirrors(col.manualPeers, cfg.peers)
    }

    method SaveCentralConfig(next: CentralConfig) returns (ok: bool)
      modifies `disk
      ensures !hasFile ==> ok && disk == old(disk)
      ensures hasFile ==> disk == if ok then next else old(disk)
    {
      if !hasFile {
        return true;
      }
      ok := *;
      if ok {
        disk := next;
      }
    }

    method Add(name: string, address: string, port: int) returns (outcome: Outcome)
      modifies this, col`manualPeers
      ensures outcome.BadRequest? <==> address == "" || !(0 <= port <= 65535)
      ensures outcome.BadRequest? || outcome.SaveFailed? || outcome.Done?
      ensures outcome.Done? ==>
                && cfg.peers == old(cfg.peers) + [ConfigPeer(name, address, port)] && Stored() == cfg.peers
                && col.manualPeers == old(col.manualPeers)[address := ManualPeer(name, address, port, false)]
      ensures !outcome.Done? ==> cfg == old(cfg) && disk == old(disk) && col.manualPeers == old(col.manualPeers)
      ensures old(InSync()) ==> InSync()
      ensures old(KeyedByAddress(col.manualPeers)) ==> KeyedByAddress(col.manualPeers)
    {
      if address == "" {
        return BadRequest;
      }
      if port < 0 || port > 65535 {
        return BadRequest;
      }
      var nextCfg := CloneCentralConfig(cfg);
      nextCfg := nextCfg.(peers := nextCfg.peers + [ConfigPeer(name, address, port)]);
      var ok := SaveCentralConfig(nextCfg);
      if !ok {
        return SaveFailed;
      }
      if old(InSync()) { AddMirrors(col.manualPeers, cfg.peers, ConfigPeer(name, address, port)); }
      col.AddManualPeer(ManualPeer(name, address, port, false));
      cfg := nextCfg;
      return Done;
    }

    method Remove(address: string) returns (outcome: Outcome)
      modifies this, col`manualPeers
      ensures outcome.Done? || outcome.SaveFailed? || outcome.NotFound? || outcome.RollbackFailed?
      ensures outcome.Done? ==>
                && cfg.peers == WithoutPeer(old(cfg.peers), address) && Stored() == cfg.peers
                && address in old(col.manualPeers)
      ensures outcome.NotFound? || outcome.RollbackFailed? ==> address !in old(col.manualPeers)
      ensures col.manualPeers == if outcome.Done? then old(col.manualPeers) - {address} else old(col.manualPeers)
      ensures !outcome.Done? ==> cfg == old(cfg)
      ensures outcome.SaveFailed? ==> disk == old(disk)
      ensures outcome.NotFound? ==> Stored() == cfg.peers
      ensures outcome.RollbackFailed? ==> Stored() == WithoutPeer(old(cfg.peers), address)
      ensures old(InSync()) ==> InSync()
      ensures old(KeyedByAddress(col.manualPeers)) ==> KeyedByAddress(col.manualPeers)
    {
      var oldCfg := CloneCentralConfig(cfg);
      var nextCfg := CloneCentralConfig(cfg);
      var kept := FilterManualPeers(nextCfg.peers, address);
      nextCfg := nextCfg.(peers := kept);
      var ok := SaveCentralConfig(nextCfg);
      if !ok {
        return SaveFailed;
      }
      if old(InSync()) { RemoveMirrors(col.manualPeers, cfg.peers, address); }
      var found := col.RemoveManualPeer(address);
      if !found {
        assert col.manualPeers == old(col.manualPeers);
        ok := SaveCentralConfig(oldCfg);
        return if ok then NotFound else RollbackFailed;
      }
      cfg := nextCfg;
      return Done;
    }

    /** Reads the file again. Afterwards the map mirrors the list exactly when no peer added by
        hand is left over. */
    method Reload(readable: bool) returns (outcome: Outcome)
      modifies this, col`manualPeers
      ensures disk == old(disk)
      ensures outcome.Done? <==> hasFile && readable
      ensures outcome.Done? || outcome.LoadFailed?
      ensures outcome.Done? ==> cfg == disk
      ensures outcome.Done? ==>
                forall addr :: Find(col.manualPeers, addr) ==
                  if LastPeer(disk.peers, addr).Some? then Some(ToManual(LastPeer(disk.peers, addr).value, true))
                  else ByHand(Find(old(col.manualPeers), addr))
      ensures outcome.Done? ==>
                (InSync() <==> forall addr :: !LeftOver(old(col.manualPeers), old(disk).peers, addr))
      ensures !outcome.Done? ==> cfg == old(cfg) && col.manualPeers == old(col.manualPeers)
      ensures old(InSync()) ==> InSync()
      ensures old(KeyedByAddress(col.manualPeers)) ==> KeyedByAddress(col.manualPeers)
    {
      if !hasFile || !readable {
        return LoadFailed;
      }
      cfg := disk;
      ghost var before := col.manualPeers;
      col.ReplaceConfigPeers(cfg.peers);
      ReplaceMirrorsIff(before, col.manualPeers, cfg.peers);
      if old(InSync()) { MirrorLeavesNothingOver(before, cfg.peers); }
      return Done;
    }

    /** Any run of requests, with saves and reads that fail as they like, rollbacks included:
        file, memory and the map still say the same, and that is the list that the requests done
        add up to. */
    method ServeAll(reqs: seq<PeerRequest>) returns (outcomes: seq<Outcome>)
      modifies this, col`manualPeers
      ensures |outcomes| == |reqs|
      ensures old(InSync()) ==> InSync() && cfg.peers == AfterRequests(old(cfg.peers), reqs, outcomes)
      ensures old(KeyedByAddress(col.manualPeers)) ==> KeyedByAddress(col.manualPeers)
    {
      outcomes := [];
      for i := 0 to |reqs|
        invariant |outcomes| == i
        invariant old(InSync()) ==> InSync() && cfg.peers == AfterRequests(old(cfg.peers), reqs[..i], outcomes)
        invariant old(KeyedByAddress(col.manualPeers)) ==> KeyedByAddress(col.manualPeers)
      {
        var outcome;
        match reqs[i] {
          case AddPeer(name, address, port) => outcome := Add(name, address, port);
          case RemovePeer(address) => outcome := Remove(address);
          case Reload =>
            var readable: bool := *;
            outcome := Reload(readable);
        }
        RequestsSnoc(old(cfg.peers), reqs, i, outcomes, outcome);
        outcomes := outcomes + [outcome];
      }
      assert reqs[..|reqs|] == reqs;
    }
  }
}
