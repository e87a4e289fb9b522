/** SyncService and the scheduled jobs over the mutable tables. */
module SyncService {
  import opened Text
  import opened ConfigFiles
  import opened Store
  import ConfigService
  import Sync

  // The files sent, and those hashed for a config without a hash.
  ghost predicate SentBy(c: Config, files: Files, again: Files) {
    IsGeneration(c.rules, files) && (c.hash == NoHash ==> IsGeneration(c.rules, again))
  }

  class SyncService {
    const db: Database

    constructor (db: Database)
      ensures this.db == db
    {
      this.db := db;
    }

    method GetByHostname(host: string) returns (r: Option<Id>)
      requires Integrity(db.Tables())
      ensures r == ByHostname(db.Tables(), host)
    {
      var todo := db.proxies.Keys;
      while todo != {}
        invariant todo <= db.proxies.Keys
        invariant forall p :: Named(db.Tables(), p, host) ==> p in todo
      {
        var p :| p in todo;
        if db.proxies[p].hostname == host {
          assert Named(db.Tables(), p, host);
          return Some(p);
        }
        todo := todo - {p};
      }
      r := None;
    }

    // The join of three tables, and any one of its rows.
    method GetActiveForProxy(host: string) returns (r: Option<Id>)
      requires Integrity(db.Tables()) && OneActive(db.Tables())
      ensures r == ActiveFor(db.Tables(), host)
    {
      var rows := set l | l in db.links && l.proxy in db.proxies && db.proxies[l.proxy].hostname == host
                          && l.config in db.configs && db.configs[l.config].status == Active;
      assert forall c, p :: Named(db.Tables(), p, host) && ActiveOn(db.Tables(), c, p) ==> Link(c, p) in rows;
      if rows == {} {
        r := None;
      } else {
        var l :| l in rows;
        assert Named(db.Tables(), l.proxy, host) && ActiveOn(db.Tables(), l.config, l.proxy);
        LimitOneIsExact(db.Tables(), host, l.config, l.config);
        r := Some(l.config);
      }
    }

    method UpdateLastSeen(id: Id, now: nat, lost: bool)
      requires id in db.proxies
      modifies db`proxies
      ensures db.Tables() == SetProxy(old(db.Tables()), id, Sync.Touched(old(db.proxies)[id], now, lost))
    {
      if !lost {
        db.proxies := db.proxies[id := db.proxies[id].(online := true, lastSeen := Some(now))];
      }
      assert db.proxies == old(db.proxies)[id := Sync.Touched(old(db.proxies)[id], now, lost)];
    }

    method Register(req: Sync.RegisterRequest, newId: Id, now: nat, lost: Sync.Lost) returns (reply: Sync.RegisterReply)
      requires Integrity(db.Tables()) && newId !in db.proxies
      modifies db`proxies
      ensures reply == Sync.Register(old(db.Tables()), req, newId, now, lost).reply
      ensures db.Tables() == Sync.Register(old(db.Tables()), req, newId, now, lost).db
    {
      if req.host == "" { return Sync.Refused(BadRequest); }
      var existing := GetByHostname(req.host);
      if existing.Some? {
        var id := existing.value;
        var row := db.proxies[id];
        if row.online {
          var sameIP := row.ip == Some(req.ip);
          var sameID := req.claimed == Some(id);
          if !sameIP && !sameID { return Sync.Refused(Conflict); }
        }
        if !lost.ip && |req.ip| <= 45 { db.proxies := db.proxies[id := row.(ip := Some(req.ip))]; }
        UpdateLastSeen(id, now, lost.seen);
        assert db.proxies == old(db.proxies)[id := Sync.Reregistered(row, req.ip, now, lost)];
        return Sync.Registered(id, row.configId);
      }
      if (req.config.Some? && req.config.value !in db.configs) || |req.host| > 255 || |req.ip| > 45 {
        return Sync.Refused(Constraint);
      }
      db.proxies := db.proxies[newId := Proxy(req.host, req.config, false, None, NoHash, Some(req.ip))];
      UpdateLastSeen(newId, now, lost.seen);
      assert db.proxies == old(db.proxies)[newId := Sync.NewRow(req, now, lost)];
      reply := Sync.Registered(newId, req.config);
    }

    // Computes and stores a missing hash.
    method FillHash(id: Id) returns (h: Hash, ghost again: Files)
      requires id in db.configs
      modifies db`configs
      ensures h == HashOf(again) && IsGeneration(old(db.configs[id].rules), again)
      ensures db.configs == old(db.configs)[id := old(db.configs)[id].(hash := h)]
    {
      h := ConfigService.HashRules(db.configs[id].rules);
      again :| IsGeneration(db.configs[id].rules, again) && h == HashOf(again);
      db.configs := db.configs[id := db.configs[id].(hash := h)];
    }

    // Files and a hash for a config that has none.
    method AnswerFresh(id: Id) returns (reply: Sync.ConfigReply, ghost again: Files)
      requires id in db.configs
      modifies db`configs
      ensures reply.Changed? && reply.hash == HashOf(again) && SentBy(old(db.configs)[id], reply.files, again)
      ensures db.configs == old(db.configs)[id := old(db.configs)[id].(hash := HashOf(again))]
    {
      var sent := ConfigService.FilesFor(db.configs[id].rules);
      var h;
      h, again := FillHash(id);
      reply := Sync.Changed(h, sent);
    }

    // The hash shortcut, or the files.
    method Answer(id: Id, current: Hash) returns (reply: Sync.ConfigReply, ghost files: Files, ghost again: Files)
      requires id in db.configs
      modifies db`configs
      ensures reply == Sync.Answer(old(db.Tables()), id, current, files, again).reply
      ensures db.Tables() == Sync.Answer(old(db.Tables()), id, current, files, again).db
      ensures reply.Changed? ==> SentBy(old(db.configs)[id], files, again)
    {
      files, again := Files("", "", ""), Files("", "", "");
      var configHash := db.configs[id].hash;
      if configHash == NoHash {
        reply, again := AnswerFresh(id);
        files := reply.files;
        return;
      }
      if configHash == current { return Sync.Unchanged, files, again; }
      var sent := ConfigService.FilesFor(db.configs[id].rules);
      files := sent;
      reply := Sync.Changed(configHash, sent);
    }

    method GetConfig(host: string, current: Hash, now: nat, lost: bool)
      returns (reply: Sync.ConfigReply, ghost files: Files, ghost again: Files)
      requires Integrity(db.Tables()) && OneActive(db.Tables())
      modifies db
      ensures reply == Sync.GetConfig(old(db.Tables()), host, current, now, lost, files, again).reply
      ensures db.Tables() == Sync.GetConfig(old(db.Tables()), host, current, now, lost, files, again).db
      ensures reply.Changed? ==> var c := ActiveFor(old(db.Tables()), host);
        c.Some? && c.value in old(db.configs) && SentBy(old(db.configs)[c.value], files, again)
    {
      files, again := Files("", "", ""), Files("", "", "");
      var id := GetByHostname(host);
      if id.None? { return Sync.UnknownHost, files, again; }
      var cfg := GetActiveForProxy(host);
      UpdateLastSeen(id.value, now, lost);
      if cfg.None? { return Sync.Unchanged, files, again; }
      reply, files, again := Answer(cfg.value, current);
    }

    method Ack(host: string, h: Hash, ok: bool, now: nat) returns (err: Option<Error>)
      requires Integrity(db.Tables())
      modifies db`proxies
      ensures db.Tables() == Sync.Ack(old(db.Tables()), host, h, ok, now).db
      ensures err == Sync.Ack(old(db.Tables()), host, h, ok, now).err
    {
      var id := GetByHostname(host);
      if id.None? { return Some(NotFound); }
      if ok {
        db.proxies := db.proxies[id.value := db.proxies[id.value].(hash := h, lastSeen := Some(now), online := true)];
      }
      err := None;
    }
  }

  // The two ticks that touch proxy rows.
  class Scheduler {
    const db: Database

    constructor (db: Database)
      ensures this.db == db
    {
      this.db := db;
    }

    method RunProxyStatusCheck(now: nat)
      modifies db`proxies
      ensures db.Tables() == MarkOfflineStale(old(db.Tables()), now)
    {
      db.proxies := map p | p in db.proxies ::
        if db.proxies[p].online && SilentFor(db.proxies[p], now, OfflineAfter)
        then db.proxies[p].(online := false) else db.proxies[p];
    }

    method RunProxyCleanup(now: nat) returns (count: nat)
      modifies db
      ensures db.Tables() == DeleteOfflineStale(old(db.Tables()), now)
      ensures count == |set p | p in old(db.proxies) && Removable(old(db.proxies)[p], now)|
    {
      var gone := set p | p in db.proxies && Removable(db.proxies[p], now);
      db.proxies := map p | p in db.proxies && p !in gone :: db.proxies[p];
      db.links := set l | l in db.links && l.proxy in db.proxies;
      count := |gone|;
    }
  }
}
