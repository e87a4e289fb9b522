/**
What the backend answers a proxy and does to the tables, told row by row: registration,
poll, acknowledgement, removal.
*/
module Answers {
  import opened Text
  import opened Rules
  import opened ConfigFiles
  import opened Store
  import opened Lifecycle
  import opened Sync

  // Nothing changed but the row p.
  ghost predicate OnlyRow(db: Db, after: Db, p: Id) {
    && after.configs == db.configs && after.links == db.links && after.proxies.Keys == db.proxies.Keys + {p}
    && forall q :: q in db.proxies && q != p ==> after.proxies[q] == db.proxies[q]
  }

  ghost predicate Unknown(db: Db, host: string) { forall p :: p in db.proxies ==> db.proxies[p].hostname != host }

  lemma TheRow(db: Db, host: string, p: Id)
    requires Integrity(db) && p in db.proxies && db.proxies[p].hostname == host
    ensures ByHostname(db, host) == Some(p)
  {
    assert Named(db, p, host);
  }

  lemma NoRow(db: Db, host: string)
    requires Unknown(db, host)
    ensures ByHostname(db, host) == None
  {
  }

  // ---- Registration ----

  // The row of a machine that has registered: new address, seen now, all else as it was.
  ghost predicate Welcomed(row: Proxy, after: Proxy, req: RegisterRequest, now: nat, lost: Lost) {
    && after.hostname == row.hostname && after.configId == row.configId && after.hash == row.hash
    && after.ip == (if lost.ip || |req.ip| > 45 then row.ip else Some(req.ip))
    && (if lost.seen then after.online == row.online && after.lastSeen == row.lastSeen
        else after.online && after.lastSeen == Some(now))
  }

  // A known hostname: open to anyone while its row is offline, else to the recorded address
  // and to the holder of the row id.
  lemma KnownHostIff(db: Db, req: RegisterRequest, newId: Id, now: nat, lost: Lost, p: Id)
    requires Integrity(db) && p in db.proxies && db.proxies[p].hostname == req.host && req.host != ""
    ensures var r := Register(db, req, newId, now, lost); var row := db.proxies[p];
            (r.reply.Registered? <==> !row.online || row.ip == Some(req.ip) || req.claimed == Some(p)) &&
            (if r.reply.Registered? then r.reply == Registered(p, row.configId) && OnlyRow(db, r.db, p) && Welcomed(row, r.db.proxies[p], req, now, lost)
             else r.reply == Refused(Conflict) && r.db == db)
  {
    TheRow(db, req.host, p);
  }

  // A new one: a row of its own, if the values fit and the named config exists.
  lemma NewHostIff(db: Db, req: RegisterRequest, newId: Id, now: nat, lost: Lost)
    requires Unknown(db, req.host) && newId !in db.proxies && req.host != ""
    ensures var r := Register(db, req, newId, now, lost);
            (r.reply.Registered? <==> |req.host| <= 255 && |req.ip| <= 45 && (req.config.Some? ==> req.config.value in db.configs)) &&
            (if r.reply.Registered? then
               r.reply == Registered(newId, req.config) && OnlyRow(db, r.db, newId) &&
               r.db.proxies[newId].hostname == req.host && r.db.proxies[newId].configId == req.config &&
               r.db.proxies[newId].hash == NoHash && r.db.proxies[newId].ip == Some(req.ip) &&
               r.db.proxies[newId].online == !lost.seen && r.db.proxies[newId].lastSeen == (if lost.seen then None else Some(now))
             else r.reply == Refused(Constraint) && r.db == db)
  {
    NoRow(db, req.host);
  }

  lemma NamelessIsRefused(db: Db, req: RegisterRequest, newId: Id, now: nat, lost: Lost)
    requires req.host == ""
    ensures Register(db, req, newId, now, lost) == RegisterResult(db, Refused(BadRequest))
  {
  }

  // ---- The poll ----

  // What the row shows after a sign of life whose update may get lost.
  ghost predicate Seen(row: Proxy, after: Proxy, now: nat, lost: bool) {
    && after.hostname == row.hostname && after.configId == row.configId && after.hash == row.hash && after.ip == row.ip
    && (if lost then after.online == row.online && after.lastSeen == row.lastSeen else after.online && after.lastSeen == Some(now))
  }

  lemma UnknownHostPoll(db: Db, host: string, current: Hash, now: nat, lost: bool, files: Files, again: Files)
    requires Unknown(db, host)
    ensures GetConfig(db, host, current, now, lost, files, again) == PollResult(db, UnknownHost)
  {
    NoRow(db, host);
  }

  // A known host is told Unchanged if nothing is active on its row, or what is active there
  // has the hash it sent; else that hash, and the files. Its row is marked seen.
  lemma KnownHostPoll(db: Db, host: string, current: Hash, now: nat, lost: bool, files: Files, again: Files, p: Id)
    requires Inv(db) && p in db.proxies && db.proxies[p].hostname == host
    ensures var r := GetConfig(db, host, current, now, lost, files, again);
            OnlyRow(db, r.db, p) && Seen(db.proxies[p], r.db.proxies[p], now, lost) &&
            ((forall c: Id :: !ActiveOn(db, c, p)) ==> r.reply == Unchanged) &&
            (forall c: Id :: ActiveOn(db, c, p) ==>
               r.reply == if db.configs[c].hash == current then Unchanged else Changed(db.configs[c].hash, files))
  {
    TheRow(db, host, p);
    OnlyItsConfig(db, host, p);
    forall c: Id | ActiveOn(db, c, p)
      ensures GetConfig(db, host, current, now, lost, files, again).reply ==
              if db.configs[c].hash == current then Unchanged else Changed(db.configs[c].hash, files)
    {
      ActiveHasHash(db, host, c);
      StoredHashReply(db, host, current, now, lost, files, again, c);
    }
    PollMarksSeen(db, host, current, now, lost, files, again, p);
  }

  lemma PollMarksSeen(db: Db, host: string, current: Hash, now: nat, lost: bool, files: Files, again: Files, p: Id)
    requires Inv(db) && p in db.proxies && ByHostname(db, host) == Some(p)
    ensures var r := GetConfig(db, host, current, now, lost, files, again);
            OnlyRow(db, r.db, p) && Seen(db.proxies[p], r.db.proxies[p], now, lost)
  {
    var es := GetConfigIsRun(db, host, current, now, lost, files, again);
  }

  // The query for a hostname finds what is active on its row.
  lemma OnlyItsConfig(db: Db, host: string, p: Id)
    requires Integrity(db) && OneActive(db) && p in db.proxies && db.proxies[p].hostname == host
    ensures forall c: Id :: ActiveOn(db, c, p) <==> ActiveFor(db, host) == Some(c)
  {
    assert Named(db, p, host);
    forall c: Id | ActiveOn(db, c, p) ensures ActiveFor(db, host) == Some(c) {
      assert ActiveForHost(db, host, c);
      LimitOneIsExact(db, host, c, c);
    }
    if ActiveFor(db, host).Some? {
      var c := ActiveFor(db, host).value;
      var q :| Named(db, q, host) && ActiveOn(db, c, q);
      assert q == p;
    }
  }

  // Were a hash missing, the poll would store one of a generation and send it.
  lemma MissingHashIsFilled(db: Db, host: string, current: Hash, now: nat, lost: bool, files: Files, again: Files, p: Id, c: Id)
    requires Integrity(db) && OneActive(db) && p in db.proxies && db.proxies[p].hostname == host
    requires ActiveOn(db, c, p) && db.configs[c].hash == NoHash && Valid(db.configs[c].rules)
    requires IsGeneration(db.configs[c].rules, files) && IsGeneration(db.configs[c].rules, again)
    ensures var r := GetConfig(db, host, current, now, lost, files, again);
            r.reply == Changed(HashOf(again), files) && Cached(r.db.configs[c]) &&
            r.db.configs == db.configs[c := db.configs[c].(hash := HashOf(again))]
  {
    TheRow(db, host, p);
    OnlyItsConfig(db, host, p);
  }

  // ---- The acknowledgement ----

  // A report of success sets hash and contact of the row of its host. A report of failure
  // leaves every row as it was, hash, online and last contact included. Only an unknown
  // host is an error.
  lemma AckIff(db: Db, host: string, h: Hash, ok: bool, now: nat, p: Id)
    requires Integrity(db) && p in db.proxies
    ensures var r := Ack(db, host, h, ok, now);
            r.db.configs == db.configs && r.db.links == db.links && r.db.proxies.Keys == db.proxies.Keys &&
            (if ok && db.proxies[p].hostname == host then
               r.db.proxies[p].hash == h && r.db.proxies[p].online && r.db.proxies[p].lastSeen == Some(now) &&
               r.db.proxies[p].hostname == host && r.db.proxies[p].configId == db.proxies[p].configId && r.db.proxies[p].ip == db.proxies[p].ip
             else r.db.proxies[p] == db.proxies[p])
    ensures Ack(db, host, h, ok, now).err == if Unknown(db, host) then Some(NotFound) else None
  {
    if db.proxies[p].hostname == host { TheRow(db, host, p); }
    if Unknown(db, host) {
      NoRow(db, host);
    } else {
      var q :| q in db.proxies && db.proxies[q].hostname == host;
      TheRow(db, host, q);
    }
  }

  // ---- The scheduled jobs ----

  // The check marks exactly the online rows last seen over two minutes ago, not those
  // never seen, and changes nothing else.
  lemma CheckMarks(db: Db, now: nat, p: Id)
    requires p in db.proxies
    ensures var after := MarkOfflineStale(db, now); var row := db.proxies[p];
            after.configs == db.configs && after.links == db.links && after.proxies.Keys == db.proxies.Keys &&
            after.proxies[p] == row.(online := row.online && (row.lastSeen.Some? ==> now - row.lastSeen.value <= 120))
  {
  }

  // The cleanup removes exactly the offline rows last seen over four hours ago, with their
  // links.
  lemma CleanupRemoves(db: Db, now: nat, p: Id)
    requires Integrity(db) && p in db.proxies
    ensures var after := DeleteOfflineStale(db, now); var row := db.proxies[p];
            after.configs == db.configs && after.proxies.Keys <= db.proxies.Keys &&
            (p !in after.proxies <==> !row.online && row.lastSeen.Some? && now - row.lastSeen.value > 14400) &&
            (p in after.proxies ==> after.proxies[p] == row) &&
            forall c: Id :: Link(c, p) in after.links <==> Link(c, p) in db.links && p in after.proxies
  {
  }

  // ---- Removal ----

  // A removed proxy is unknown: its poll is answered so, and it comes back as a new row,
  // without hash and without links. No other row and no config is touched.
  lemma RemovedIsUnknown(db: Db, p: Id, current: Hash, now: nat, files: Files, again: Files)
    requires Integrity(db) && p in db.proxies
    ensures var r := DeleteProxy(db, p); var host := db.proxies[p].hostname;
            r.err == None && r.db.configs == db.configs && r.db.proxies.Keys == db.proxies.Keys - {p} &&
            (forall q :: q in db.proxies && q != p ==> r.db.proxies[q] == db.proxies[q]) &&
            (forall l :: l in r.db.links <==> l in db.links && l.proxy != p) &&
            Unknown(r.db, host) && GetConfig(r.db, host, current, now, false, files, again) == PollResult(r.db, UnknownHost)
  {
    UnknownHostPoll(DeleteProxy(db, p).db, db.proxies[p].hostname, current, now, false, files, again);
  }

  lemma AbsentIsNotFound(db: Db, p: Id)
    requires p !in db.proxies
    ensures DeleteProxy(db, p) == Reply(db, Some(NotFound))
  {
  }
}
