/**
What the backend does for its proxies: registration and hostname ownership, the config
poll with its hash shortcut, acknowledgement, and the in-sync verdict.
*/
module Sync {
  import opened Text
  import opened Rules
  import opened Sorting
  import opened ConfigFiles
  import opened Ties
  import opened Store
  import opened Lifecycle
  import opened LifecycleFacts

  // The two updates whose errors Register and GetConfig ignore.
  datatype Lost = Lost(ip: bool, seen: bool)

  datatype RegisterRequest = RegisterRequest(host: string, ip: string, claimed: Option<Id>, config: Option<Id>)

  datatype RegisterReply = Registered(id: Id, configId: Option<Id>) | Refused(err: Error)

  datatype RegisterResult = RegisterResult(db: Db, reply: RegisterReply)

  datatype ConfigReply = UnknownHost | Unchanged | Changed(hash: Hash, files: Files)

  datatype PollResult = PollResult(db: Db, reply: ConfigReply)

  function Contact(p: Proxy, now: nat): Proxy { p.(online := true, lastSeen := Some(now)) }

  function Touched(p: Proxy, now: nat, lost: bool): Proxy { if lost then p else Contact(p, now) }

  // ---- Register ----

  // The same machine: its recorded address, or the row id it was given before.
  predicate Owns(p: Proxy, id: Id, req: RegisterRequest) {
    p.ip == Some(req.ip) || req.claimed == Some(id)
  }

  // The column registered_ip holds 45 characters; a longer value is an ignored error.
  function Reregistered(p: Proxy, ip: string, now: nat, lost: Lost): Proxy {
    Touched(if lost.ip || |ip| > 45 then p else p.(ip := Some(ip)), now, lost.seen)
  }

  predicate Insertable(db: Db, req: RegisterRequest) {
    (req.config.Some? ==> req.config.value in db.configs) && |req.host| <= 255 && |req.ip| <= 45
  }

  function NewRow(req: RegisterRequest, now: nat, lost: Lost): Proxy {
    Touched(Proxy(req.host, req.config, false, None, NoHash, Some(req.ip)), now, lost.seen)
  }

  ghost function Register(db: Db, req: RegisterRequest, newId: Id, now: nat, lost: Lost): RegisterResult {
    if req.host == "" then RegisterResult(db, Refused(BadRequest))
    else match ByHostname(db, req.host)
      case Some(id) =>
        var p := db.proxies[id];
        if p.online && !Owns(p, id, req) then RegisterResult(db, Refused(Conflict))
        else RegisterResult(SetProxy(db, id, Reregistered(p, req.ip, now, lost)), Registered(id, p.configId))
      case None =>
        if !Insertable(db, req) then RegisterResult(db, Refused(Constraint))
        else RegisterResult(SetProxy(db, newId, NewRow(req, now, lost)), Registered(newId, req.config))
  }

  // ---- GetConfig ----

  // files and again are what two generations from the rows of the active config give.
  function Answer(db: Db, c: Id, current: Hash, files: Files, again: Files): PollResult
    requires c in db.configs
  {
    var h := db.configs[c].hash;
    if h != NoHash && h == current then PollResult(db, Unchanged)
    else if h != NoHash then PollResult(db, Changed(h, files))
    else PollResult(SetConfig(db, c, db.configs[c].(hash := HashOf(again))), Changed(HashOf(again), files))
  }

  ghost function GetConfig(db: Db, host: string, current: Hash, now: nat, lost: bool, files: Files, again: Files): PollResult {
    match ByHostname(db, host)
    case None => PollResult(db, UnknownHost)
    case Some(id) =>
      var seen := SetProxy(db, id, Touched(db.proxies[id], now, lost));
      match ActiveFor(db, host)
      case None => PollResult(seen, Unchanged)
      case Some(c) => Answer(seen, c, current, files, again)
  }

  // ---- Ack and Stats ----

  ghost function Ack(db: Db, host: string, h: Hash, ok: bool, now: nat): Reply {
    match ByHostname(db, host)
    case None => Fail(db, NotFound)
    case Some(id) =>
      if ok then Done(SetProxy(db, id, Contact(db.proxies[id], now).(hash := h))) else Done(db)
  }

  ghost function Stats(db: Db, host: string, now: nat, lost: bool): Reply {
    match ByHostname(db, host)
    case None => Fail(db, NotFound)
    case Some(id) => Done(SetProxy(db, id, Touched(db.proxies[id], now, lost)))
  }

  // ---- buildConfigRef ----

  predicate InSync(c: Config, h: Hash) { c.hash != NoHash && h == c.hash }

  // ---- Each of them is a run of row events, so it keeps the invariant ----

  function TouchEvent(id: Id, p: Proxy): Event { ProxyTouched(id, p.online, p.lastSeen, p.hash, p.ip) }

  lemma TouchIsEvent(db: Db, id: Id, p: Proxy) returns (es: seq<Event>)
    requires id in db.proxies && p.hostname == db.proxies[id].hostname && p.configId == db.proxies[id].configId
    ensures AllAdmissible(db, es) && ApplyAll(db, es) == SetProxy(db, id, p)
  {
    es := [TouchEvent(id, p)];
    OneEvent(db, TouchEvent(id, p));
  }

  lemma OneEvent(db: Db, e: Event)
    ensures ApplyAll(db, [e]) == Apply(db, e) && (AllAdmissible(db, [e]) <==> Admissible(db, e))
  {
    assert [e][1..] == [];
  }

  lemma RegisterIsRun(db: Db, req: RegisterRequest, newId: Id, now: nat, lost: Lost)
    returns (es: seq<Event>)
    requires newId !in db.proxies
    ensures AllAdmissible(db, es) && ApplyAll(db, es) == Register(db, req, newId, now, lost).db
  {
    var r := Register(db, req, newId, now, lost);
    if r.reply.Refused? { return []; }
    match ByHostname(db, req.host)
    case Some(id) =>
      es := TouchIsEvent(db, id, Reregistered(db.proxies[id], req.ip, now, lost));
    case None =>
      es := [ProxyAdded(newId, NewRow(req, now, lost))];
      OneEvent(db, es[0]);
  }

  // In a state that meets the invariant the missing-hash branch is never taken, and the
  // poll only touches the row of the proxy.
  lemma GetConfigIsRun(db: Db, host: string, current: Hash, now: nat, lost: bool, files: Files, again: Files) returns (es: seq<Event>)
    requires Inv(db)
    ensures AllAdmissible(db, es) && ApplyAll(db, es) == GetConfig(db, host, current, now, lost, files, again).db
    ensures GetConfig(db, host, current, now, lost, files, again).db == Stats(db, host, now, lost).db
  {
    es := StatsIsRun(db, host, now, lost);
    var c := ActiveFor(db, host);
    if c.Some? {
      ActiveHasHash(db, host, c.value);
      if ByHostname(db, host).Some? { StoredHashReply(db, host, current, now, lost, files, again, c.value); }
    }
  }

  lemma ActiveHasHash(db: Db, host: string, c: Id)
    requires Inv(db) && ActiveFor(db, host) == Some(c)
    ensures IsActive(db, c) && db.configs[c].hash != NoHash
  {
    var p :| Named(db, p, host) && ActiveOn(db, c, p);
    NoHashMissing(db, c);
  }

  lemma StoredHashReply(db: Db, host: string, current: Hash, now: nat, lost: bool, files: Files, again: Files, c: Id)
    requires ByHostname(db, host).Some? && ActiveFor(db, host) == Some(c) && IsActive(db, c) && db.configs[c].hash != NoHash
    ensures var r := GetConfig(db, host, current, now, lost, files, again);
            r.reply == (if db.configs[c].hash == current then Unchanged else Changed(db.configs[c].hash, files)) &&
            r.db == Stats(db, host, now, lost).db
  {
  }

  lemma AckIsRun(db: Db, host: string, h: Hash, ok: bool, now: nat) returns (es: seq<Event>)
    ensures AllAdmissible(db, es) && ApplyAll(db, es) == Ack(db, host, h, ok, now).db
  {
    match ByHostname(db, host)
    case None => es := [];
    case Some(id) =>
      if ok { es := TouchIsEvent(db, id, Contact(db.proxies[id], now).(hash := h)); } else { es := []; }
  }

  lemma StatsIsRun(db: Db, host: string, now: nat, lost: bool) returns (es: seq<Event>)
    ensures AllAdmissible(db, es) && ApplyAll(db, es) == Stats(db, host, now, lost).db
  {
    match ByHostname(db, host)
    case None => es := [];
    case Some(id) => es := TouchIsEvent(db, id, Touched(db.proxies[id], now, lost));
  }

  // The host is known, and c is its active config.
  ghost predicate Governs(db: Db, host: string, c: Id) {
    ByHostname(db, host).Some? && ActiveFor(db, host) == Some(c) && c in db.configs
  }

  // ... and determines the files f.
  ghost predicate Serves(db: Db, host: string, c: Id, f: Files) {
    Governs(db, host, c) && TiesHarmless(db.configs[c].rules) && IsGeneration(db.configs[c].rules, f)
  }

  // ---- The hash shortcut ----

  // For a proxy with an active config, Unchanged is answered exactly when a full
  // regeneration would hash to the value that the helper sent.
  lemma UnchangedIff(db: Db, host: string, current: Hash, now: nat, lost: bool, files: Files, again: Files, c: Id)
    requires Inv(db) && ByHostname(db, host).Some? && ActiveFor(db, host) == Some(c)
    requires TiesHarmless(db.configs[c].rules) && IsGeneration(db.configs[c].rules, files)
    ensures var reply := GetConfig(db, host, current, now, lost, files, again).reply;
            (reply == Unchanged <==> current == HashOf(files)) && (reply != Unchanged <==> reply == Changed(HashOf(files), files))
  {
    ActiveHasHash(db, host, c);
    HashIsCurrent(db, c, files);
    StoredHashReply(db, host, current, now, lost, files, again, c);
  }

  // A helper on the files of a config is told Unchanged by a clone that replaced it unedited.
  lemma CloneIsUnchanged(db: Db, src: Id, id: Id, user: Id, rules: RuleSet, now: nat, f: Files, g: Files,
                         p: Id, later: nat, lost: bool)
    requires Inv(db) && src in db.configs && TiesHarmless(db.configs[src].rules)
    requires IsGeneration(db.configs[src].rules, f) && Link(src, p) in db.links
    requires AllAdmissible(db, CloneRun(src, id, user, rules, now, g))
    ensures var after := ApplyAll(db, CloneRun(src, id, user, rules, now, g));
            p in after.proxies && GetConfig(after, after.proxies[p].hostname, HashOf(f), later, lost, f, f).reply == Unchanged
  {
    var after := ApplyAll(db, CloneRun(src, id, user, rules, now, g));
    CloneHasSourceFiles(db, src, id, user, rules, now, f, g, p);
    RunKeepsInv(db, CloneRun(src, id, user, rules, now, g));
    ActiveIsServed(after, id, p, HashOf(f), later, lost, f);
  }

  lemma ActiveIsServed(db: Db, c: Id, p: Id, h: Hash, now: nat, lost: bool, f: Files)
    requires Inv(db) && ActiveOn(db, c, p) && db.configs[c].hash == h && h != NoHash
    ensures p in db.proxies && GetConfig(db, db.proxies[p].hostname, h, now, lost, f, f).reply == Unchanged
  {
    var host := db.proxies[p].hostname;
    assert Named(db, p, host);
    LimitOneIsExact(db, host, c, c);
    StoredHashReply(db, host, h, now, lost, f, f, c);
  }

  // The poll sends a hash with files that do not hash to it, for some order of the rows.
  ghost predicate Mismatch(db: Db, host: string, now: nat, files: Files) {
    var r := GetConfig(db, host, NoHash, now, false, files, files).reply;
    r.Changed? && r.files == files && r.hash != HashOf(r.files)
  }

  ghost predicate CanMismatch(db: Db, host: string, now: nat, rs: RuleSet) {
    exists files :: IsGeneration(rs, files) && Mismatch(db, host, now, files)
  }

  // That can happen if and only if ties are not harmless: for every active config, in
  // every state that meets the invariant.
  lemma ReplyMismatchIff(db: Db, host: string, c: Id, now: nat)
    requires Inv(db) && ByHostname(db, host).Some? && ActiveFor(db, host) == Some(c)
    ensures CanMismatch(db, host, now, db.configs[c].rules) <==> !TiesHarmless(db.configs[c].rules)
  {
    ActiveHasHash(db, host, c);
    if TiesHarmless(db.configs[c].rules) {
      forall files | IsGeneration(db.configs[c].rules, files) ensures !Mismatch(db, host, now, files) {
        HashIsCurrent(db, c, files);
        StoredHashReply(db, host, NoHash, now, false, files, files, c);
      }
    } else {
      var files := TiedReplyMismatch(db, host, c, now);
    }
  }

  lemma TiedReplyMismatch(db: Db, host: string, c: Id, now: nat) returns (files: Files)
    requires Inv(db) && ByHostname(db, host).Some? && ActiveFor(db, host) == Some(c)
    requires !TiesHarmless(db.configs[c].rules)
    ensures IsGeneration(db.configs[c].rules, files) && Mismatch(db, host, now, files)
  {
    ActiveHasHash(db, host, c);
    GoodRules(db, c);
    files := OtherFiles(db.configs[c].rules, db.configs[c].hash);
    StoredHashReply(db, host, NoHash, now, false, files, files, c);
  }

  lemma OtherFiles(rs: RuleSet, h: Hash) returns (files: Files)
    requires Valid(rs) && Storable(rs) && !TiesHarmless(rs)
    ensures IsGeneration(rs, files) && HashOf(files) != h
  {
    StorableKeys(rs);
    FilesDeterminedIff(rs);
    var f, g :| IsGeneration(rs, f) && IsGeneration(rs, g) && f != g;
    HashDecidesFiles(rs, rs, f, g);
    files := if HashOf(f) == h then g else f;
  }

  // ---- Hostname ownership ----

  // Every contact sets last_seen and online together, and only the stale check clears
  // online: a row that is offline was never seen or has been silent for two minutes.
  ghost predicate Quiet(db: Db, now: nat) {
    forall p :: p in db.proxies && !db.proxies[p].online ==>
      db.proxies[p].lastSeen.None? || SilentFor(db.proxies[p], now, OfflineAfter)
  }

  // A request that matches neither the recorded address nor the row id takes the row over
  // only after silence.
  lemma TakeoverNeedsSilence(db: Db, req: RegisterRequest, newId: Id, now: nat, lost: Lost)
    requires Quiet(db, now) && ByHostname(db, req.host).Some?
    requires Register(db, req, newId, now, lost).reply.Registered?
    ensures var id := ByHostname(db, req.host).value;
            !Owns(db.proxies[id], id, req) ==>
              db.proxies[id].lastSeen.None? || SilentFor(db.proxies[id], now, OfflineAfter)
  {
  }

  // ... and an online row is open to exactly its owner.
  lemma OnlineRowIsOwned(db: Db, req: RegisterRequest, newId: Id, now: nat, lost: Lost)
    requires req.host != "" && ByHostname(db, req.host).Some? && db.proxies[ByHostname(db, req.host).value].online
    ensures var id := ByHostname(db, req.host).value;
            Register(db, req, newId, now, lost).reply.Registered? <==> Owns(db.proxies[id], id, req)
  {
  }
}
