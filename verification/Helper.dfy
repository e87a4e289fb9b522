/**
The helper beside each proxy: registration with retries, and doSync, which writes three
files, reloads, saves the hash and acknowledges. Files are replaced one by one and whole.
*/
module Helper {
  import opened Text
  import Rules
  import opened ConfigFiles
  import opened Store
  import opened Sync

  // What survives the helper: the files on disk, those the proxy has loaded, the hash file.
  datatype Node = Node(disk: Files, loaded: Files, saved: Hash)

  datatype AckMessage = AckMessage(hash: Hash, ok: bool)

  // os.WriteFile truncates first, so a failed save keeps the old hash or leaves none that
  // any config has. Its error is ignored.
  datatype SaveFate = SaveDone | SaveKept | SaveTorn

  // What the machine lets happen: the first file whose replacement fails (3 for none),
  // whether the reload succeeds, and the fate of the save.
  datatype Fate = Fate(failAt: nat, reloads: bool, save: SaveFate)

  function FileText(f: Files, k: nat): string {
    if k == 0 then f.parent else if k == 1 then f.sni else f.allow
  }

  function SetFile(disk: Files, k: nat, text: string): Files {
    if k == 0 then disk.(parent := text) else if k == 1 then disk.(sni := text) else disk.(allow := text)
  }

  // An empty text is skipped.
  function Written(disk: Files, f: Files, k: nat): Files {
    if FileText(f, k) == "" then disk else SetFile(disk, k, FileText(f, k))
  }

  // The first n files replaced.
  function Mix(disk: Files, f: Files, n: nat): Files {
    if n == 0 then disk else Written(Mix(disk, f, n - 1), f, n - 1)
  }

  predicate Complete(f: Files) { f.parent != "" && f.sni != "" && f.allow != "" }

  // Whatever was on disk, a successful apply of complete files leaves exactly them.
  lemma CompleteApply(disk: Files, f: Files)
    requires Complete(f)
    ensures Mix(disk, f, 3) == f
  {
    assert Mix(disk, f, 1) == Written(disk, f, 0);
    assert Mix(disk, f, 2) == Written(Mix(disk, f, 1), f, 1);
  }

  // That holds of complete files only: the skipped file keeps what it was.
  lemma ApplyIsExactIff(f: Files)
    ensures (forall disk :: Mix(disk, f, 3) == f) <==> Complete(f)
  {
    if Complete(f) {
      forall disk ensures Mix(disk, f, 3) == f { CompleteApply(disk, f); }
    } else {
      var other := Files("x", "x", "x");
      assert Mix(other, f, 1) == Written(other, f, 0);
      assert Mix(other, f, 2) == Written(Mix(other, f, 1), f, 1);
      assert Mix(other, f, 3) != f;
    }
  }

  predicate ApplyOk(f: Files, failAt: nat) { failAt >= 3 || FileText(f, failAt) == "" }

  function SaveHash(old_: Hash, h: Hash, fate: SaveFate): Hash {
    match fate case SaveDone => h case SaveKept => old_ case SaveTorn => NoHash
  }

  function AppliedFiles(disk: Files, f: Files, failAt: nat): Files {
    Mix(disk, f, if ApplyOk(f, failAt) then 3 else failAt)
  }

  // What one doSync leaves on the machine ...
  function AfterSync(n: Node, reply: ConfigReply, fate: Fate): Node {
    match reply
    case Changed(h, f) =>
      var applied := n.(disk := AppliedFiles(n.disk, f, fate.failAt));
      if !ApplyOk(f, fate.failAt) || !fate.reloads then applied
      else applied.(loaded := applied.disk, saved := SaveHash(n.saved, h, fate.save))
    case _ => n
  }

  // A sync whose files were loaded but whose save failed leaves the old hash, or none: the
  // next poll sends the files again.
  lemma LostSaveIsRetried(n: Node, h: Hash, f: Files, fate: Fate)
    requires Complete(f) && fate.failAt >= 3 && fate.reloads && n.saved != h && h != NoHash
    ensures var after := AfterSync(n, Changed(h, f), fate);
            after.disk == f && after.loaded == f && (after.saved == h <==> fate.save == SaveDone) &&
            (fate.save == SaveKept ==> after.saved == n.saved) && (fate.save == SaveTorn ==> after.saved == NoHash)
  {
    CompleteApply(n.disk, f);
  }

  // ... and what it sends.
  function AckOf(reply: ConfigReply, fate: Fate): Option<AckMessage> {
    match reply
    case Changed(h, f) => Some(AckMessage(h, ApplyOk(f, fate.failAt) && fate.reloads))
    case _ => None
  }

  // ---- The process ----

  class Manager {
    var parent: string
    var sni: string
    var allow: string
    var loaded: Files
    var hashFile: Hash

    ghost function Disk(): Files
      reads this
    {
      Files(parent, sni, allow)
    }

    ghost function State(): Node
      reads this
    {
      Node(Disk(), loaded, hashFile)
    }

    constructor (n: Node)
      ensures State() == n
    {
      parent, sni, allow := n.disk.parent, n.disk.sni, n.disk.allow;
      loaded, hashFile := n.loaded, n.saved;
    }

    method ApplyConfig(cfg: Files, failAt: nat) returns (ok: bool)
      modifies this`parent, this`sni, this`allow
      ensures ok == ApplyOk(cfg, failAt)
      ensures Disk() == AppliedFiles(old(Disk()), cfg, failAt)
    {
      ghost var d := Disk();
      assert Mix(d, cfg, 1) == Written(d, cfg, 0);
      assert Mix(d, cfg, 2) == Written(Mix(d, cfg, 1), cfg, 1);
      if cfg.parent != "" {
        if failAt == 0 { return false; }
        parent := cfg.parent;
      }
      if cfg.sni != "" {
        if failAt == 1 { return false; }
        sni := cfg.sni;
      }
      if cfg.allow != "" {
        if failAt == 2 { return false; }
        allow := cfg.allow;
      }
      ok := true;
    }

    method Reload(works: bool) returns (ok: bool)
      modifies this`loaded
      ensures ok == works && loaded == if works then Disk() else old(loaded)
    {
      if works { loaded := Files(parent, sni, allow); }
      ok := works;
    }

    method Save(h: Hash, fate: SaveFate)
      modifies this`hashFile
      ensures hashFile == SaveHash(old(hashFile), h, fate)
    {
      match fate
      case SaveDone => hashFile := h;
      case SaveKept =>
      case SaveTorn => hashFile := NoHash;
    }
  }

  // The poll brings an answer, or an error other than 404.
  datatype Fetch = Answered(reply: ConfigReply) | NoAnswer

  // doSync from the poll on. The result is what it sends, and whether it is connected then.
  method DoSync(ats: Manager, fetch: Fetch, wasConnected: bool, fate: Fate) returns (ack: Option<AckMessage>, connected: bool)
    modifies ats
    ensures ats.State() == if fetch.NoAnswer? then old(ats.State()) else AfterSync(old(ats.State()), fetch.reply, fate)
    ensures ack == if fetch.NoAnswer? then None else AckOf(fetch.reply, fate)
    ensures connected == if fetch.NoAnswer? then wasConnected else wasConnected && fetch.reply != UnknownHost
  {
    connected := wasConnected;
    if fetch.NoAnswer? { return None, connected; }
    var reply := fetch.reply;
    if reply.UnknownHost? { return None, false; }
    if reply.Unchanged? { return None, connected; }
    var applied := ats.ApplyConfig(reply.files, fate.failAt);
    if !applied { return Some(AckMessage(reply.hash, false)), connected; }
    var reloaded := ats.Reload(fate.reloads);
    if !reloaded { return Some(AckMessage(reply.hash, false)), connected; }
    ats.Save(reply.hash, fate.save);
    ack := Some(AckMessage(reply.hash, true));
  }

  // ---- Registration ----

  // The answers to register requests: None for a refusal, an error or a timeout.
  class Client {
    var proxyId: Option<Id>
    var connected: bool

    constructor ()
      ensures proxyId == None && !connected
    {
      proxyId, connected := None, false;
    }

    method Register(answer: Option<Id>) returns (ok: bool)
      modifies this`proxyId
      ensures ok == answer.Some? && proxyId == if ok then answer else old(proxyId)
    {
      if answer.None? { return false; }
      proxyId := answer;
      ok := true;
    }

    // One attempt after the other; the first success ends the wait.
    method WaitForRegister(answers: seq<Option<Id>>) returns (ok: bool, attempts: nat)
      modifies this
      ensures attempts <= |answers| && forall i :: 0 <= i < attempts - 1 ==> answers[i].None?
      ensures ok <==> exists i :: 0 <= i < |answers| && answers[i].Some?
      ensures ok ==> attempts > 0 && proxyId == answers[attempts - 1] && proxyId.Some? && connected
      ensures !ok ==> attempts == |answers| && proxyId == old(proxyId) && connected == old(connected)
    {
      attempts := 0;
      while attempts < |answers|
        invariant attempts <= |answers| && forall i :: 0 <= i < attempts ==> answers[i].None?
        invariant proxyId == old(proxyId) && connected == old(connected)
      {
        ok := Register(answers[attempts]);
        attempts := attempts + 1;
        if ok {
          connected := true;
          return;
        }
      }
      ok := false;
    }

    // One tick of helloLoop: a lost backend disconnects, and only a successful
    // registration connects again.
    method HelloTick(healthy: bool, answer: Option<Id>)
      modifies this
      ensures connected == (healthy && (old(connected) || answer.Some?))
      ensures proxyId == if healthy && !old(connected) && answer.Some? then answer else old(proxyId)
    {
      if !healthy {
        connected := false;
        return;
      }
      if !connected {
        var ok := Register(answer);
        if !ok { return; }
        connected := true;
      }
    }
  }

  // ---- Convergence of one machine ----

  ghost predicate Converged(n: Node, f: Files) {
    n == Node(f, f, HashOf(f))
  }

  // The reply that UnchangedIff establishes for an active config with files f.
  function ReplyFor(f: Files, current: Hash): ConfigReply {
    if current == HashOf(f) then Unchanged else Changed(HashOf(f), f)
  }

  predicate NoFault(fate: Fate) { fate.failAt >= 3 && fate.reloads && fate.save == SaveDone }

  // One faultless poll brings the machine to the active files if and only if the saved
  // hash differs from theirs, or the machine has them already.
  lemma PollConvergesIff(n: Node, f: Files, fate: Fate)
    requires Complete(f) && NoFault(fate)
    ensures Converged(AfterSync(n, ReplyFor(f, n.saved), fate), f) <==>
            n.saved != HashOf(f) || (n.disk == f && n.loaded == f)
  {
    CompleteApply(n.disk, f);
  }

  // Once there, a poll answers Unchanged and leaves everything as it is.
  lemma ConvergedStays(n: Node, f: Files, fate: Fate)
    requires Converged(n, f)
    ensures ReplyFor(f, n.saved) == Unchanged && AfterSync(n, ReplyFor(f, n.saved), fate) == n
    ensures AckOf(ReplyFor(f, n.saved), fate) == None
  {
  }

  function Polls(n: Node, f: Files, fates: seq<Fate>): Node
    decreases |fates|
  {
    if fates == [] then n else Polls(AfterSync(n, ReplyFor(f, n.saved), fates[0]), f, fates[1..])
  }

  // A machine that has f takes an update to g, which fails after some files were replaced;
  // then f is active again. No number of polls repairs it: the hash file still names f.
  lemma {:induction false} TornMachineStays(f: Files, g: Files, broken: Fate, fates: seq<Fate>)
    requires Complete(g) && HashOf(f) != HashOf(g) && broken.failAt < 3 && Mix(f, g, broken.failAt) != f
    ensures var torn := AfterSync(Node(f, f, HashOf(f)), ReplyFor(g, HashOf(f)), broken);
            torn.disk != f && Polls(torn, f, fates) == torn
    decreases |fates|
  {
    if fates != [] {
      TornMachineStays(f, g, broken, fates[1..]);
    }
  }

  // The backend never sends an incomplete file.
  lemma BackendSendsComplete(rs: Rules.RuleSet, f: Files)
    requires IsGeneration(rs, f)
    ensures Complete(f)
  {
    FilesNotEmpty(rs, f);
  }
}
