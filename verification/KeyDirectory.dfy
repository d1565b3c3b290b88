/** The key-directory protocol of the encryption demo: command sequences over
    the files of one directory and an abstract TPM. */
module KeyDirectory {
  import opened Text
  import opened Tokens

  // ----- files and TPM objects -----

  datatype FileName = PlainDat | IvBin | SessionDat | PolicyDat | PrimaryCtx | KeyPub | KeyPriv | KeyName | KeyCtx
                    | CipherOut | ClearOut | PcrVal | Unrelated(name: string)

  datatype PolicyItem = PcrIs(value: int) | AuthNeeded

  datatype Key = Key(id: nat, policy: seq<PolicyItem>, auth: string)

  datatype Content =
    | TextFile(text: string)
    | Nonce(value: int)
    | SessionFile(id: nat)
    | PcrFile(value: int)
    | PolicyFile(items: seq<PolicyItem>)
    | PrimaryContext
    | PublicPart(key: Key)
    | PrivatePart(key: Key)
    | NameFile(key: Key)
    | KeyContext(key: Key)
    | Cipher(key: Key, iv: int, text: string)

  type Dir = map<FileName, Content>

  datatype Session = Session(trial: bool, items: seq<PolicyItem>)

  datatype World = World(dir: Dir, sessions: map<nat, Session>, nextId: nat, time: nat)

  /** What the outside contributes to one command: whether it fails for reasons
      of its own, the PCR value of the moment, random bits, what a decryption with
      the wrong key or nonce yields, and what a failing command leaves behind. */
  datatype Env = Env(ok: bool, pcr: int, random: int, noise: string, left: Dir)

  type Oracle = nat -> Env

  // ----- commands -----

  datatype Command =
    | Echo(text: string, out: FileName)
    | GetRandom(out: FileName)
    | StartAuthSession(trial: bool, session: FileName)
    | PcrRead(out: FileName)
    | PolicyPcr(session: FileName, from: Option<FileName>, save: Option<FileName>)
    | PolicyPassword(session: FileName, out: FileName)
    | FlushContext(session: FileName)
    | CreatePrimary(out: FileName)
    | Create(pub: FileName, priv: FileName, parent: FileName, policy: FileName, pin: Option<string>)
    | LoadKey(parent: FileName, pub: FileName, priv: FileName, name: FileName, ctx: FileName)
    | EncryptDecrypt(decrypt: bool, iv: FileName, key: FileName, out: FileName, input: FileName, session: FileName, pin: Option<string>)
    | Remove(files: set<FileName>)

  function Maybe(f: Option<FileName>): set<FileName> {
    match f case None => {} case Some(x) => {x}
  }

  function Reads(c: Command): set<FileName> {
    match c
    case Echo(_, _) => {}
    case GetRandom(_) => {}
    case StartAuthSession(_, _) => {}
    case PcrRead(_) => {}
    case PolicyPcr(session, from, _) => {session} + Maybe(from)
    case PolicyPassword(session, _) => {session}
    case FlushContext(session) => {session}
    case CreatePrimary(_) => {}
    case Create(_, _, parent, policy, _) => {parent, policy}
    case LoadKey(parent, pub, priv, _, _) => {parent, pub, priv}
    case EncryptDecrypt(_, iv, key, _, input, session, _) => {iv, key, input, session}
    case Remove(files) => files
  }

  /** The files a command may create, overwrite or delete. */
  function Writes(c: Command): set<FileName> {
    match c
    case Echo(_, out) => {out}
    case GetRandom(out) => {out}
    case StartAuthSession(_, session) => {session}
    case PcrRead(out) => {out}
    case PolicyPcr(_, _, save) => Maybe(save)
    case PolicyPassword(_, out) => {out}
    case FlushContext(_) => {}
    case CreatePrimary(out) => {out}
    case Create(pub, priv, _, _, _) => {pub, priv}
    case LoadKey(_, _, _, name, ctx) => {name, ctx}
    case EncryptDecrypt(_, _, _, out, _, _, _) => {out}
    case Remove(files) => files
  }

  /** The live session a session file refers to. */
  function SessionId(w: World, f: FileName): Option<nat> {
    if f in w.dir && w.dir[f].SessionFile? && w.dir[f].id in w.sessions then Some(w.dir[f].id) else None
  }

  function Extended(w: World, s: nat, item: PolicyItem): World
    requires s in w.sessions
  {
    w.(sessions := w.sessions[s := Session(w.sessions[s].trial, w.sessions[s].items + [item])])
  }

  /** The PCR value a policy command uses: from a file, or the current one. */
  function PcrFor(w: World, from: Option<FileName>, env: Env): Option<int> {
    match from
    case None => Some(env.pcr)
    case Some(f) => if f in w.dir && w.dir[f].PcrFile? then Some(w.dir[f].value) else None
  }

  /** A policy session unlocks a key when it went through the key's policy, every
      PCR in it still has its value, and the password is the key's if asked for. */
  predicate Unlocks(session: Session, key: Key, pin: Option<string>, pcr: int) {
    && !session.trial
    && session.items == key.policy
    && (forall i :: 0 <= i < |session.items| && session.items[i].PcrIs? ==> session.items[i].value == pcr)
    && (AuthNeeded in session.items ==> pin == Some(key.auth))
  }

  /** What a command does when nothing else goes wrong; None if it cannot succeed. */
  function Effect(w: World, c: Command, env: Env): Option<World> {
    match c
    case Echo(text, out) => Some(w.(dir := w.dir[out := TextFile(text + "\n")]))
    case GetRandom(out) => Some(w.(dir := w.dir[out := Nonce(env.random)]))
    case StartAuthSession(trial, session) =>
      Some(w.(dir := w.dir[session := SessionFile(w.nextId)],
              sessions := w.sessions[w.nextId := Session(trial, [])], nextId := w.nextId + 1))
    case PcrRead(out) => Some(w.(dir := w.dir[out := PcrFile(env.pcr)]))
    case PolicyPcr(session, from, save) => PolicyPcrEffect(w, session, from, save, env)
    case PolicyPassword(session, out) =>
      (match SessionId(w, session)
       case None => None
       case Some(s) =>
         var w' := Extended(w, s, AuthNeeded);
         Some(w'.(dir := w'.dir[out := PolicyFile(w'.sessions[s].items)])))
    case FlushContext(session) =>
      (match SessionId(w, session)
       case None => None
       case Some(s) => Some(w.(sessions := w.sessions - {s})))
    case CreatePrimary(out) => Some(w.(dir := w.dir[out := PrimaryContext]))
    case Create(pub, priv, parent, policy, pin) =>
      if parent in w.dir && w.dir[parent].PrimaryContext? && policy in w.dir && w.dir[policy].PolicyFile? then
        var key := Key(w.nextId, w.dir[policy].items, match pin case None => "" case Some(p) => p);
        Some(w.(dir := w.dir[pub := PublicPart(key)][priv := PrivatePart(key)], nextId := w.nextId + 1))
      else None
    case LoadKey(parent, pub, priv, name, ctx) =>
      if parent in w.dir && w.dir[parent].PrimaryContext? && pub in w.dir && w.dir[pub].PublicPart?
         && priv in w.dir && w.dir[priv] == PrivatePart(w.dir[pub].key)
      then Some(w.(dir := w.dir[name := NameFile(w.dir[pub].key)][ctx := KeyContext(w.dir[pub].key)]))
      else None
    case EncryptDecrypt(decrypt, iv, key, out, input, session, pin) =>
      CryptEffect(w, decrypt, iv, key, out, input, session, pin, env)
    case Remove(files) =>
      if files <= w.dir.Keys then Some(w.(dir := w.dir - files)) else None
  }

  /** In a policy session the TPM compares a given PCR value with the current one. */
  function PolicyPcrEffect(w: World, session: FileName, from: Option<FileName>, save: Option<FileName>, env: Env): Option<World> {
    match (SessionId(w, session), PcrFor(w, from, env))
    case (Some(s), Some(v)) =>
      if !w.sessions[s].trial && v != env.pcr then None
      else
        var w' := Extended(w, s, PcrIs(v));
        (match save
         case None => Some(w')
         case Some(f) => Some(w'.(dir := w'.dir[f := PolicyFile(w'.sessions[s].items)])))
    case _ => None
  }

  function CryptEffect(w: World, decrypt: bool, iv: FileName, key: FileName, out: FileName, input: FileName,
                       session: FileName, pin: Option<string>, env: Env): Option<World> {
    match CryptOutput(w, decrypt, iv, key, input, session, pin, env)
    case None => None
    case Some(c) => Some(w.(dir := w.dir[out := c]))
  }

  function CryptOutput(w: World, decrypt: bool, iv: FileName, key: FileName, input: FileName,
                       session: FileName, pin: Option<string>, env: Env): Option<Content> {
    if SessionId(w, session).None? || !({iv, key, input} <= w.dir.Keys)
       || !w.dir[iv].Nonce? || !w.dir[key].KeyContext? then None
    else
      var k, n := w.dir[key].key, w.dir[iv].value;
      if !Unlocks(w.sessions[SessionId(w, session).value], k, pin, env.pcr) then None
      else if decrypt then
        Some(TextFile(if w.dir[input].Cipher? && w.dir[input].key == k && w.dir[input].iv == n
                      then w.dir[input].text else env.noise))
      else if w.dir[input].TextFile? then Some(Cipher(k, n, w.dir[input].text))
      else None
  }

  /** A failing command may leave anything in the files it writes, and nothing else. */
  function Damaged(dir: Dir, c: Command, left: Dir): Dir {
    (dir - Writes(c)) + (left - (left.Keys - Writes(c)))
  }

  /** Running one command; the flag says whether its exit code was zero. */
  function Exec(o: Oracle, w: World, c: Command): (bool, World) {
    var env := o(w.time);
    match (if env.ok then Effect(w, c, env) else None)
    case Some(w') => (true, w'.(time := w.time + 1))
    case None => (false, w.(dir := Damaged(w.dir, c, env.left), time := w.time + 1))
  }

  /** A sequence of commands that stops at the first failure. */
  function RunScript(o: Oracle, w: World, script: seq<Command>): (bool, World)
    decreases |script|
  {
    if script == [] then (true, w)
    else
      var (ok, w') := Exec(o, w, script[0]);
      if ok then RunScript(o, w', script[1..]) else (false, w')
  }

  // ----- the two handlers as scripts -----

  predicate KnownType(nType: int) { 0 <= nType <= 2 }

  function PinFor(nType: int, pin: string): Option<string> {
    if nType == 0 then None else Some(pin)
  }

  function Prepare(plain: string): seq<Command> {
    [Echo(plain, PlainDat), GetRandom(IvBin), StartAuthSession(true, SessionDat)]
  }

  function TrialPolicy(nType: int): seq<Command> {
    if nType == 0 then [PcrRead(PcrVal), PolicyPcr(SessionDat, Some(PcrVal), Some(PolicyDat))]
    else if nType == 1 then [PolicyPassword(SessionDat, PolicyDat)]
    else [PcrRead(PcrVal), PolicyPcr(SessionDat, Some(PcrVal), Some(PolicyDat)), PolicyPassword(SessionDat, PolicyDat)]
  }

  function MakeKey(nType: int, pin: string): seq<Command> {
    [FlushContext(SessionDat), CreatePrimary(PrimaryCtx),
     Create(KeyPub, KeyPriv, PrimaryCtx, PolicyDat, PinFor(nType, pin)),
     LoadKey(PrimaryCtx, KeyPub, KeyPriv, KeyName, KeyCtx)]
  }

  function UsePolicy(nType: int): seq<Command> {
    if nType == 0 then [PcrRead(PcrVal), PolicyPcr(SessionDat, Some(PcrVal), None)]
    else if nType == 1 then [PolicyPassword(SessionDat, PolicyDat)]
    else [PcrRead(PcrVal), PolicyPcr(SessionDat, Some(PcrVal), None), PolicyPassword(SessionDat, PolicyDat)]
  }

  function Seal(nType: int, pin: string): seq<Command> {
    [EncryptDecrypt(false, IvBin, KeyCtx, CipherOut, PlainDat, SessionDat, PinFor(nType, pin)), FlushContext(SessionDat)]
  }

  function EncryptTemps(nType: int): set<FileName> {
    {KeyCtx, KeyName, PlainDat, PolicyDat, PrimaryCtx, SessionDat} + if nType == 1 then {} else {PcrVal}
  }

  /** The second half of the encryption: opening a policy session and sealing. */
  function SealScript(nType: int, pin: string): seq<Command> {
    [StartAuthSession(false, SessionDat)] + (UsePolicy(nType) + (Seal(nType, pin) + [Remove(EncryptTemps(nType))]))
  }

  function EncryptScript(nType: int, plain: string, pin: string): seq<Command> {
    Prepare(plain) + (TrialPolicy(nType) + (MakeKey(nType, pin) + SealScript(nType, pin)))
  }

  function ReplayPolicy(nType: int): seq<Command> {
    if nType == 0 then [PolicyPcr(SessionDat, None, None)]
    else if nType == 1 then [PolicyPassword(SessionDat, PolicyDat)]
    else [PolicyPcr(SessionDat, None, None), PolicyPassword(SessionDat, PolicyDat)]
  }

  function Reload(): seq<Command> {
    [CreatePrimary(PrimaryCtx), LoadKey(PrimaryCtx, KeyPub, KeyPriv, KeyName, KeyCtx)]
  }

  function Unseal(nType: int, pin: string): seq<Command> {
    [EncryptDecrypt(true, IvBin, KeyCtx, ClearOut, CipherOut, SessionDat, PinFor(nType, pin)), FlushContext(SessionDat)]
  }

  function DecryptTemps(nType: int): set<FileName> {
    {ClearOut, KeyCtx, KeyName, PrimaryCtx, SessionDat} + if nType == 0 then {} else {PolicyDat}
  }

  function DecryptScript(nType: int, pin: string): seq<Command> {
    [StartAuthSession(false, SessionDat)] + (ReplayPolicy(nType) + (Reload() + Unseal(nType, pin)))
  }

  /** Encryption; with an unknown type it stops after opening the session. */
  function Encrypt(o: Oracle, w: World, nType: int, plain: string, pin: string): (bool, World) {
    if KnownType(nType) then RunScript(o, w, EncryptScript(nType, plain, pin))
    else (false, RunScript(o, w, Prepare(plain)).1)
  }

  /** Decryption: the password shown, if it succeeds. The final clean-up may fail unnoticed. */
  function Decrypt(o: Oracle, w: World, nType: int, pin: string): (Option<string>, World) {
    if !KnownType(nType) then (None, RunScript(o, w, [StartAuthSession(false, SessionDat)]).1)
    else
      var (ok, w') := RunScript(o, w, DecryptScript(nType, pin));
      if !ok || ClearOut !in w'.dir then (None, w')
      else
        var shown := if w'.dir[ClearOut].TextFile? then FirstWord(w'.dir[ClearOut].text) else "";
        (Some(shown), Exec(o, w', Remove(DecryptTemps(nType))).1)
  }

  // ----- the demo as an object -----

  class Demo {
    const oracle: Oracle
    var world: World

    constructor (oracle: Oracle, world: World)
      ensures this.oracle == oracle && this.world == world
    {
      this.oracle, this.world := oracle, world;
    }

    /** `std::system`: true for a non-zero exit code. */
    method System(c: Command) returns (failed: bool)
      modifies this
      ensures (!failed, world) == Exec(oracle, old(world), c)
    {
      var (ok, w') := Exec(oracle, world, c);
      world := w';
      return !ok;
    }

    /** Commands one after the other, with an early return on failure. */
    method RunAll(script: seq<Command>) returns (ok: bool)
      modifies this
      ensures (ok, world) == RunScript(oracle, old(world), script)
    {
      hide Exec;
      var i := 0;
      while i < |script|
        invariant 0 <= i <= |script|
        invariant RunScript(oracle, world, script[i..]) == RunScript(oracle, old(world), script)
      {
        assert script[i..][1..] == script[i + 1..];
        var failed := System(script[i]);
        if failed {
          return false;
        }
        i := i + 1;
      }
      return true;
    }

    method EncryptThree(nType: int, plain: string, pin: string) returns (ok: bool)
      modifies this
      ensures (ok, world) == Encrypt(oracle, old(world), nType, plain, pin)
    {
      hide RunScript;
      if nType != 0 && nType != 1 && nType != 2 {
        ok := RunAll(Prepare(plain));
        return false;
      }
      ok := RunAll(EncryptScript(nType, plain, pin));
    }

    method DecryptThree(nType: int, pin: string) returns (shown: Option<string>)
      modifies this
      ensures (shown, world) == Decrypt(oracle, old(world), nType, pin)
    {
      hide RunScript, Exec;
      if nType != 0 && nType != 1 && nType != 2 {
        var started := RunAll([StartAuthSession(false, SessionDat)]);
        return None;
      }
      var ok := RunAll(DecryptScript(nType, pin));
      if !ok || ClearOut !in world.dir {
        return None;
      }
      var clear := world.dir[ClearOut];
      shown := Some(if clear.TextFile? then FirstWord(clear.text) else "");
      var ignored := System(Remove(DecryptTemps(nType)));
    }
  }

  // ----- running scripts piece by piece -----

  lemma {:induction false} RunAppend(o: Oracle, w: World, a: seq<Command>, b: seq<Command>)
    ensures RunScript(o, w, a + b)
         == if RunScript(o, w, a).0 then RunScript(o, RunScript(o, w, a).1, b) else RunScript(o, w, a)
    decreases |a|
  {
    hide Exec;
    if a == [] {
      assert a + b == b;
    } else {
      assert (a + b)[1..] == a[1..] + b;
      RunAppend(o, Exec(o, w, a[0]).1, a[1..], b);
    }
  }

  lemma {:induction false} RunOne(o: Oracle, w: World, c: Command)
    ensures RunScript(o, w, [c]) == Exec(o, w, c)
  {
    hide Exec;
    assert [c][1..] == [];
    var (ok, w') := Exec(o, w, c);
    assert RunScript(o, w', []) == (true, w');
  }

  lemma {:induction false} RunTwo(o: Oracle, w: World, a: Command, b: Command)
    ensures RunScript(o, w, [a, b]) == if Exec(o, w, a).0 then Exec(o, Exec(o, w, a).1, b) else Exec(o, w, a)
  {
    hide Exec;
    assert [a, b][1..] == [b];
    RunOne(o, Exec(o, w, a).1, b);
  }

  lemma {:induction false} RunThree(o: Oracle, w: World, a: Command, b: Command, c: Command)
    ensures RunScript(o, w, [a, b, c])
         == if Exec(o, w, a).0 then RunScript(o, Exec(o, w, a).1, [b, c]) else Exec(o, w, a)
  {
    hide Exec;
    assert [a, b, c][1..] == [b, c];
  }

  // ----- what scripts read and touch -----

  function AllWrites(script: seq<Command>): set<FileName> {
    if script == [] then {} else Writes(script[0]) + AllWrites(script[1..])
  }

  /** Every command reads only files in `have` or written by an earlier command
      and not removed since. */
  predicate SelfContained(script: seq<Command>, have: set<FileName>) {
    script == []
    || (Reads(script[0]) <= have
        && SelfContained(script[1..], if script[0].Remove? then have - Writes(script[0]) else have + Writes(script[0])))
  }

  ghost predicate Agree(a: Dir, b: Dir, files: set<FileName>) {
    forall f :: f in files ==> (f in a <==> f in b) && (f in a && f in b ==> a[f] == b[f])
  }

  /** A command changes only files it writes, whether it succeeds or fails. */
  lemma {:induction false} ExecTouches(o: Oracle, w: World, c: Command, f: FileName)
    requires f !in Writes(c)
    ensures var dir := Exec(o, w, c).1.dir;
            (f in dir <==> f in w.dir) && (f in dir ==> dir[f] == w.dir[f])
  {
    hide Unlocks;
  }

  lemma {:induction false} ScriptTouches(o: Oracle, w: World, script: seq<Command>, f: FileName)
    requires f !in AllWrites(script)
    ensures var dir := RunScript(o, w, script).1.dir;
            (f in dir <==> f in w.dir) && (f in dir ==> dir[f] == w.dir[f])
    decreases |script|
  {
    hide Exec, Writes;
    if script != [] {
      ExecTouches(o, w, script[0], f);
      ScriptTouches(o, Exec(o, w, script[0]).1, script[1..], f);
    }
  }

  /** Two outcomes that differ at most in files outside `files`. */
  ghost predicate Alike(x: Option<World>, y: Option<World>, files: set<FileName>) {
    match (x, y)
    case (None, None) => true
    case (Some(a), Some(b)) => a.(dir := b.dir) == b && Agree(a.dir, b.dir, files)
    case _ => false
  }

  lemma {:induction false} PolicyPcrLocal(a: World, b: World, session: FileName, from: Option<FileName>, save: Option<FileName>,
                                          env: Env, have: set<FileName>)
    requires a.(dir := b.dir) == b && Agree(a.dir, b.dir, have) && {session} + Maybe(from) <= have
    ensures Alike(PolicyPcrEffect(a, session, from, save, env), PolicyPcrEffect(b, session, from, save, env), have + Maybe(save))
  {
  }

  lemma {:induction false} CryptLocal(a: World, b: World, decrypt: bool, iv: FileName, key: FileName, out: FileName,
                                      input: FileName, session: FileName, pin: Option<string>, env: Env, have: set<FileName>)
    requires a.(dir := b.dir) == b && Agree(a.dir, b.dir, have) && {iv, key, input, session} <= have
    ensures Alike(CryptEffect(a, decrypt, iv, key, out, input, session, pin, env),
                  CryptEffect(b, decrypt, iv, key, out, input, session, pin, env), have + {out})
  {
    assert CryptOutput(a, decrypt, iv, key, input, session, pin, env) == CryptOutput(b, decrypt, iv, key, input, session, pin, env) by {
      hide Unlocks;
      assert iv in have && key in have && input in have && session in have;
    }
    hide CryptOutput;
  }

  lemma {:induction false} KeyLocal(a: World, b: World, c: Command, env: Env, have: set<FileName>)
    requires c.Create? || c.LoadKey?
    requires a.(dir := b.dir) == b && Agree(a.dir, b.dir, have) && Reads(c) <= have
    ensures Alike(Effect(a, c, env), Effect(b, c, env), have + Writes(c))
  {
    match c
    case Create(pub, priv, parent, policy, pin) => assert parent in have && policy in have;
    case LoadKey(parent, pub, priv, name, ctx) => assert parent in have && pub in have && priv in have;
  }

  lemma {:induction false} SessionLocal(a: World, b: World, c: Command, env: Env, have: set<FileName>)
    requires c.PolicyPassword? || c.FlushContext?
    requires a.(dir := b.dir) == b && Agree(a.dir, b.dir, have) && Reads(c) <= have
    ensures Alike(Effect(a, c, env), Effect(b, c, env), have + Writes(c))
  {
    assert SessionId(a, c.session) == SessionId(b, c.session) by {
      assert c.session in have;
    }
    hide SessionId;
  }

  lemma {:induction false} FreeLocal(a: World, b: World, c: Command, env: Env, have: set<FileName>)
    requires c.Echo? || c.GetRandom? || c.StartAuthSession? || c.PcrRead? || c.CreatePrimary? || c.Remove?
    requires a.(dir := b.dir) == b && Agree(a.dir, b.dir, have) && Reads(c) <= have
    ensures Alike(Effect(a, c, env), Effect(b, c, env), have + Writes(c))
  {
    if c.Remove? {
      assert c.files <= a.dir.Keys <==> c.files <= b.dir.Keys;
    }
  }

  lemma {:induction false} EffectLocal(a: World, b: World, c: Command, env: Env, have: set<FileName>)
    requires a.(dir := b.dir) == b && Agree(a.dir, b.dir, have) && Reads(c) <= have
    ensures Alike(Effect(a, c, env), Effect(b, c, env), have + Writes(c))
  {
    match c {
      case PolicyPcr(session, from, save) =>
        hide PolicyPcrEffect, Agree;
        PolicyPcrLocal(a, b, session, from, save, env, have);
      case EncryptDecrypt(decrypt, iv, key, out, input, session, pin) =>
        hide CryptEffect, Agree;
        CryptLocal(a, b, decrypt, iv, key, out, input, session, pin, env, have);
      case Create(_, _, _, _, _) =>
        hide *;
        KeyLocal(a, b, c, env, have);
      case LoadKey(_, _, _, _, _) =>
        hide *;
        KeyLocal(a, b, c, env, have);
      case PolicyPassword(_, _) =>
        hide *;
        SessionLocal(a, b, c, env, have);
      case FlushContext(_) =>
        hide *;
        SessionLocal(a, b, c, env, have);
      case _ =>
        hide *;
        FreeLocal(a, b, c, env, have);
    }
  }

  /** Commands in worlds that differ only in files they do not read do the same. */
  lemma {:induction false} ExecLocal(o: Oracle, a: World, b: World, c: Command, have: set<FileName>)
    requires a.(dir := b.dir) == b
    requires Agree(a.dir, b.dir, have) && Reads(c) <= have
    ensures var (ok, a') := Exec(o, a, c);
            var (ok', b') := Exec(o, b, c);
            ok == ok' && a'.(dir := b'.dir) == b' && Agree(a'.dir, b'.dir, have + Writes(c))
  {
    hide Effect, Reads, Writes;
    EffectLocal(a, b, c, o(a.time), have);
  }

  /** A script that reads only what it finds in `have` or wrote itself behaves the
      same in all worlds that agree on `have`, and if it ends well they agree on
      what it wrote as well. */
  lemma {:induction false} ScriptLocal(o: Oracle, a: World, b: World, script: seq<Command>, have: set<FileName>)
    requires a.(dir := b.dir) == b
    requires Agree(a.dir, b.dir, have) && SelfContained(script, have)
    ensures var (ok, a') := RunScript(o, a, script);
            var (ok', b') := RunScript(o, b, script);
            ok == ok' && a'.(dir := b'.dir) == b' && (ok ==> Agree(a'.dir, b'.dir, have + AllWrites(script)))
    decreases |script|
  {
    if script == [] {
      assert have + AllWrites(script) == have;
    } else {
      var c := script[0];
      ExecLocal(o, a, b, c, have);
      hide Exec, Reads, Writes;
      if Exec(o, a, c).0 {
        ContainedMore(script[1..], if c.Remove? then have - Writes(c) else have + Writes(c), have + Writes(c));
        ScriptLocal(o, Exec(o, a, c).1, Exec(o, b, c).1, script[1..], have + Writes(c));
        assert have + AllWrites(script) == have + Writes(c) + AllWrites(script[1..]);
      }
    }
  }

  // ----- what each part of the encryption leaves -----

  function PolicyOf(nType: int, pcr: int): seq<PolicyItem> {
    if nType == 0 then [PcrIs(pcr)] else if nType == 1 then [AuthNeeded] else [PcrIs(pcr), AuthNeeded]
  }

  function AuthOf(nType: int, pin: string): string {
    if nType == 0 then "" else pin
  }

  /** No command in this stretch of time fails for reasons of its own. */
  predicate AllOk(o: Oracle, from: nat, count: nat) {
    forall t :: from <= t < from + count ==> o(t).ok
  }

  lemma {:induction false} PrepareRuns(o: Oracle, w: World, plain: string)
    ensures var (ok, w') := RunScript(o, w, Prepare(plain));
         && (AllOk(o, w.time, 3) ==> ok)
         && (ok ==> w' == World(
                     w.dir[PlainDat := TextFile(plain + "\n")][IvBin := Nonce(o(w.time + 1).random)][SessionDat := SessionFile(w.nextId)],
                     w.sessions[w.nextId := Session(true, [])], w.nextId + 1, w.time + 3))
  {
    var a, b, c := Echo(plain, PlainDat), GetRandom(IvBin), StartAuthSession(true, SessionDat);
    RunThree(o, w, a, b, c);
    RunTwo(o, Exec(o, w, a).1, b, c);
  }

  lemma {:induction false} TrialPolicyRuns(o: Oracle, w: World, nType: int, s: nat)
    requires KnownType(nType) && SessionId(w, SessionDat) == Some(s) && w.sessions[s] == Session(true, [])
    ensures var (ok, w') := RunScript(o, w, TrialPolicy(nType));
         && var p := PolicyOf(nType, o(w.time).pcr);
         && (AllOk(o, w.time, |TrialPolicy(nType)|) ==> ok)
         && (ok ==>
              && w'.dir == (if nType == 1 then w.dir else w.dir[PcrVal := PcrFile(o(w.time).pcr)])[PolicyDat := PolicyFile(p)]
              && w'.sessions == w.sessions[s := Session(true, p)]
              && w'.nextId == w.nextId && w'.time == w.time + |TrialPolicy(nType)|)
  {
    var a, b, c := PcrRead(PcrVal), PolicyPcr(SessionDat, Some(PcrVal), Some(PolicyDat)), PolicyPassword(SessionDat, PolicyDat);
    if nType == 0 {
      RunTwo(o, w, a, b);
      assert w.sessions[s].items + [PcrIs(o(w.time).pcr)] == [PcrIs(o(w.time).pcr)];
    } else if nType == 1 {
      RunOne(o, w, c);
      assert w.sessions[s].items + [AuthNeeded] == [AuthNeeded];
    } else {
      RunThree(o, w, a, b, c);
      RunTwo(o, Exec(o, w, a).1, b, c);
      assert w.sessions[s].items + [PcrIs(o(w.time).pcr)] + [AuthNeeded] == PolicyOf(2, o(w.time).pcr);
    }
  }

  lemma {:induction false} PrimaryRuns(o: Oracle, w: World, s: nat)
    requires SessionId(w, SessionDat) == Some(s)
    ensures var (ok, w') := RunScript(o, w, [FlushContext(SessionDat), CreatePrimary(PrimaryCtx)]);
         && (AllOk(o, w.time, 2) ==> ok)
         && (ok ==> w' == World(w.dir[PrimaryCtx := PrimaryContext], w.sessions - {s}, w.nextId, w.time + 2))
  {
    RunTwo(o, w, FlushContext(SessionDat), CreatePrimary(PrimaryCtx));
  }

  lemma {:induction false} CreateRuns(o: Oracle, w: World, nType: int, pin: string, items: seq<PolicyItem>)
    requires PrimaryCtx in w.dir && w.dir[PrimaryCtx] == PrimaryContext
    requires PolicyDat in w.dir && w.dir[PolicyDat] == PolicyFile(items)
    ensures var (ok, w') := RunScript(o, w, [Create(KeyPub, KeyPriv, PrimaryCtx, PolicyDat, PinFor(nType, pin)),
                                             LoadKey(PrimaryCtx, KeyPub, KeyPriv, KeyName, KeyCtx)]);
         && var k := Key(w.nextId, items, AuthOf(nType, pin));
         && (AllOk(o, w.time, 2) ==> ok)
         && (ok ==> w' == World(w.dir[KeyPub := PublicPart(k)][KeyPriv := PrivatePart(k)][KeyName := NameFile(k)][KeyCtx := KeyContext(k)],
                                w.sessions, w.nextId + 1, w.time + 2))
  {
    RunTwo(o, w, Create(KeyPub, KeyPriv, PrimaryCtx, PolicyDat, PinFor(nType, pin)), LoadKey(PrimaryCtx, KeyPub, KeyPriv, KeyName, KeyCtx));
  }

  lemma {:induction false} MakeKeyRuns(o: Oracle, w: World, nType: int, pin: string, s: nat, items: seq<PolicyItem>)
    requires KnownType(nType) && SessionId(w, SessionDat) == Some(s)
    requires PolicyDat in w.dir && w.dir[PolicyDat] == PolicyFile(items)
    ensures var (ok, w') := RunScript(o, w, MakeKey(nType, pin));
         && var k := Key(w.nextId, items, AuthOf(nType, pin));
         && (AllOk(o, w.time, 4) ==> ok)
         && (ok ==> w' == World(w.dir[PrimaryCtx := PrimaryContext][KeyPub := PublicPart(k)][KeyPriv := PrivatePart(k)]
                                     [KeyName := NameFile(k)][KeyCtx := KeyContext(k)],
                                w.sessions - {s}, w.nextId + 1, w.time + 4))
  {
    hide RunScript, Effect;
    var made := [Create(KeyPub, KeyPriv, PrimaryCtx, PolicyDat, PinFor(nType, pin)), LoadKey(PrimaryCtx, KeyPub, KeyPriv, KeyName, KeyCtx)];
    assert MakeKey(nType, pin) == [FlushContext(SessionDat), CreatePrimary(PrimaryCtx)] + made;
    RunAppend(o, w, [FlushContext(SessionDat), CreatePrimary(PrimaryCtx)], made);
    PrimaryRuns(o, w, s);
    if RunScript(o, w, [FlushContext(SessionDat), CreatePrimary(PrimaryCtx)]).0 {
      CreateRuns(o, RunScript(o, w, [FlushContext(SessionDat), CreatePrimary(PrimaryCtx)]).1, nType, pin, items);
    }
  }

  /** A policy session accepts the PCR file only while it holds the current value. */
  lemma {:induction false} UsePolicyRuns(o: Oracle, w: World, nType: int, s: nat)
    requires KnownType(nType) && SessionId(w, SessionDat) == Some(s) && w.sessions[s] == Session(false, [])
    ensures var (ok, w') := RunScript(o, w, UsePolicy(nType));
         && var v := o(w.time).pcr;
         && (AllOk(o, w.time, |UsePolicy(nType)|) && (nType != 1 ==> o(w.time + 1).pcr == v) ==> ok)
         && (ok ==>
              && (nType != 1 ==> o(w.time + 1).pcr == v)
              && w'.dir == (match nType
                            case 0 => w.dir[PcrVal := PcrFile(v)]
                            case 1 => w.dir[PolicyDat := PolicyFile([AuthNeeded])]
                            case _ => w.dir[PcrVal := PcrFile(v)][PolicyDat := PolicyFile(PolicyOf(2, v))])
              && w'.sessions == w.sessions[s := Session(false, PolicyOf(nType, v))]
              && w'.nextId == w.nextId && w'.time == w.time + |UsePolicy(nType)|)
  {
    var a, b, c := PcrRead(PcrVal), PolicyPcr(SessionDat, Some(PcrVal), None), PolicyPassword(SessionDat, PolicyDat);
    if nType == 0 {
      RunTwo(o, w, a, b);
      assert w.sessions[s].items + [PcrIs(o(w.time).pcr)] == [PcrIs(o(w.time).pcr)];
    } else if nType == 1 {
      RunOne(o, w, c);
      assert w.sessions[s].items + [AuthNeeded] == [AuthNeeded];
    } else {
      RunThree(o, w, a, b, c);
      RunTwo(o, Exec(o, w, a).1, b, c);
      assert w.sessions[s].items + [PcrIs(o(w.time).pcr)] + [AuthNeeded] == PolicyOf(2, o(w.time).pcr);
    }
  }

  lemma {:induction false} StartRuns(o: Oracle, w: World)
    ensures var (ok, w') := RunScript(o, w, [StartAuthSession(false, SessionDat)]);
         && (o(w.time).ok ==> ok)
         && (ok ==> w' == World(w.dir[SessionDat := SessionFile(w.nextId)], w.sessions[w.nextId := Session(false, [])],
                                w.nextId + 1, w.time + 1))
  {
    RunOne(o, w, StartAuthSession(false, SessionDat));
  }

  lemma {:induction false} RemoveRuns(o: Oracle, w: World, files: set<FileName>)
    ensures var (ok, w') := RunScript(o, w, [Remove(files)]);
         && (o(w.time).ok && files <= w.dir.Keys ==> ok)
         && (ok ==> w'.dir == w.dir - files && w'.sessions == w.sessions)
  {
    RunOne(o, w, Remove(files));
  }

  lemma {:induction false} SealRuns(o: Oracle, w: World, nType: int, pin: string, s: nat, k: Key, iv: int, text: string)
    requires KnownType(nType) && SessionId(w, SessionDat) == Some(s)
    requires {IvBin, KeyCtx, PlainDat} <= w.dir.Keys
    requires w.dir[IvBin] == Nonce(iv) && w.dir[KeyCtx] == KeyContext(k) && w.dir[PlainDat] == TextFile(text)
    ensures var (ok, w') := RunScript(o, w, Seal(nType, pin));
         && var unlocked := Unlocks(w.sessions[s], k, PinFor(nType, pin), o(w.time).pcr);
         && (AllOk(o, w.time, 2) && unlocked ==> ok)
         && (ok ==> unlocked && w'.dir == w.dir[CipherOut := Cipher(k, iv, text)] && w'.time == w.time + 2
                    && w'.sessions == w.sessions - {s})
  {
    hide Unlocks;
    RunTwo(o, w, EncryptDecrypt(false, IvBin, KeyCtx, CipherOut, PlainDat, SessionDat, PinFor(nType, pin)), FlushContext(SessionDat));
  }

  // ----- what a whole encryption leaves -----

  /** The four files from which `plain` can be recovered. */
  predicate Sealed(dir: Dir, nType: int, plain: string, pin: string, k: Key, pcr: int) {
    && {IvBin, KeyPub, KeyPriv, CipherOut} <= dir.Keys
    && dir[IvBin].Nonce?
    && dir[KeyPub] == PublicPart(k)
    && dir[KeyPriv] == PrivatePart(k)
    && dir[CipherOut] == Cipher(k, dir[IvBin].value, plain + "\n")
    && k.policy == PolicyOf(nType, pcr)
    && k.auth == AuthOf(nType, pin)
  }

  const KEPT: set<FileName> := {IvBin, KeyPub, KeyPriv, CipherOut}

  /** The key is made and loaded; the plaintext and the nonce are in place. */
  predicate KeyReady(dir: Dir, plain: string, k: Key) {
    && {PlainDat, IvBin, KeyPub, KeyPriv, KeyCtx} <= dir.Keys
    && dir[PlainDat] == TextFile(plain + "\n")
    && dir[IvBin].Nonce?
    && dir[KeyPub] == PublicPart(k)
    && dir[KeyPriv] == PrivatePart(k)
    && dir[KeyCtx] == KeyContext(k)
  }

  /** `after` differs from `before` at most in the kept files and `temps`. */
  ghost predicate SameOutside(before: Dir, after: Dir, temps: set<FileName>) {
    forall f :: f !in KEPT && f !in temps ==> (f in after <==> f in before) && (f in after ==> after[f] == before[f])
  }

  /** The directory once the key is loaded. */
  function KeyDir(dir: Dir, nType: int, plain: string, iv: int, id: nat, pcr: int, k: Key): Dir {
    var prepared := dir[PlainDat := TextFile(plain + "\n")][IvBin := Nonce(iv)][SessionDat := SessionFile(id)];
    (if nType == 1 then prepared else prepared[PcrVal := PcrFile(pcr)])[PolicyDat := PolicyFile(k.policy)]
      [PrimaryCtx := PrimaryContext][KeyPub := PublicPart(k)][KeyPriv := PrivatePart(k)]
      [KeyName := NameFile(k)][KeyCtx := KeyContext(k)]
  }

  lemma {:induction false} KeyDirIsReady(dir: Dir, nType: int, plain: string, iv: int, id: nat, pcr: int, k: Key)
    ensures var after := KeyDir(dir, nType, plain, iv, id, pcr, k);
         && KeyReady(after, plain, k)
         && SameOutside(dir, after, EncryptTemps(nType))
         && EncryptTemps(nType) <= after.Keys
  {
  }

  lemma {:induction false} KeyPhase(o: Oracle, w: World, nType: int, plain: string, pin: string, rest: seq<Command>)
      returns (ok: bool, w3: World, k: Key)
    requires KnownType(nType)
    ensures RunScript(o, w, Prepare(plain) + (TrialPolicy(nType) + (MakeKey(nType, pin) + rest))).0
         == (ok && RunScript(o, w3, rest).0)
    ensures AllOk(o, w.time, 7 + |TrialPolicy(nType)|) ==> ok
    ensures ok ==>
              && RunScript(o, w, Prepare(plain) + (TrialPolicy(nType) + (MakeKey(nType, pin) + rest))) == RunScript(o, w3, rest)
              && KeyReady(w3.dir, plain, k) && k.policy == PolicyOf(nType, o(w.time + 3).pcr) && k.auth == AuthOf(nType, pin)
              && SameOutside(w.dir, w3.dir, EncryptTemps(nType))
              && EncryptTemps(nType) <= w3.dir.Keys
              && w3.time == w.time + 7 + |TrialPolicy(nType)|
              && w3.sessions == w.sessions - {w.nextId} && w3.nextId == w.nextId + 2
  {
    hide RunScript, Exec, Effect, Prepare, TrialPolicy, MakeKey, KeyReady, EncryptTemps, SameOutside, PolicyOf, AuthOf;
    var s1, s2, s3 := Prepare(plain), TrialPolicy(nType), MakeKey(nType, pin);
    RunAppend(o, w, s1, s2 + (s3 + rest));
    PrepareRuns(o, w, plain);
    var w1 := RunScript(o, w, s1).1;
    ok, w3, k := false, w, Key(0, [], "");
    if RunScript(o, w, s1).0 {
      RunAppend(o, w1, s2, s3 + rest);
      TrialPolicyRuns(o, w1, nType, w.nextId);
      var w2 := RunScript(o, w1, s2).1;
      if RunScript(o, w1, s2).0 {
        RunAppend(o, w2, s3, rest);
        MakeKeyRuns(o, w2, nType, pin, w.nextId, PolicyOf(nType, o(w1.time).pcr));
        ok, w3 := RunScript(o, w2, s3).0, RunScript(o, w2, s3).1;
        k := Key(w2.nextId, PolicyOf(nType, o(w1.time).pcr), AuthOf(nType, pin));
        KeyDirIsReady(w.dir, nType, plain, o(w.time + 1).random, w.nextId, o(w1.time).pcr, k);
      }
    }
  }

  /** The PCR value of the key's policy is still the current one throughout the
      policy session in which the plaintext is sealed. */
  predicate PcrKept(o: Oracle, start: nat, nType: int, pcr: int) {
    nType != 1 ==> o(start + 1).pcr == pcr && o(start + 2).pcr == pcr && o(start + 1 + |UsePolicy(nType)|).pcr == pcr
  }

  lemma {:induction false} ReleasedIs(nType: int, k: Key, oldPin: string, pin: string, pcr: int, v: int, use: int)
    requires KnownType(nType) && k.policy == PolicyOf(nType, pcr) && k.auth == AuthOf(nType, oldPin)
    ensures Unlocks(Session(false, PolicyOf(nType, v)), k, PinFor(nType, pin), use)
       <==> (nType != 1 ==> v == pcr && use == pcr) && (nType != 0 ==> pin == oldPin)
  {
    var items := PolicyOf(nType, v);
    assert nType != 1 ==> items[0] == PcrIs(v) && k.policy[0] == PcrIs(pcr);
    assert nType != 0 ==> AuthNeeded in items by {
      if nType == 1 { assert items[0] == AuthNeeded; } else if nType == 2 { assert items[1] == AuthNeeded; }
    }
  }

  /** The directory once a policy session has gone through the policy. */
  function UsedDir(dir: Dir, nType: int, id: nat, pcr: int): Dir {
    var begun := dir[SessionDat := SessionFile(id)];
    match nType
    case 0 => begun[PcrVal := PcrFile(pcr)]
    case 1 => begun[PolicyDat := PolicyFile([AuthNeeded])]
    case _ => begun[PcrVal := PcrFile(pcr)][PolicyDat := PolicyFile(PolicyOf(2, pcr))]
  }

  /** The directory once the plaintext is sealed and the temporaries are removed. */
  function SealDir(dir: Dir, nType: int, id: nat, pcr: int, sealed: Content): Dir {
    UsedDir(dir, nType, id, pcr)[CipherOut := sealed] - EncryptTemps(nType)
  }

  lemma {:induction false} UsedDirIs(dir: Dir, nType: int, id: nat, pcr: int, plain: string, k: Key)
    requires KnownType(nType) && KeyReady(dir, plain, k) && EncryptTemps(nType) <= dir.Keys
    ensures var used := UsedDir(dir, nType, id, pcr);
         && SessionDat in used && used[SessionDat] == SessionFile(id)
         && {IvBin, KeyCtx, PlainDat} <= used.Keys && EncryptTemps(nType) <= used.Keys
         && used[IvBin] == dir[IvBin] && used[KeyCtx] == KeyContext(k) && used[PlainDat] == TextFile(plain + "\n")
  {
    hide PolicyOf;
  }

  lemma {:induction false} SealDirIs(dir: Dir, nType: int, id: nat, pcr: int, sealed: Content, plain: string, k: Key)
    requires KnownType(nType) && KeyReady(dir, plain, k)
    ensures var after := SealDir(dir, nType, id, pcr, sealed);
         && KEPT <= after.Keys && after.Keys !! EncryptTemps(nType)
         && after[IvBin] == dir[IvBin] && after[KeyPub] == dir[KeyPub] && after[KeyPriv] == dir[KeyPriv]
         && after[CipherOut] == sealed
         && SameOutside(dir, after, EncryptTemps(nType))
  {
  }

  /** Opening a policy session and going through the policy. */
  lemma {:induction false} SessionPhase(o: Oracle, w: World, nType: int, rest: seq<Command>) returns (ok: bool, w': World)
    requires KnownType(nType)
    ensures RunScript(o, w, [StartAuthSession(false, SessionDat)] + (UsePolicy(nType) + rest)).0 == (ok && RunScript(o, w', rest).0)
    ensures AllOk(o, w.time, 1 + |UsePolicy(nType)|) && (nType != 1 ==> o(w.time + 2).pcr == o(w.time + 1).pcr) ==> ok
    ensures var v := o(w.time + 1).pcr;
            ok ==>
              && RunScript(o, w, [StartAuthSession(false, SessionDat)] + (UsePolicy(nType) + rest)) == RunScript(o, w', rest)
              && (nType != 1 ==> o(w.time + 2).pcr == v)
              && w'.dir == UsedDir(w.dir, nType, w.nextId, v)
              && w.nextId in w'.sessions && w'.sessions[w.nextId] == Session(false, PolicyOf(nType, v))
              && w'.sessions - {w.nextId} == w.sessions - {w.nextId}
              && w'.time == w.time + 1 + |UsePolicy(nType)|
  {
    hide RunScript, Exec, Effect, UsePolicy, PolicyOf;
    var start := [StartAuthSession(false, SessionDat)];
    RunAppend(o, w, start, UsePolicy(nType) + rest);
    StartRuns(o, w);
    ok, w' := false, w;
    if RunScript(o, w, start).0 {
      var w4 := RunScript(o, w, start).1;
      RunAppend(o, w4, UsePolicy(nType), rest);
      UsePolicyRuns(o, w4, nType, w.nextId);
      ok, w' := RunScript(o, w4, UsePolicy(nType)).0, RunScript(o, w4, UsePolicy(nType)).1;
    }
  }

  lemma {:induction false} SealPhase(o: Oracle, w: World, nType: int, plain: string, pin: string, k: Key, pcr: int)
    requires KnownType(nType) && KeyReady(w.dir, plain, k) && EncryptTemps(nType) <= w.dir.Keys
    requires k.policy == PolicyOf(nType, pcr) && k.auth == AuthOf(nType, pin)
    ensures var (ok, w') := RunScript(o, w, SealScript(nType, pin));
         && var dir := w'.dir;
         && (AllOk(o, w.time, 4 + |UsePolicy(nType)|) && PcrKept(o, w.time, nType, pcr) ==> ok)
         && (ok ==>
              && PcrKept(o, w.time, nType, pcr)
              && KEPT <= dir.Keys && dir.Keys !! EncryptTemps(nType)
              && dir[IvBin] == w.dir[IvBin] && dir[KeyPub] == w.dir[KeyPub] && dir[KeyPriv] == w.dir[KeyPriv]
              && dir[CipherOut] == Cipher(k, w.dir[IvBin].value, plain + "\n")
              && SameOutside(w.dir, dir, EncryptTemps(nType))
              && w'.sessions == w.sessions - {w.nextId})
  {
    hide RunScript, Exec, Effect, UsePolicy, Seal, EncryptTemps, Unlocks, PolicyOf, AuthOf, SameOutside, UsedDir;
    var seal, remove := Seal(nType, pin), [Remove(EncryptTemps(nType))];
    var ok, w5 := SessionPhase(o, w, nType, seal + remove);
    if ok {
      var iv, v := w.dir[IvBin].value, o(w.time + 1).pcr;
      UsedDirIs(w.dir, nType, w.nextId, v, plain, k);
      RunAppend(o, w5, seal, remove);
      SealRuns(o, w5, nType, pin, w.nextId, k, iv, plain + "\n");
      ReleasedIs(nType, k, pin, pin, pcr, v, o(w5.time).pcr);
      if RunScript(o, w5, seal).0 {
        RemoveRuns(o, RunScript(o, w5, seal).1, EncryptTemps(nType));
        SealDirIs(w.dir, nType, w.nextId, v, Cipher(k, iv, plain + "\n"), plain, k);
      }
    }
  }

  /** A successful encryption, whatever the directory held before, leaves the four
      files, none of its temporaries, and every other file as it was. */
  lemma {:induction false} EncryptSeals(o: Oracle, w: World, nType: int, plain: string, pin: string) returns (k: Key)
    requires Encrypt(o, w, nType, plain, pin).0
    ensures var dir := Encrypt(o, w, nType, plain, pin).1.dir;
         && KnownType(nType)
         && Sealed(dir, nType, plain, pin, k, o(w.time + 3).pcr)
         && dir.Keys !! EncryptTemps(nType)
         && SameOutside(w.dir, dir, EncryptTemps(nType))
         && Encrypt(o, w, nType, plain, pin).1.sessions == w.sessions - {w.nextId} - {w.nextId + 2}
  {
    hide RunScript, Exec, Effect, Prepare, TrialPolicy, MakeKey, SealScript, EncryptTemps, AllOk, PcrKept;
    var ok, w3, k' := KeyPhase(o, w, nType, plain, pin, SealScript(nType, pin));
    SealPhase(o, w3, nType, plain, pin, k', o(w.time + 3).pcr);
    k := k';
  }

  /** If no command fails for reasons of its own, encryption succeeds exactly for
      the three types, and with a PCR policy only if the PCR keeps its value. */
  lemma {:induction false} EncryptSucceeds(o: Oracle, w: World, nType: int, plain: string, pin: string)
    requires AllOk(o, w.time, 11 + |TrialPolicy(nType)| + |UsePolicy(nType)|)
    ensures Encrypt(o, w, nType, plain, pin).0
       <==> (nType == 0 || nType == 1 || nType == 2) && PcrKept(o, w.time + 7 + |TrialPolicy(nType)|, nType, o(w.time + 3).pcr)
  {
    hide RunScript, Exec, Effect, Prepare, TrialPolicy, MakeKey, SealScript, EncryptTemps, PcrKept, UsePolicy;
    if KnownType(nType) {
      var ok, w3, k := KeyPhase(o, w, nType, plain, pin, SealScript(nType, pin));
      SealPhase(o, w3, nType, plain, pin, k, o(w.time + 3).pcr);
    }
  }

  /** With an unknown type, encryption fails after the plaintext, the nonce and a
      trial session are there, and decryption after opening a policy session. */
  lemma {:induction false} UnknownType(o: Oracle, w: World, nType: int, plain: string, pin: string)
    requires nType < 0 || nType > 2
    ensures var (ok, w') := Encrypt(o, w, nType, plain, pin);
         && !ok
         && (o(w.time).ok && o(w.time + 1).ok && o(w.time + 2).ok ==>
               && w'.dir == w.dir[PlainDat := TextFile(plain + "\n")][IvBin := Nonce(o(w.time + 1).random)][SessionDat := SessionFile(w.nextId)]
               && w'.sessions == w.sessions[w.nextId := Session(true, [])])
    ensures var (shown, w') := Decrypt(o, w, nType, pin);
         && shown.None?
         && (o(w.time).ok ==>
               && w'.dir == w.dir[SessionDat := SessionFile(w.nextId)]
               && w'.sessions == w.sessions[w.nextId := Session(false, [])])
  {
    hide RunScript, Prepare;
    PrepareRuns(o, w, plain);
    StartRuns(o, w);
  }

  /** What the first two commands of an encryption do to the kept files. */
  lemma {:induction false} NonceFirst(o: Oracle, w: World, plain: string, rest: seq<Command>)
    requires IvBin !in AllWrites(rest)
    ensures var dir, left := RunScript(o, w, Prepare(plain) + rest).1.dir, o(w.time + 1).left;
         && (!o(w.time).ok ==> Agree(w.dir, dir, KEPT))
         && (o(w.time).ok && !o(w.time + 1).ok ==>
               && Agree(w.dir, dir, KEPT - {IvBin})
               && (IvBin in dir <==> IvBin in left) && (IvBin in dir ==> dir[IvBin] == left[IvBin]))
         && (o(w.time).ok && o(w.time + 1).ok ==> IvBin in dir && dir[IvBin] == Nonce(o(w.time + 1).random))
  {
    var a, b, c := Echo(plain, PlainDat), GetRandom(IvBin), StartAuthSession(true, SessionDat);
    var w1 := Exec(o, w, a).1;
    var w2 := Exec(o, w1, b).1;
    NonceCommands(o, w, plain);
    assert Prepare(plain) + rest == [a] + ([b] + ([c] + rest));
    RunAppend(o, w, [a], [b] + ([c] + rest));
    RunAppend(o, w1, [b], [c] + rest);
    RunOne(o, w, a);
    RunOne(o, w1, b);
    WritesCons(c, rest);
    hide RunScript, Exec, AllWrites;
    ScriptTouches(o, w2, [c] + rest, IvBin);
  }

  lemma {:induction false} NonceCommands(o: Oracle, w: World, plain: string)
    ensures var (ok, w1) := Exec(o, w, Echo(plain, PlainDat));
         && ok == o(w.time).ok && w1.time == w.time + 1 && Agree(w.dir, w1.dir, KEPT)
         && var (ok', w2) := Exec(o, w1, GetRandom(IvBin));
         && ok' == o(w.time + 1).ok && Agree(w1.dir, w2.dir, KEPT - {IvBin})
         && (ok' ==> IvBin in w2.dir && w2.dir[IvBin] == Nonce(o(w.time + 1).random))
         && (!ok' ==> (IvBin in w2.dir <==> IvBin in o(w.time + 1).left)
                      && (IvBin in w2.dir ==> w2.dir[IvBin] == o(w.time + 1).left[IvBin]))
  {
  }

  /** The nonce an encryption finds in the directory survives. */
  predicate NonceSurvives(o: Oracle, w: World) {
    !o(w.time).ok || (!o(w.time + 1).ok && IvBin in w.dir && IvBin in o(w.time + 1).left && o(w.time + 1).left[IvBin] == w.dir[IvBin])
  }

  /** Encrypting again overwrites the nonce with the second command. If the run
      fails and its nonce is a new one, what an earlier run sealed is still sealed
      exactly when the failure was that early; later, the old cipher opens with
      nothing the directory holds. */
  lemma {:induction false} FailedEncrypt(o: Oracle, w: World, nType: int, plain: string, pin: string,
                                         oldType: int, text: string, oldPin: string, k: Key, pcr: int)
    requires Sealed(w.dir, oldType, text, oldPin, k, pcr)
    requires o(w.time + 1).random != w.dir[IvBin].value
    requires !Encrypt(o, w, nType, plain, pin).0
    ensures var dir := Encrypt(o, w, nType, plain, pin).1.dir;
         && (NonceSurvives(o, w) ==> Agree(w.dir, dir, KEPT) && Sealed(dir, oldType, text, oldPin, k, pcr))
         && (!NonceSurvives(o, w) ==> !Agree(w.dir, dir, KEPT))
         && (!NonceSurvives(o, w) && Agree(w.dir, dir, {CipherOut}) ==>
               forall n, t, p, k', v :: !Sealed(dir, n, t, p, k', v))
  {
    var dir := Encrypt(o, w, nType, plain, pin).1.dir;
    EncryptNonce(o, w, nType, plain, pin);
    assert forall f :: f in KEPT ==> f == IvBin || f in KEPT - {IvBin};
    hide Encrypt, PolicyOf, AuthOf;
    forall n, t, p, k', v | !NonceSurvives(o, w) && Agree(w.dir, dir, {CipherOut}) ensures !Sealed(dir, n, t, p, k', v) {
      assert CipherOut in {CipherOut};
    }
  }

  lemma {:induction false} EncryptNonce(o: Oracle, w: World, nType: int, plain: string, pin: string)
    ensures var dir, left := Encrypt(o, w, nType, plain, pin).1.dir, o(w.time + 1).left;
         && (!o(w.time).ok ==> Agree(w.dir, dir, KEPT))
         && (o(w.time).ok && !o(w.time + 1).ok ==>
               && Agree(w.dir, dir, KEPT - {IvBin})
               && (IvBin in dir <==> IvBin in left) && (IvBin in dir ==> dir[IvBin] == left[IvBin]))
         && (o(w.time).ok && o(w.time + 1).ok ==> IvBin in dir && dir[IvBin] == Nonce(o(w.time + 1).random))
  {
    hide RunScript, TrialPolicy, MakeKey, SealScript, Prepare, Agree;
    if KnownType(nType) {
      LaterWrites(nType, pin);
      NonceFirst(o, w, plain, TrialPolicy(nType) + (MakeKey(nType, pin) + SealScript(nType, pin)));
    } else {
      assert Prepare(plain) + [] == Prepare(plain);
      NonceFirst(o, w, plain, []);
    }
  }

  /** After its second command, an encryption leaves the nonce alone. */
  lemma {:induction false} LaterWrites(nType: int, pin: string)
    requires KnownType(nType)
    ensures IvBin !in AllWrites(TrialPolicy(nType) + (MakeKey(nType, pin) + SealScript(nType, pin)))
  {
    assert IvBin !in AllWrites(TrialPolicy(nType)) by { PolicyWrites(nType); }
    assert IvBin !in AllWrites(MakeKey(nType, pin)) by { KeyParts(nType, "", pin); }
    assert IvBin !in AllWrites(SealScript(nType, pin)) by {
      SealWrites(nType, pin);
      TempsOf(nType);
    }
    hide AllWrites, TrialPolicy, MakeKey, SealScript, EncryptTemps;
    AllWritesAppend(MakeKey(nType, pin), SealScript(nType, pin));
    AllWritesAppend(TrialPolicy(nType), MakeKey(nType, pin) + SealScript(nType, pin));
  }

  lemma {:induction false} TempsOf(nType: int)
    ensures EncryptTemps(nType) !! KEPT
    ensures {KeyCtx, KeyName, PlainDat, PolicyDat, PrimaryCtx, SessionDat} <= EncryptTemps(nType)
    ensures nType != 1 ==> PcrVal in EncryptTemps(nType)
  {
  }

  // ----- what a decryption does -----

  lemma {:induction false} ReplayPolicyRuns(o: Oracle, w: World, nType: int, s: nat)
    requires KnownType(nType) && SessionId(w, SessionDat) == Some(s) && w.sessions[s] == Session(false, [])
    ensures var (ok, w') := RunScript(o, w, ReplayPolicy(nType));
         && (o(w.time).ok && o(w.time + 1).ok ==> ok)
         && (ok ==>
              && w'.dir == (if nType == 0 then w.dir else w.dir[PolicyDat := PolicyFile(PolicyOf(nType, o(w.time).pcr))])
              && w'.sessions == w.sessions[s := Session(false, PolicyOf(nType, o(w.time).pcr))]
              && w'.time == w.time + |ReplayPolicy(nType)|)
  {
    var a, b := PolicyPcr(SessionDat, None, None), PolicyPassword(SessionDat, PolicyDat);
    assert w.sessions[s].items + [PcrIs(o(w.time).pcr)] == [PcrIs(o(w.time).pcr)];
    if nType == 0 {
      RunOne(o, w, a);
    } else if nType == 1 {
      RunOne(o, w, b);
      assert w.sessions[s].items + [AuthNeeded] == [AuthNeeded];
    } else {
      RunTwo(o, w, a, b);
      assert [PcrIs(o(w.time).pcr)] + [AuthNeeded] == PolicyOf(2, o(w.time).pcr);
    }
  }

  lemma {:induction false} ReloadRuns(o: Oracle, w: World, k: Key)
    requires {KeyPub, KeyPriv} <= w.dir.Keys && w.dir[KeyPub] == PublicPart(k) && w.dir[KeyPriv] == PrivatePart(k)
    ensures var (ok, w') := RunScript(o, w, Reload());
         && (AllOk(o, w.time, 2) ==> ok)
         && (ok ==> w' == World(w.dir[PrimaryCtx := PrimaryContext][KeyName := NameFile(k)][KeyCtx := KeyContext(k)],
                                w.sessions, w.nextId, w.time + 2))
  {
    RunTwo(o, w, CreatePrimary(PrimaryCtx), LoadKey(PrimaryCtx, KeyPub, KeyPriv, KeyName, KeyCtx));
  }

  lemma {:induction false} UnsealRuns(o: Oracle, w: World, nType: int, pin: string, s: nat, k: Key, iv: int, text: string)
    requires SessionId(w, SessionDat) == Some(s)
    requires {IvBin, KeyCtx, CipherOut} <= w.dir.Keys
    requires w.dir[IvBin] == Nonce(iv) && w.dir[KeyCtx] == KeyContext(k) && w.dir[CipherOut] == Cipher(k, iv, text)
    ensures var (ok, w') := RunScript(o, w, Unseal(nType, pin));
         && var unlocked := Unlocks(w.sessions[s], k, PinFor(nType, pin), o(w.time).pcr);
         && (AllOk(o, w.time, 2) && unlocked ==> ok)
         && (ok ==> unlocked && w'.dir == w.dir[ClearOut := TextFile(text)] && w'.time == w.time + 2
                    && w'.sessions == w.sessions - {s})
  {
    hide Unlocks;
    RunTwo(o, w, EncryptDecrypt(true, IvBin, KeyCtx, ClearOut, CipherOut, SessionDat, PinFor(nType, pin)), FlushContext(SessionDat));
  }

  /** The directory once a policy session has replayed the policy. */
  function ReplayedDir(dir: Dir, nType: int, id: nat, pcr: int): Dir {
    var begun := dir[SessionDat := SessionFile(id)];
    if nType == 0 then begun else begun[PolicyDat := PolicyFile(PolicyOf(nType, pcr))]
  }

  /** Opening a policy session and replaying the policy. */
  lemma {:induction false} ReplayPhase(o: Oracle, w: World, nType: int, rest: seq<Command>) returns (ok: bool, w': World)
    requires KnownType(nType)
    ensures RunScript(o, w, [StartAuthSession(false, SessionDat)] + (ReplayPolicy(nType) + rest)).0 == (ok && RunScript(o, w', rest).0)
    ensures AllOk(o, w.time, 3) ==> ok
    ensures var v := o(w.time + 1).pcr;
            ok ==>
              && RunScript(o, w, [StartAuthSession(false, SessionDat)] + (ReplayPolicy(nType) + rest)) == RunScript(o, w', rest)
              && w'.dir == ReplayedDir(w.dir, nType, w.nextId, v)
              && w.nextId in w'.sessions && w'.sessions[w.nextId] == Session(false, PolicyOf(nType, v))
              && w'.sessions - {w.nextId} == w.sessions - {w.nextId}
              && w'.time == w.time + 1 + |ReplayPolicy(nType)|
  {
    hide RunScript, Exec, Effect, ReplayPolicy, PolicyOf;
    var start := [StartAuthSession(false, SessionDat)];
    RunAppend(o, w, start, ReplayPolicy(nType) + rest);
    StartRuns(o, w);
    ok, w' := false, w;
    if RunScript(o, w, start).0 {
      var w1 := RunScript(o, w, start).1;
      RunAppend(o, w1, ReplayPolicy(nType), rest);
      ReplayPolicyRuns(o, w1, nType, w.nextId);
      ok, w' := RunScript(o, w1, ReplayPolicy(nType)).0, RunScript(o, w1, ReplayPolicy(nType)).1;
    }
  }

  lemma {:induction false} DecryptScriptRuns(o: Oracle, w: World, nType: int, plain: string, oldPin: string, pin: string, k: Key, pcr: int)
    requires KnownType(nType) && Sealed(w.dir, nType, plain, oldPin, k, pcr)
    ensures var (ok, w') := RunScript(o, w, DecryptScript(nType, pin));
         && var use := w.time + |ReplayPolicy(nType)| + 3;
         && var unlocked := Unlocks(Session(false, PolicyOf(nType, o(w.time + 1).pcr)), k, PinFor(nType, pin), o(use).pcr);
         && (ok ==> unlocked && ClearOut in w'.dir && w'.dir[ClearOut] == TextFile(plain + "\n")
                    && DecryptTemps(nType) <= w'.dir.Keys && w'.time == w.time + |DecryptScript(nType, pin)|
                    && w'.sessions == w.sessions - {w.nextId})
         && (AllOk(o, w.time, |DecryptScript(nType, pin)|) && unlocked ==> ok)
  {
    hide RunScript, Exec, Effect, Unlocks, PolicyOf, AuthOf;
    var s3, s4 := Reload(), Unseal(nType, pin);
    var ok, w2 := ReplayPhase(o, w, nType, s3 + s4);
    if ok {
      RunAppend(o, w2, s3, s4);
      ReloadRuns(o, w2, k);
      if RunScript(o, w2, s3).0 {
        UnsealRuns(o, RunScript(o, w2, s3).1, nType, pin, w.nextId, k, w.dir[IvBin].value, plain + "\n");
      }
    }
  }

  lemma {:induction false} ReloadNeeds(o: Oracle, w: World)
    requires RunScript(o, w, Reload()).0
    ensures {KeyPub, KeyPriv} <= w.dir.Keys && w.dir[KeyPub].PublicPart? && w.dir[KeyPriv] == PrivatePart(w.dir[KeyPub].key)
    ensures forall f :: f in {IvBin, CipherOut} && f in RunScript(o, w, Reload()).1.dir ==>
              f in w.dir && w.dir[f] == RunScript(o, w, Reload()).1.dir[f]
  {
    RunTwo(o, w, CreatePrimary(PrimaryCtx), LoadKey(PrimaryCtx, KeyPub, KeyPriv, KeyName, KeyCtx));
  }

  lemma {:induction false} UnsealNeeds(o: Oracle, w: World, nType: int, pin: string)
    requires RunScript(o, w, Unseal(nType, pin)).0
    ensures {IvBin, CipherOut} <= w.dir.Keys && w.dir[IvBin].Nonce?
  {
    hide Unlocks;
    RunTwo(o, w, EncryptDecrypt(true, IvBin, KeyCtx, ClearOut, CipherOut, SessionDat, PinFor(nType, pin)), FlushContext(SessionDat));
  }

  /** Whatever the directory holds, a decryption succeeds only with all four kept
      files there, the two parts of the key belonging together. */
  lemma {:induction false} DecryptNeedsKeptFiles(o: Oracle, w: World, nType: int, pin: string)
    requires Decrypt(o, w, nType, pin).0.Some?
    ensures KEPT <= w.dir.Keys && w.dir[IvBin].Nonce? && w.dir[KeyPub].PublicPart?
    ensures w.dir[KeyPriv] == PrivatePart(w.dir[KeyPub].key)
  {
    hide RunScript, Exec, Effect, FirstWord, PolicyOf;
    var s3, s4 := Reload(), Unseal(nType, pin);
    var ok, w2 := ReplayPhase(o, w, nType, s3 + s4);
    RunAppend(o, w2, s3, s4);
    ReloadNeeds(o, w2);
    UnsealNeeds(o, RunScript(o, w2, s3).1, nType, pin);
  }

  lemma {:induction false} AllWritesAppend(a: seq<Command>, b: seq<Command>)
    ensures AllWrites(a + b) == AllWrites(a) + AllWrites(b)
    decreases |a|
  {
    hide Writes;
    if a == [] {
      assert a + b == b;
    } else {
      assert (a + b)[1..] == a[1..] + b;
      AllWritesAppend(a[1..], b);
    }
  }

  lemma {:induction false} WritesCons(c: Command, rest: seq<Command>)
    ensures AllWrites([c] + rest) == Writes(c) + AllWrites(rest)
  {
    assert ([c] + rest)[1..] == rest;
  }

  lemma {:induction false} WritesThree(a: Command, b: Command, c: Command)
    ensures AllWrites([a]) == Writes(a)
    ensures AllWrites([a, b]) == Writes(a) + Writes(b)
    ensures AllWrites([a, b, c]) == Writes(a) + Writes(b) + Writes(c)
  {
    hide Writes;
    assert [a] == [a] + [] && [a, b] == [a] + [b] && [a, b, c] == [a] + [b, c] && [b, c] == [b] + [c] && [b] == [b] + [] && [c] == [c] + [];
    WritesCons(a, []);
    WritesCons(b, []);
    WritesCons(c, []);
    WritesCons(a, [b]);
    WritesCons(b, [c]);
    WritesCons(a, [b, c]);
  }

  lemma {:induction false} PolicyWrites(nType: int)
    requires KnownType(nType)
    ensures AllWrites(TrialPolicy(nType)) == {PolicyDat} + if nType == 1 then {} else {PcrVal}
    ensures AllWrites(UsePolicy(nType)) == (if nType == 0 then {} else {PolicyDat}) + if nType == 1 then {} else {PcrVal}
    ensures AllWrites(ReplayPolicy(nType)) == if nType == 0 then {} else {PolicyDat}
  {
    var password := PolicyPassword(SessionDat, PolicyDat);
    WritesThree(PcrRead(PcrVal), PolicyPcr(SessionDat, Some(PcrVal), Some(PolicyDat)), password);
    WritesThree(PcrRead(PcrVal), PolicyPcr(SessionDat, Some(PcrVal), None), password);
    WritesThree(PolicyPcr(SessionDat, None, None), password, password);
    WritesThree(password, password, password);
    hide AllWrites;
  }

  lemma {:induction false} DecryptParts(nType: int, pin: string)
    ensures AllWrites([StartAuthSession(false, SessionDat)]) == {SessionDat}
    ensures AllWrites(Reload()) == {PrimaryCtx, KeyName, KeyCtx}
    ensures AllWrites(Unseal(nType, pin)) == {ClearOut}
  {
    var flush, start, r := FlushContext(SessionDat), StartAuthSession(false, SessionDat), Reload();
    WritesThree(start, start, start);
    WritesThree(r[0], r[1], flush);
    WritesThree(Unseal(nType, pin)[0], flush, flush);
    hide AllWrites;
  }

  lemma {:induction false} SealParts(nType: int, pin: string)
    ensures AllWrites([StartAuthSession(false, SessionDat)]) == {SessionDat}
    ensures AllWrites(Seal(nType, pin)) == {CipherOut}
    ensures AllWrites([Remove(EncryptTemps(nType))]) == EncryptTemps(nType)
  {
    var flush, start := FlushContext(SessionDat), StartAuthSession(false, SessionDat);
    WritesThree(start, start, start);
    WritesThree(Seal(nType, pin)[0], flush, flush);
    WritesThree(Remove(EncryptTemps(nType)), flush, flush);
    hide AllWrites, EncryptTemps;
  }

  lemma {:induction false} KeyParts(nType: int, plain: string, pin: string)
    ensures AllWrites(Prepare(plain)) == {PlainDat, IvBin, SessionDat}
    ensures AllWrites(MakeKey(nType, pin)) == {PrimaryCtx, KeyPub, KeyPriv, KeyName, KeyCtx}
  {
    var flush, p, m := FlushContext(SessionDat), Prepare(plain), MakeKey(nType, pin);
    WritesThree(p[0], p[1], p[2]);
    WritesThree(m[1], m[2], m[3]);
    WritesCons(flush, [m[1], m[2], m[3]]);
    assert m == [flush] + [m[1], m[2], m[3]];
    hide AllWrites;
  }

  /** Decryption writes exactly its temporaries. */
  lemma {:induction false} DecryptWrites(nType: int, pin: string)
    requires KnownType(nType)
    ensures AllWrites(DecryptScript(nType, pin)) == DecryptTemps(nType)
  {
    PolicyWrites(nType);
    DecryptParts(nType, pin);
    hide AllWrites, ReplayPolicy, Reload, Unseal;
    AllWritesAppend([StartAuthSession(false, SessionDat)], ReplayPolicy(nType) + (Reload() + Unseal(nType, pin)));
    AllWritesAppend(ReplayPolicy(nType), Reload() + Unseal(nType, pin));
    AllWritesAppend(Reload(), Unseal(nType, pin));
  }

  lemma {:induction false} SealWrites(nType: int, pin: string)
    requires KnownType(nType)
    ensures AllWrites(SealScript(nType, pin)) == {CipherOut} + EncryptTemps(nType)
  {
    PolicyWrites(nType);
    SealParts(nType, pin);
    TempsOf(nType);
    hide AllWrites, UsePolicy, Seal, EncryptTemps;
    var a, b := [StartAuthSession(false, SessionDat)], [Remove(EncryptTemps(nType))];
    AllWritesAppend(Seal(nType, pin), b);
    AllWritesAppend(UsePolicy(nType), Seal(nType, pin) + b);
    AllWritesAppend(a, UsePolicy(nType) + (Seal(nType, pin) + b));
  }

  lemma {:induction false} AllFiles(nType: int)
    ensures {PlainDat, IvBin, SessionDat} + (({PolicyDat} + if nType == 1 then {} else {PcrVal})
            + ({PrimaryCtx, KeyPub, KeyPriv, KeyName, KeyCtx} + ({CipherOut} + EncryptTemps(nType))))
         == EncryptTemps(nType) + KEPT
  {
  }

  /** Encryption writes exactly its temporaries and the four kept files. */
  lemma {:induction false} EncryptWrites(nType: int, plain: string, pin: string)
    requires KnownType(nType)
    ensures AllWrites(EncryptScript(nType, plain, pin)) == EncryptTemps(nType) + KEPT
  {
    PolicyWrites(nType);
    KeyParts(nType, plain, pin);
    SealWrites(nType, pin);
    AllFiles(nType);
    hide AllWrites, Prepare, TrialPolicy, MakeKey, SealScript, EncryptTemps;
    var rest := MakeKey(nType, pin) + SealScript(nType, pin);
    AllWritesAppend(MakeKey(nType, pin), SealScript(nType, pin));
    AllWritesAppend(TrialPolicy(nType), rest);
    AllWritesAppend(Prepare(plain), TrialPolicy(nType) + rest);
  }

  /** Every decryption attempt, successful or cut short anywhere, changes only its
      own temporaries; so what was sealed stays sealed. */
  lemma {:induction false} DecryptTouches(o: Oracle, w: World, nType: int, pin: string, f: FileName)
    requires f !in DecryptTemps(nType)
    ensures var dir := Decrypt(o, w, nType, pin).1.dir;
            (f in dir <==> f in w.dir) && (f in dir ==> dir[f] == w.dir[f])
  {
    hide RunScript, Exec, FirstWord;
    if KnownType(nType) {
      DecryptWrites(nType, pin);
      ScriptTouches(o, w, DecryptScript(nType, pin), f);
      var w' := RunScript(o, w, DecryptScript(nType, pin)).1;
      ExecTouches(o, w', Remove(DecryptTemps(nType)), f);
    } else {
      DecryptParts(nType, pin);
      ScriptTouches(o, w, [StartAuthSession(false, SessionDat)], f);
    }
  }

  lemma {:induction false} StaysSealed(o: Oracle, w: World, nType: int, plain: string, oldPin: string, pin: string, k: Key, pcr: int)
    requires Sealed(w.dir, nType, plain, oldPin, k, pcr)
    ensures Sealed(Decrypt(o, w, nType, pin).1.dir, nType, plain, oldPin, k, pcr)
  {
    hide Decrypt;
    assert DecryptTemps(nType) !! KEPT;
    DecryptTouches(o, w, nType, pin, IvBin);
    DecryptTouches(o, w, nType, pin, KeyPub);
    DecryptTouches(o, w, nType, pin, KeyPriv);
    DecryptTouches(o, w, nType, pin, CipherOut);
  }

  /** Whether the TPM releases the key: the PCR has its old value when the policy
      is replayed and when the key is used, and the PIN is the old one. */
  predicate Released(o: Oracle, w: World, nType: int, oldPin: string, pin: string, pcr: int) {
    && (nType != 1 ==> o(w.time + 1).pcr == pcr && o(w.time + |ReplayPolicy(nType)| + 3).pcr == pcr)
    && (nType != 0 ==> pin == oldPin)
  }

  lemma {:induction false} ShownIs(o: Oracle, w: World, nType: int, pin: string, text: string)
    requires KnownType(nType)
    requires var (ok, w') := RunScript(o, w, DecryptScript(nType, pin));
             ok ==> ClearOut in w'.dir && w'.dir[ClearOut] == TextFile(text)
    ensures Decrypt(o, w, nType, pin).0
         == if RunScript(o, w, DecryptScript(nType, pin)).0 then Some(FirstWord(text)) else None
  {
    hide RunScript, FirstWord, DecryptScript, Exec;
  }

  /** A decryption from a sealed directory that succeeds shows what reading back
      the echoed plaintext gives, and it succeeds only if the TPM releases the key;
      if nothing else fails, the TPM releasing the key is enough. */
  lemma {:induction false} DecryptOpens(o: Oracle, w: World, nType: int, plain: string, oldPin: string, pin: string, k: Key, pcr: int)
    requires KnownType(nType) && Sealed(w.dir, nType, plain, oldPin, k, pcr)
    ensures var shown := Decrypt(o, w, nType, pin).0;
         && (shown.Some? ==> shown.value == FirstWord(plain + "\n") && Released(o, w, nType, oldPin, pin, pcr))
         && (AllOk(o, w.time, |DecryptScript(nType, pin)|) && Released(o, w, nType, oldPin, pin, pcr) ==> shown.Some?)
  {
    hide RunScript, FirstWord, Unlocks, DecryptScript, DecryptTemps, AllOk, Exec, PolicyOf, AuthOf, ReplayPolicy, Decrypt;
    DecryptScriptRuns(o, w, nType, plain, oldPin, pin, k, pcr);
    ReleasedIs(nType, k, oldPin, pin, pcr, o(w.time + 1).pcr, o(w.time + |ReplayPolicy(nType)| + 3).pcr);
    ShownIs(o, w, nType, pin, plain + "\n");
  }

  /** A successful decryption whose clean-up command works leaves no temporaries. */
  lemma {:induction false} DecryptCleansUp(o: Oracle, w: World, nType: int, plain: string, oldPin: string, pin: string, k: Key, pcr: int)
    requires KnownType(nType) && Sealed(w.dir, nType, plain, oldPin, k, pcr)
    requires Decrypt(o, w, nType, pin).0.Some? && o(w.time + |DecryptScript(nType, pin)|).ok
    ensures Decrypt(o, w, nType, pin).1.dir.Keys !! DecryptTemps(nType)
  {
    hide RunScript, FirstWord, Unlocks, DecryptScript, DecryptTemps, Sealed, AllOk, Exec, PolicyOf, AuthOf, ReplayPolicy;
    DecryptScriptRuns(o, w, nType, plain, oldPin, pin, k, pcr);
    RemoveSucceeds(o, RunScript(o, w, DecryptScript(nType, pin)).1, DecryptTemps(nType));
  }

  /** Session numbers still to be given out are not in use. */
  ghost predicate FreshIds(w: World) { forall s :: s in w.sessions ==> s < w.nextId }

  /** A successful encryption, and a successful decryption of what is sealed, have
      flushed every session they opened when they return. */
  lemma {:induction false} NoSessionsLeft(o: Oracle, w: World, nType: int, plain: string, pin: string)
    requires FreshIds(w)
    ensures Encrypt(o, w, nType, plain, pin).0 ==> Encrypt(o, w, nType, plain, pin).1.sessions == w.sessions
    ensures forall text, oldPin, k, pcr ::
              KnownType(nType) && Sealed(w.dir, nType, text, oldPin, k, pcr) && Decrypt(o, w, nType, pin).0.Some? ==>
                Decrypt(o, w, nType, pin).1.sessions == w.sessions
  {
    hide Encrypt, Decrypt, Sealed;
    if Encrypt(o, w, nType, plain, pin).0 {
      var k := EncryptSeals(o, w, nType, plain, pin);
    }
    forall text, oldPin, k, pcr | KnownType(nType) && Sealed(w.dir, nType, text, oldPin, k, pcr) && Decrypt(o, w, nType, pin).0.Some?
      ensures Decrypt(o, w, nType, pin).1.sessions == w.sessions
    {
      DecryptFlushes(o, w, nType, text, oldPin, pin, k, pcr);
    }
  }

  lemma {:induction false} DecryptFlushes(o: Oracle, w: World, nType: int, plain: string, oldPin: string, pin: string, k: Key, pcr: int)
    requires KnownType(nType) && Sealed(w.dir, nType, plain, oldPin, k, pcr)
    requires Decrypt(o, w, nType, pin).0.Some?
    ensures Decrypt(o, w, nType, pin).1.sessions == w.sessions - {w.nextId}
  {
    hide RunScript, FirstWord, Unlocks, DecryptScript, DecryptTemps, Sealed, AllOk, Exec, PolicyOf, AuthOf, ReplayPolicy;
    DecryptScriptRuns(o, w, nType, plain, oldPin, pin, k, pcr);
    RemoveKeepsSessions(o, RunScript(o, w, DecryptScript(nType, pin)).1, DecryptTemps(nType));
  }

  lemma {:induction false} RemoveKeepsSessions(o: Oracle, w: World, files: set<FileName>)
    ensures Exec(o, w, Remove(files)).1.sessions == w.sessions
  {
  }

  lemma {:induction false} RemoveSucceeds(o: Oracle, w: World, files: set<FileName>)
    ensures files <= w.dir.Keys && o(w.time).ok ==> Exec(o, w, Remove(files)).1.dir == w.dir - files
  {
  }

  /** The directory after any number of decryption attempts. */
  function AfterAttempts(o: Oracle, w: World, nType: int, pins: seq<string>): World {
    if pins == [] then w
    else Decrypt(o, AfterAttempts(o, w, nType, pins[..|pins| - 1]), nType, pins[|pins| - 1]).1
  }

  lemma {:induction false} AttemptsStaySealed(o: Oracle, w: World, nType: int, plain: string, oldPin: string, pins: seq<string>, k: Key, pcr: int)
    requires Sealed(w.dir, nType, plain, oldPin, k, pcr)
    ensures Sealed(AfterAttempts(o, w, nType, pins).dir, nType, plain, oldPin, k, pcr)
    decreases |pins|
  {
    hide Sealed, Decrypt;
    if pins != [] {
      var before := AfterAttempts(o, w, nType, pins[..|pins| - 1]);
      AttemptsStaySealed(o, w, nType, plain, oldPin, pins[..|pins| - 1], k, pcr);
      StaysSealed(o, before, nType, plain, oldPin, pins[|pins| - 1], k, pcr);
    }
  }

  /** Encrypt once, then attempt any number of decryptions with any PINs, any of
      them failing anywhere: whenever one succeeds, it shows the plaintext,
      provided that holds no white space; and one that meets no failure of its own
      succeeds exactly when the PCR and the PIN are those of the encryption. */
  lemma {:induction false} EncryptThenDecrypts(o: Oracle, w: World, nType: int, plain: string, oldPin: string, pins: seq<string>, pin: string)
    requires Encrypt(o, w, nType, plain, oldPin).0
    ensures var w1 := AfterAttempts(o, Encrypt(o, w, nType, plain, oldPin).1, nType, pins);
         && var shown := Decrypt(o, w1, nType, pin).0;
         && (shown.Some? ==> (shown.value == plain <==> !HasBlank(plain)))
         && (shown.Some? ==> Released(o, w1, nType, oldPin, pin, o(w.time + 3).pcr))
         && (AllOk(o, w1.time, |DecryptScript(nType, pin)|) && Released(o, w1, nType, oldPin, pin, o(w.time + 3).pcr) ==> shown.Some?)
  {
    hide Encrypt, Decrypt, Sealed, Released, DecryptScript, AllOk, FirstWord, HasBlank;
    var k := EncryptSeals(o, w, nType, plain, oldPin);
    var w0 := Encrypt(o, w, nType, plain, oldPin).1;
    AttemptsStaySealed(o, w0, nType, plain, oldPin, pins, k, o(w.time + 3).pcr);
    DecryptOpens(o, AfterAttempts(o, w0, nType, pins), nType, plain, oldPin, pin, k, o(w.time + 3).pcr);
    EchoReadsBack(plain);
  }

  // ----- what is read -----

  lemma {:induction false} ContainedCons(c: Command, rest: seq<Command>, have: set<FileName>)
    requires !c.Remove? && Reads(c) <= have && SelfContained(rest, have + Writes(c))
    ensures SelfContained([c] + rest, have)
  {
    assert ([c] + rest)[1..] == rest;
  }

  lemma {:induction false} ContainedThree(a: Command, b: Command, c: Command, rest: seq<Command>, have: set<FileName>)
    requires !a.Remove? && !b.Remove? && !c.Remove?
    requires Reads(a) <= have && Reads(b) <= have + Writes(a) && Reads(c) <= have + Writes(a) + Writes(b)
    requires SelfContained(rest, have + Writes(a) + Writes(b) + Writes(c))
    ensures SelfContained([a, b, c] + rest, have)
  {
    hide Reads, Writes, SelfContained;
    ContainedCons(c, rest, have + Writes(a) + Writes(b));
    ContainedCons(b, [c] + rest, have + Writes(a));
    ContainedCons(a, [b] + ([c] + rest), have);
    assert [a, b, c] + rest == [a] + ([b] + ([c] + rest));
  }

  lemma {:induction false} ContainedTwo(a: Command, b: Command, rest: seq<Command>, have: set<FileName>)
    requires !a.Remove? && !b.Remove?
    requires Reads(a) <= have && Reads(b) <= have + Writes(a)
    requires SelfContained(rest, have + Writes(a) + Writes(b))
    ensures SelfContained([a, b] + rest, have)
  {
    hide Reads, Writes, SelfContained;
    ContainedCons(b, rest, have + Writes(a));
    ContainedCons(a, [b] + rest, have);
    assert [a, b] + rest == [a] + ([b] + rest);
  }

  lemma {:induction false} ContainedMore(script: seq<Command>, have: set<FileName>, more: set<FileName>)
    requires SelfContained(script, have) && have <= more
    ensures SelfContained(script, more)
    decreases |script|
  {
    hide Reads, Writes;
    if script != [] {
      var c := script[0];
      ContainedMore(script[1..], if c.Remove? then have - Writes(c) else have + Writes(c),
                    if c.Remove? then more - Writes(c) else more + Writes(c));
    }
  }

  lemma {:induction false} ContainedRemove(files: set<FileName>)
    ensures SelfContained([Remove(files)], files)
  {
    assert [Remove(files)][1..] == [];
  }

  /** Replaying or recording a policy needs only the session file. */
  lemma {:induction false} PolicyContained(policy: seq<Command>, rest: seq<Command>, have: set<FileName>, out: set<FileName>)
    requires exists n :: KnownType(n) && (policy == TrialPolicy(n) || policy == UsePolicy(n) || policy == ReplayPolicy(n))
    requires SessionDat in have && SelfContained(rest, have + out)
    requires out <= AllWrites(policy)
    ensures SelfContained(policy + rest, have)
  {
    var n :| KnownType(n) && (policy == TrialPolicy(n) || policy == UsePolicy(n) || policy == ReplayPolicy(n));
    PolicyWrites(n);
    ContainedMore(rest, have + out, have + AllWrites(policy));
    PolicySteps(n, policy, rest, have);
  }

  lemma {:induction false} PolicySteps(n: int, policy: seq<Command>, rest: seq<Command>, have: set<FileName>)
    requires KnownType(n) && (policy == TrialPolicy(n) || policy == UsePolicy(n) || policy == ReplayPolicy(n))
    requires SessionDat in have && SelfContained(rest, have + AllWrites(policy))
    ensures SelfContained(policy + rest, have)
  {
    PolicyWrites(n);
    hide SelfContained, AllWrites;
    var all := have + AllWrites(policy);
    if |policy| == 1 {
      ContainedMore(rest, all, have + Writes(policy[0]));
      ContainedCons(policy[0], rest, have);
      assert policy == [policy[0]];
    } else if |policy| == 2 {
      ContainedMore(rest, all, have + Writes(policy[0]) + Writes(policy[1]));
      ContainedTwo(policy[0], policy[1], rest, have);
      assert policy == [policy[0], policy[1]];
    } else {
      ContainedMore(rest, all, have + Writes(policy[0]) + Writes(policy[1]) + Writes(policy[2]));
      ContainedThree(policy[0], policy[1], policy[2], rest, have);
      assert policy == [policy[0], policy[1], policy[2]];
    }
  }

  lemma {:induction false} MakeKeyContained(nType: int, pin: string, rest: seq<Command>, have: set<FileName>)
    requires {SessionDat, PolicyDat} <= have && SelfContained(rest, have + {PrimaryCtx, KeyPub, KeyPriv, KeyName, KeyCtx})
    ensures SelfContained(MakeKey(nType, pin) + rest, have)
  {
    hide SelfContained;
    var m := MakeKey(nType, pin);
    ContainedMore(rest, have + {PrimaryCtx, KeyPub, KeyPriv, KeyName, KeyCtx}, have + Writes(m[0]) + Writes(m[1]) + Writes(m[2]) + Writes(m[3]));
    ContainedThree(m[1], m[2], m[3], rest, have + Writes(m[0]));
    ContainedCons(m[0], [m[1], m[2], m[3]] + rest, have);
    assert m + rest == [m[0]] + ([m[1], m[2], m[3]] + rest);
  }

  lemma {:induction false} SealContained(nType: int, pin: string, rest: seq<Command>, have: set<FileName>)
    requires {IvBin, KeyCtx, PlainDat, SessionDat} <= have && SelfContained(rest, have + {CipherOut})
    ensures SelfContained(Seal(nType, pin) + rest, have)
  {
    hide SelfContained;
    var m := Seal(nType, pin);
    assert have + {CipherOut} == have + Writes(m[0]) + Writes(m[1]);
    ContainedTwo(m[0], m[1], rest, have);
  }

  lemma {:induction false} SealScriptContained(nType: int, pin: string, have: set<FileName>)
    requires KnownType(nType) && EncryptTemps(nType) + {IvBin} <= have
    ensures SelfContained(SealScript(nType, pin), have)
  {
    var a, b := StartAuthSession(false, SessionDat), [Remove(EncryptTemps(nType))];
    TempsOf(nType);
    hide SelfContained, AllWrites, UsePolicy, Seal, EncryptTemps;
    ContainedRemove(EncryptTemps(nType));
    ContainedMore(b, EncryptTemps(nType), have + {CipherOut});
    SealContained(nType, pin, b, have);
    var tail := Seal(nType, pin) + b;
    assert have + {} == have && have + Writes(a) == have;
    PolicyContained(UsePolicy(nType), tail, have, {});
    ContainedCons(a, UsePolicy(nType) + tail, have);
  }

  /** Encryption reads only files written earlier in the same run. */
  lemma {:induction false} EncryptReadsOwnFiles(nType: int, plain: string, pin: string)
    requires KnownType(nType)
    ensures SelfContained(EncryptScript(nType, plain, pin), {})
  {
    var p := Prepare(plain);
    var h1: set<FileName> := {PlainDat, IvBin, SessionDat};
    var out := {PolicyDat} + if nType == 1 then {} else {PcrVal};
    var h3 := h1 + out + {PrimaryCtx, KeyPub, KeyPriv, KeyName, KeyCtx};
    assert EncryptTemps(nType) + {IvBin} <= h3;
    assert out <= AllWrites(TrialPolicy(nType)) by { PolicyWrites(nType); }
    hide SelfContained, AllWrites, TrialPolicy, MakeKey, SealScript, EncryptTemps;
    SealScriptContained(nType, pin, h3);
    MakeKeyContained(nType, pin, SealScript(nType, pin), h1 + out);
    var rest := MakeKey(nType, pin) + SealScript(nType, pin);
    PolicyContained(TrialPolicy(nType), rest, h1, out);
    assert {} + Writes(p[0]) + Writes(p[1]) + Writes(p[2]) == h1;
    ContainedThree(p[0], p[1], p[2], TrialPolicy(nType) + rest, {});
  }

  /** Decryption reads only the four kept files and files written earlier in the
      same run. */
  lemma {:induction false} DecryptReadsKeptFiles(nType: int, pin: string)
    requires KnownType(nType)
    ensures SelfContained(DecryptScript(nType, pin), KEPT)
  {
    var a, r, u := StartAuthSession(false, SessionDat), Reload(), Unseal(nType, pin);
    var h := KEPT + Writes(a);
    hide SelfContained, AllWrites, ReplayPolicy;
    assert SelfContained([], h + Writes(r[0]) + Writes(r[1]) + Writes(u[0]) + Writes(u[1])) by { NothingContained(h + Writes(r[0]) + Writes(r[1]) + Writes(u[0]) + Writes(u[1])); }
    ContainedTwo(u[0], u[1], [], h + Writes(r[0]) + Writes(r[1]));
    assert u + [] == u;
    ContainedTwo(r[0], r[1], u, h);
    assert h + {} == h;
    PolicyContained(ReplayPolicy(nType), r + u, h, {});
    ContainedCons(a, ReplayPolicy(nType) + (r + u), KEPT);
  }

  lemma {:induction false} NothingContained(have: set<FileName>)
    ensures SelfContained([], have)
  {
  }

  /** So a run of the encryption does the same from any two initial directories. */
  lemma {:induction false} EncryptIgnoresDirectory(o: Oracle, a: World, b: World, nType: int, plain: string, pin: string)
    requires a.(dir := b.dir) == b
    ensures Encrypt(o, a, nType, plain, pin).0 == Encrypt(o, b, nType, plain, pin).0
  {
    hide RunScript;
    if KnownType(nType) {
      EncryptReadsOwnFiles(nType, plain, pin);
      ScriptLocal(o, a, b, EncryptScript(nType, plain, pin), {});
    }
  }

  /** And a decryption shows the same in any two directories with the same kept files. */
  lemma {:induction false} DecryptIgnoresOthers(o: Oracle, a: World, b: World, nType: int, pin: string)
    requires a.(dir := b.dir) == b && Agree(a.dir, b.dir, KEPT)
    ensures Decrypt(o, a, nType, pin).0 == Decrypt(o, b, nType, pin).0
  {
    if KnownType(nType) {
      DecryptReadsKeptFiles(nType, pin);
      DecryptWrites(nType, pin);
      hide RunScript, DecryptScript, Exec, FirstWord;
      ScriptLocal(o, a, b, DecryptScript(nType, pin), KEPT);
      assert ClearOut in KEPT + AllWrites(DecryptScript(nType, pin));
    }
  }
}
