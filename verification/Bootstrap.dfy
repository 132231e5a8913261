/**
 Bootstrapping servers that share one external datastore. Each server is a process that may crash
 between any two steps and in the middle of writing a file. The stored value is modelled after
 decryption and decoding, as a map from field names to file contents.
 */
module Bootstrap {
  import opened Basics
  import Tokens

  /**
   What a file holds. A password file holds a table, which is modelled without the order of its
   records; text is what is no password file.
   */
  datatype Data = Text(text: string) | Table(names: Tokens.Names)

  /** The fields of the bootstrap record; each names a file. */
  datatype Field =
    | ETCDServerCA | ETCDServerCAKey | ETCDPeerCA | ETCDPeerCAKey | ServerCA | ServerCAKey | ClientCA | ClientCAKey
    | ServiceKey | PasswdFile | RequestHeaderCA | RequestHeaderCAKey | IPSECKey | EncryptionConfig

  type Files = map<Field, Data>

  /** How one step of server start-up produces bootstrap files. */
  datatype Item =
    | Pair(cert: Field, key: Field)  // both are kept if both exist; a missing key is made, and then the certificate
    | Once(file: Field)               // kept if it exists
    | NonEmpty(file: Field)           // kept if it exists and is not empty
    | Users(file: Field, token: string) // the password file, in which every start ensures the node and the server

  function Fields(item: Item): set<Field> {
    match item
    case Pair(cert, key) => {cert, key}
    case Once(file) => {file}
    case NonEmpty(file) => {file}
    case Users(file, _) => {file}
  }

  type Config = seq<Item>

  /**
   The steps of server start-up, in order. The token is the same for all servers, because the key in the
   datastore and the stamp are named after it; the agent token is given anew at every start.
   */
  function StartUp(encryptSecrets: bool, token: string): Config {
    [Pair(ClientCA, ClientCAKey), Pair(ServerCA, ServerCAKey), Pair(RequestHeaderCA, RequestHeaderCAKey),
     Pair(ETCDServerCA, ETCDServerCAKey), Pair(ETCDPeerCA, ETCDPeerCAKey),
     Once(ServiceKey), Users(PasswdFile, token), NonEmpty(IPSECKey)] +
    if encryptSecrets then [NonEmpty(EncryptionConfig)] else []
  }

  function AllFields(c: Config): set<Field> {
    set i, k | 0 <= i < |c| && k in Fields(c[i]) :: k
  }

  /** The fields that are generated only when missing. */
  function Agreed(c: Config): set<Field> {
    set i, k | 0 <= i < |c| && !c[i].Users? && k in Fields(c[i]) :: k
  }

  /** Every field is produced by one step. */
  ghost predicate ValidConfig(c: Config) {
    forall i, j :: 0 <= i < |c| && 0 <= j < |c| && i != j ==> Fields(c[i]) !! Fields(c[j])
  }

  predicate Generated(item: Item, files: Files) {
    && Fields(item) <= files.Keys
    && (item.NonEmpty? ==> files[item.file] != Text(""))
    && (item.Users? ==> files[item.file].Table?)
  }

  /** The files that the step is about to write. */
  function Dirty(item: Item, files: Files): set<Field> {
    match item
    case Pair(cert, key) => if cert in files && key in files then {} else if key in files then {cert} else {cert, key}
    case Once(file) => if file in files then {} else {file}
    case NonEmpty(file) => if file in files && files[file] != Text("") then {} else {file}
    case Users(file, _) => {file}
  }

  ghost predicate KeptOutside(before: Files, now: Files, dirty: set<Field>) {
    forall k :: k !in dirty ==> (k in now <==> k in before) && (k in now && k in before ==> now[k] == before[k])
  }

  /** The entries of a password file: none if it is missing or empty, and nothing at all if it is malformed. */
  function EntriesIn(files: Files, file: Field): Option<Tokens.Names> {
    if file !in files || files[file] == Text("") then Some(map[])
    else if files[file].Table? then Some(files[file].names)
    else None
  }

  /** The users of this start are ensured in the password file. */
  ghost predicate EnsuresUsers(file: Field, token: string, agent: string, before: Files, now: Files) {
    && EntriesIn(before, file).Some?
    && exists r :: Tokens.ValidDraws(r)
         && now == before[file := Table(Tokens.Users(EntriesIn(before, file).value, token, agent, r))]
  }

  ghost predicate Generates(item: Item, agent: string, before: Files, now: Files) {
    if item.Users? then EnsuresUsers(item.file, item.token, agent, before, now)
    else KeptOutside(before, now, Dirty(item, before)) && Generated(item, now)
  }

  lemma GeneratesKeeps(item: Item, agent: string, before: Files, now: Files)
    requires Generates(item, agent, before, now)
    ensures KeptOutside(before, now, Dirty(item, before)) && Generated(item, now)
  {
  }

  /** These steps, in order, lead from the one to the other. */
  ghost predicate Through(c: Config, agent: string, before: Files, now: Files) {
    if c == [] then before == now
    else
      var init, last := c[..|c| - 1], c[|c| - 1];
      exists mid :: Through(init, agent, before, mid) && Generates(last, agent, mid, now)
  }

  lemma ThroughNone(agent: string, files: Files)
    ensures Through([], agent, files, files)
  {
  }

  lemma ThroughOne(c: Config, i: nat, agent: string, before: Files, mid: Files, now: Files)
    requires i < |c| && Through(c[..i], agent, before, mid) && Generates(c[i], agent, mid, now)
    ensures Through(c[..i + 1], agent, before, now)
  {
    hide Generates;
    assert c[..i + 1][..i] == c[..i];
  }

  datatype Pc =
    | Off
    | Starting
    | Loading(data: Files, todo: set<Field>)
    | Generating(next: nat, should: bool, save: bool)
    | Saving
    | Stamping
    | Running

  /** `agent` is the agent token of the last start, `users` that of the last start that ensured the users. */
  datatype Server = Server(files: Files, stamp: bool, pc: Pc, agent: string, users: string)

  /** `writes` counts the writes that the datastore has accepted. */
  datatype State = State(servers: seq<Server>, store: Option<Files>, writes: nat)

  /** Loading writes the fields of the stored value that this server knows, in any order. */
  ghost predicate LoadOne(sv: Server, sv': Server) {
    && sv.pc.Loading?
    && exists k :: k in sv.pc.todo && k in sv.pc.data
         && sv' == sv.(files := sv.files[k := sv.pc.data[k]], pc := Loading(sv.pc.data, sv.pc.todo - {k}))
  }

  function Snapshot(c: Config, files: Files): Files {
    map k | k in AllFields(c) && k in files :: files[k]
  }

  /** A step that leaves the datastore as it is. */
  ghost predicate LocalStep(c: Config, store: Option<Files>, sv: Server, sv': Server) {
    match sv.pc
    case Off => sv' == sv.(pc := if sv.stamp then Generating(0, false, false) else Starting, agent := sv'.agent)
    case Starting =>
      sv' == sv.(pc := if store.None? then Generating(0, true, true)
                       else Loading(store.value, store.value.Keys * AllFields(c)))
    case Loading(data, todo) => LoadOne(sv, sv') || (todo == {} && sv' == sv.(pc := Generating(0, true, false)))
    case Generating(i, should, save) =>
      if i < |c| then
        && Generates(c[i], sv.agent, sv.files, sv'.files)
        && sv' == sv.(files := sv'.files, pc := Generating(i + 1, should, save),
                      users := if c[i].Users? then sv.agent else sv.users)
      else
        sv' == sv.(pc := if save then Saving else if should then Stamping else Running)
    case Stamping => sv' == sv.(stamp := true, pc := Running)
    case _ => false
  }

  /** Creating the key fails when it exists; a creation that is applied may still be reported as failed. */
  ghost predicate CreateStep(c: Config, store: Option<Files>, sv: Server, store': Option<Files>, sv': Server) {
    && sv.pc == Saving && store.None? && AllFields(c) <= sv.files.Keys
    && store' == Some(Snapshot(c, sv.files))
    && (sv' == sv.(pc := Stamping) || sv' == sv.(pc := Off))
  }

  /** The files that a crash may damage. The password file is put in place by renaming a complete one. */
  function Writing(c: Config, sv: Server): set<Field> {
    match sv.pc
    case Loading(_, todo) => todo
    case Generating(i, _, _) => if i < |c| && !c[i].Users? then Dirty(c[i], sv.files) else {}
    case _ => {}
  }

  /** A crash or a failed step: the process ends, and the file it was writing may hold anything. */
  ghost predicate CrashStep(c: Config, sv: Server, sv': Server) {
    KeptOutside(sv.files, sv'.files, Writing(c, sv)) && sv' == sv.(pc := Off, files := sv'.files)
  }

  ghost predicate Init(s: State) {
    && s.store == None && s.writes == 0
    && forall i :: 0 <= i < |s.servers| ==> s.servers[i].pc == Off && !s.servers[i].stamp
  }

  ghost predicate StepOf(c: Config, s: State, s': State, i: nat) {
    && i < |s.servers| && |s'.servers| == |s.servers|
    && s'.servers == s.servers[i := s'.servers[i]]
    && var sv, sv' := s.servers[i], s'.servers[i];
       || (s'.store == s.store && s'.writes == s.writes && (LocalStep(c, s.store, sv, sv') || CrashStep(c, sv, sv')))
       || (CreateStep(c, s.store, sv, s'.store, sv') && s'.writes == s.writes + 1)
  }

  ghost predicate Next(c: Config, s: State, s': State) {
    s' == s || exists i: nat :: StepOf(c, s, s', i)
  }

  // The invariant.

  ghost predicate Agrees(c: Config, store: Option<Files>, files: Files) {
    store.Some? && forall k :: k in Agreed(c) ==> k in files && k in store.value && files[k] == store.value[k]
  }

  ghost predicate CompleteUpTo(c: Config, files: Files, n: nat) {
    forall i :: 0 <= i < n && i < |c| ==> Generated(c[i], files)
  }

  ghost predicate ServerOk(c: Config, store: Option<Files>, sv: Server) {
    && (sv.stamp ==> Agrees(c, store, sv.files))
    && match sv.pc
       case Off => true
       case Starting => !sv.stamp
       case Loading(data, todo) =>
         && !sv.stamp && store == Some(data)
         && forall k :: k in AllFields(c) && k !in todo ==> k in sv.files && k in data && sv.files[k] == data[k]
       case Generating(i, should, save) =>
         && (save ==> !sv.stamp && should && CompleteUpTo(c, sv.files, i))
         && (!save ==> Agrees(c, store, sv.files))
         && (!should ==> sv.stamp)
       case Saving => !sv.stamp && CompleteUpTo(c, sv.files, |c|)
       case Stamping => Agrees(c, store, sv.files)
       case Running => sv.stamp
  }

  ghost predicate StoreOk(c: Config, store: Option<Files>) {
    store.Some? ==> store.value.Keys == AllFields(c) && CompleteUpTo(c, store.value, |c|)
  }

  ghost predicate Inv(c: Config, s: State) {
    && StoreOk(c, s.store)
    && s.writes == (if s.store.Some? then 1 else 0)
    && forall i :: 0 <= i < |s.servers| ==> ServerOk(c, s.store, s.servers[i])
  }

  lemma DirtyInFields(item: Item, files: Files)
    ensures Dirty(item, files) <= Fields(item)
    ensures Generated(item, files) && !item.Users? ==> Dirty(item, files) == {}
  {
  }

  lemma GeneratedCopies(item: Item, a: Files, b: Files)
    requires Generated(item, a) && forall k :: k in Fields(item) ==> k in b && k in a && b[k] == a[k]
    ensures Generated(item, b)
  {
  }

  /** Files that agree with a complete value have nothing left to generate but the password file. */
  lemma NothingDirty(c: Config, store: Option<Files>, files: Files, i: nat)
    requires ValidConfig(c) && StoreOk(c, store) && Agrees(c, store, files) && i < |c|
    ensures Dirty(c[i], files) !! Agreed(c)
  {
    DirtyInFields(c[i], files);
    if c[i].Users? {
      assert forall j :: 0 <= j < |c| && !c[j].Users? ==> Fields(c[i]) !! Fields(c[j]);
    } else {
      assert forall k :: k in Fields(c[i]) ==> k in Agreed(c);
      assert Generated(c[i], store.value);
      GeneratedCopies(c[i], store.value, files);
    }
  }

  lemma AgreesStays(c: Config, store: Option<Files>, before: Files, now: Files, dirty: set<Field>)
    requires Agrees(c, store, before) && KeptOutside(before, now, dirty) && dirty !! Agreed(c)
    ensures Agrees(c, store, now)
  {
    forall k | k in Agreed(c)
      ensures k in now && k in store.value && now[k] == store.value[k]
    {
      assert k !in dirty;
    }
  }

  lemma CompleteStep(c: Config, before: Files, now: Files, i: nat)
    requires ValidConfig(c) && CompleteUpTo(c, before, i) && i < |c|
    requires KeptOutside(before, now, Dirty(c[i], before)) && Generated(c[i], now)
    ensures CompleteUpTo(c, now, i + 1)
  {
    DirtyInFields(c[i], before);
    forall j | 0 <= j < i
      ensures Generated(c[j], now)
    {
      assert Fields(c[j]) !! Fields(c[i]);
      GeneratedCopies(c[j], before, now);
    }
  }

  lemma AgreedFields(c: Config)
    ensures Agreed(c) <= AllFields(c)
  {
  }

  lemma LoadedAgrees(c: Config, store: Option<Files>, sv: Server)
    requires StoreOk(c, store) && ServerOk(c, store, sv) && sv.pc.Loading? && sv.pc.todo == {}
    ensures Agrees(c, store, sv.files)
  {
    AgreedFields(c);
  }

  lemma LocalKeeps(c: Config, store: Option<Files>, sv: Server, sv': Server)
    requires ValidConfig(c) && StoreOk(c, store) && ServerOk(c, store, sv) && LocalStep(c, store, sv, sv')
    ensures ServerOk(c, store, sv')
  {
    hide Generates, Dirty, Generated, KeptOutside;
    match sv.pc {
      case Loading(data, todo) =>
        if todo == {} {
          LoadedAgrees(c, store, sv);
        }
      case Generating(i, should, save) =>
        if i < |c| {
          GeneratesKeeps(c[i], sv.agent, sv.files, sv'.files);
          if save {
            CompleteStep(c, sv.files, sv'.files, i);
          } else {
            NothingDirty(c, store, sv.files, i);
            AgreesStays(c, store, sv.files, sv'.files, Dirty(c[i], sv.files));
          }
        }
      case _ =>
    }
  }

  lemma CrashKeeps(c: Config, store: Option<Files>, sv: Server, sv': Server)
    requires ValidConfig(c) && StoreOk(c, store) && ServerOk(c, store, sv) && CrashStep(c, sv, sv')
    ensures ServerOk(c, store, sv')
  {
    if sv.stamp {
      if sv.pc.Generating? && sv.pc.next < |c| {
        NothingDirty(c, store, sv.files, sv.pc.next);
      }
      AgreesStays(c, store, sv.files, sv'.files, Writing(c, sv));
    }
  }

  lemma CreateKeeps(c: Config, sv: Server, store': Option<Files>, sv': Server)
    requires ServerOk(c, None, sv) && CreateStep(c, None, sv, store', sv')
    ensures StoreOk(c, store') && ServerOk(c, store', sv')
  {
    var v := Snapshot(c, sv.files);
    AgreedFields(c);
    forall i | 0 <= i < |c|
      ensures Generated(c[i], v)
    {
      assert forall k :: k in Fields(c[i]) ==> k in AllFields(c);
      GeneratedCopies(c[i], sv.files, v);
    }
  }

  /** While nothing is stored, no server depends on what is stored. */
  lemma StillUnstored(c: Config, sv: Server, store': Option<Files>)
    requires ServerOk(c, None, sv)
    ensures ServerOk(c, store', sv)
  {
  }

  lemma NextKeeps(c: Config, s: State, s': State)
    requires ValidConfig(c) && Inv(c, s) && Next(c, s, s')
    ensures Inv(c, s') && (s.store.Some? ==> s'.store == s.store)
  {
    hide ServerOk, LocalStep, CrashStep, StoreOk;
    if s' != s {
      var i: nat :| StepOf(c, s, s', i);
      var sv, sv' := s.servers[i], s'.servers[i];
      if s'.store == s.store {
        if LocalStep(c, s.store, sv, sv') {
          LocalKeeps(c, s.store, sv, sv');
        } else {
          CrashKeeps(c, s.store, sv, sv');
        }
      } else {
        CreateKeeps(c, sv, s'.store, sv');
        forall j | 0 <= j < |s.servers| && j != i
          ensures ServerOk(c, s'.store, s'.servers[j])
        {
          StillUnstored(c, s.servers[j], s'.store);
        }
      }
    }
  }

  // Runs.

  ghost predicate IsRun(c: Config, run: seq<State>) {
    && run != [] && Init(run[0])
    && forall t :: 0 < t < |run| ==> Next(c, run[t - 1], run[t])
  }

  lemma InitHolds(c: Config, s: State)
    requires Init(s)
    ensures Inv(c, s)
  {
  }

  lemma {:induction false} RunKeeps(c: Config, run: seq<State>, t: nat)
    requires ValidConfig(c) && IsRun(c, run) && t < |run|
    ensures Inv(c, run[t])
  {
    hide Inv, Next;
    if t == 0 {
      InitHolds(c, run[0]);
    } else {
      RunKeeps(c, run, t - 1);
      NextKeeps(c, run[t - 1], run[t]);
    }
  }

  lemma {:induction false} StoreStays(c: Config, run: seq<State>, t: nat, u: nat)
    requires ValidConfig(c) && IsRun(c, run) && t <= u < |run| && run[t].store.Some?
    ensures run[u].store == run[t].store
    decreases u
  {
    hide Inv, Next;
    if t < u {
      StoreStays(c, run, t, u - 1);
      RunKeeps(c, run, u - 1);
      NextKeeps(c, run[u - 1], run[u]);
    }
  }

  /** In every state of a run the datastore has accepted one write if it holds a value, and none otherwise. */
  lemma WrittenOnce(c: Config, run: seq<State>, t: nat)
    requires ValidConfig(c) && IsRun(c, run) && t < |run|
    ensures run[t].writes <= 1 && (run[t].writes == 1 <==> run[t].store.Some?)
    ensures StoreOk(c, run[t].store)
  {
    RunKeeps(c, run, t);
  }

  /**
   Bootstrap agreement: whenever a server is stamped the one accepted write is still there, and the
   server's generate-if-missing files equal what was written, so any two stamped servers agree.
   */
  lemma BootstrapAgreement(c: Config, run: seq<State>, t: nat, u: nat, i: nat, j: nat)
    requires ValidConfig(c) && IsRun(c, run) && t <= u < |run|
    requires i < |run[t].servers| && run[t].servers[i].stamp && j < |run[u].servers| && run[u].servers[j].stamp
    ensures run[u].writes == 1 && run[u].store == run[t].store
    ensures Agrees(c, run[u].store, run[u].servers[j].files)
    ensures forall k :: k in Agreed(c) ==>
              && k in run[t].servers[i].files && k in run[u].servers[j].files
              && run[u].servers[j].files[k] == run[t].servers[i].files[k]
  {
    hide Next, Agreed;
    RunKeeps(c, run, t);
    RunKeeps(c, run, u);
    assert ServerOk(c, run[t].store, run[t].servers[i]);
    assert ServerOk(c, run[u].store, run[u].servers[j]);
    StoreStays(c, run, t, u);
  }

  lemma StartUpValid(encryptSecrets: bool, token: string)
    ensures ValidConfig(StartUp(encryptSecrets, token)) && StartUp(encryptSecrets, token)[6] == Users(PasswdFile, token)
    ensures forall f :: f in Agreed(StartUp(encryptSecrets, token)) <==>
              f != PasswdFile && (f == EncryptionConfig ==> encryptSecrets)
  {
    var c := StartUp(encryptSecrets, token);
    forall f | f != PasswdFile && (f == EncryptionConfig ==> encryptSecrets)
      ensures f in Agreed(c)
    {
      var i := match f
        case ClientCA => 0 case ClientCAKey => 0 case ServerCA => 1 case ServerCAKey => 1
        case RequestHeaderCA => 2 case RequestHeaderCAKey => 2 case ETCDServerCA => 3 case ETCDServerCAKey => 3
        case ETCDPeerCA => 4 case ETCDPeerCAKey => 4 case ServiceKey => 5 case IPSECKey => 7 case _ => 8;
      assert 0 <= i < |c| && !c[i].Users? && f in Fields(c[i]);
    }
  }

  // The start-up code of one server, step by step.

  /** What one server sees: its own state and the datastore. */
  datatype View = View(store: Option<Files>, server: Server)

  /** A step of this server, as the protocol has it. */
  ghost predicate Mine(c: Config, a: View, b: View) {
    || (b.store == a.store && (LocalStep(c, a.store, a.server, b.server) || CrashStep(c, a.server, b.server)))
    || CreateStep(c, a.store, a.server, b.store, b.server)
  }

  /** A step of another server: this one is as before, and only a missing value can appear. */
  ghost predicate Theirs(c: Config, a: View, b: View) {
    b.server == a.server && (b.store == a.store || (a.store.None? && StoreOk(c, b.store)))
  }

  ghost predicate Moves(c: Config, trace: seq<View>) {
    forall t :: 0 < t < |trace| ==> Mine(c, trace[t - 1], trace[t]) || Theirs(c, trace[t - 1], trace[t])
  }

  lemma ViewKeeps(c: Config, a: View, b: View)
    requires ValidConfig(c) && StoreOk(c, a.store) && ServerOk(c, a.store, a.server)
    requires Mine(c, a, b) || Theirs(c, a, b)
    ensures StoreOk(c, b.store) && ServerOk(c, b.store, b.server)
  {
    hide ServerOk, LocalStep, CrashStep, StoreOk;
    if Theirs(c, a, b) {
      if b.store != a.store {
        StillUnstored(c, a.server, b.store);
      }
    } else if b.store == a.store && LocalStep(c, a.store, a.server, b.server) {
      LocalKeeps(c, a.store, a.server, b.server);
    } else if b.store == a.store && CrashStep(c, a.server, b.server) {
      CrashKeeps(c, a.store, a.server, b.server);
    } else {
      CreateKeeps(c, a.server, b.store, b.server);
    }
  }

  predicate HasUsers(c: Config) {
    exists i :: 0 <= i < |c| && c[i].Users?
  }

  function SomeDraws(): (r: Tokens.Draws)
    ensures Tokens.ValidDraws(r)
  {
    Tokens.Draws("0", "0", "0", "0")
  }

  /** A start never leaves the entries empty. */
  lemma UsersThere(names: Tokens.Names, token: string, agent: string, r: Tokens.Draws)
    ensures Tokens.Users(names, token, agent, r) != map[]
  {
    assert Tokens.SERVER in Tokens.Users(names, token, agent, r);
  }

  lemma UsersEnsured(file: Field, token: string, agent: string, before: Files, now: Files, r: Tokens.Draws)
    requires EntriesIn(before, file).Some? && Tokens.ValidDraws(r)
    requires now == before[file := Table(Tokens.Users(EntriesIn(before, file).value, token, agent, r))]
    ensures EnsuresUsers(file, token, agent, before, now)
  {
  }

  class Datastore {
    var value: Option<Files>

    constructor ()
      ensures value == None
    {
      value := None;
    }
  }

  lemma Quits(c: Config, sv: Server)
    ensures CrashStep(c, sv, sv.(pc := Off))
  {
  }

  /** When all steps are done, every file of the record exists. */
  lemma AllGenerated(c: Config, store: Option<Files>, sv: Server)
    requires ServerOk(c, store, sv) && sv.pc == Saving
    ensures AllFields(c) <= sv.files.Keys
  {
    forall f | f in AllFields(c)
      ensures f in sv.files
    {
      var i :| 0 <= i < |c| && f in Fields(c[i]);
      assert Generated(c[i], sv.files);
    }
  }

  lemma Flags(c: Config, store: Option<Files>, sv: Server)
    requires ServerOk(c, store, sv) && sv.pc.Generating?
    ensures (!sv.pc.should ==> sv.stamp) && (sv.pc.save ==> sv.pc.should)
  {
  }

  predicate IsComplete(c: Config, v: Files) {
    v.Keys == AllFields(c) && forall i :: 0 <= i < |c| ==> Generated(c[i], v)
  }

  /**
   A server's start-up. `pc` and `trace` record which step of the protocol each statement is; `faults`
   counts the operations that failed without reason.
   */
  class Cluster {
    const config: Config
    const store: Datastore
    var files: Files
    var stamp: bool
    var shouldBootstrap: bool
    var saveBootstrap: bool
    var agentToken: string
    ghost var users: string
    ghost var pc: Pc
    ghost var trace: seq<View>
    ghost var faults: nat

    constructor (config: Config, store: Datastore, files: Files, stamp: bool, ghost users: string)
      ensures this.config == config && this.store == store && this.files == files && this.stamp == stamp
      ensures pc == Off && trace == [View(store.value, Server(files, stamp, Off, "", users))] && faults == 0
    {
      this.config, this.store, this.files, this.stamp := config, store, files, stamp;
      shouldBootstrap, saveBootstrap, agentToken, this.users := false, false, "", users;
      pc, trace, faults := Off, [View(store.value, Server(files, stamp, Off, "", users))], 0;
    }

    ghost function Here(): View
      reads this, store
    {
      View(store.value, Server(files, stamp, pc, agentToken, users))
    }

    /** The trace so far is one of the protocol, ends here, and the invariant holds. */
    ghost predicate Valid()
      reads this, store
    {
      && ValidConfig(config) && trace != [] && trace[|trace| - 1] == Here() && Moves(config, trace)
      && StoreOk(config, store.value) && ServerOk(config, store.value, Here().server)
    }

    /** Record a step that has just been taken. */
    ghost method Note()
      requires ValidConfig(config) && trace != [] && Moves(config, trace)
      requires var last := trace[|trace| - 1];
               && StoreOk(config, last.store) && ServerOk(config, last.store, last.server)
               && (Mine(config, last, Here()) || Theirs(config, last, Here()))
      modifies this`trace
      ensures Valid() && old(trace) <= trace
    {
      hide StoreOk, ServerOk, Mine, Theirs;
      ViewKeeps(config, trace[|trace| - 1], Here());
      trace := trace + [Here()];
    }

    /** Whatever the other servers do meanwhile. */
    method Others()
      requires Valid()
      modifies this`trace, store
      ensures Valid() && old(trace) <= trace
      ensures store.value == old(store.value) || old(store.value).None?
    {
      var appeared: Option<Files> := *;
      if store.value.None? && appeared.Some? && IsComplete(config, appeared.value) {
        store.value := appeared;
      }
      Note();
    }

    /** End the process between two writes. */
    ghost method Die()
      requires Valid()
      modifies this`trace, this`pc, this`faults
      ensures Valid() && pc == Off && old(trace) <= trace && faults == old(faults) + 1
    {
      hide StoreOk, ServerOk, Moves, ValidConfig, Theirs;
      pc, faults := Off, faults + 1;
      Note();
    }

    /** End the process in the middle of a write, which may leave anything in the file. */
    method Tear(f: Field)
      requires Valid() && f in Writing(config, Here().server)
      modifies this`trace, this`pc, this`faults, this`files
      ensures Valid() && pc == Off && old(trace) <= trace && faults == old(faults) + 1
    {
      hide StoreOk, ServerOk, Moves, ValidConfig, Theirs;
      var torn: Data := *;
      files := files[f := torn];
      pc, faults := Off, faults + 1;
      Note();
    }

    /** A start with this agent token; a server with a stamp has nothing to load. */
    method ShouldBootstrapLoad(agent: string)
      requires Valid() && pc == Off
      modifies this`trace, this`pc, this`shouldBootstrap, this`saveBootstrap, this`agentToken
      ensures Valid() && old(trace) <= trace && shouldBootstrap == !stamp && !saveBootstrap && agentToken == agent
      ensures pc == if stamp then Generating(0, false, false) else Starting
    {
      hide StoreOk, ServerOk, Moves, ValidConfig, Theirs, CrashStep;
      agentToken := agent;
      shouldBootstrap, saveBootstrap := !stamp, false;
      pc := if stamp then Generating(0, false, false) else Starting;
      Note();
    }

    /** Write the stored files out, in any order. */
    method Load(data: Files) returns (ok: bool)
      requires Valid() && pc == Loading(data, data.Keys * AllFields(config))
      modifies this`trace, this`pc, this`faults, this`files
      ensures Valid() && old(trace) <= trace && old(faults) <= faults
      ensures if ok then pc == Generating(0, true, false) else pc == Off && faults > old(faults)
    {
      hide StoreOk, ServerOk, Moves, ValidConfig, Theirs, CrashStep;
      ok := true;
      var todo := data.Keys * AllFields(config);
      while todo != {}
        invariant Valid() && old(trace) <= trace && old(faults) <= faults && todo <= data.Keys
        invariant pc == Loading(data, todo)
        decreases todo
      {
        var f :| f in todo;
        var works: bool := *;
        if !works {
          Tear(f);
          return false;
        }
        files := files[f := data[f]];
        todo := todo - {f};
        pc := Loading(data, todo);
        Note();
      }
      pc := Generating(0, true, false);
      Note();
    }

    /** Load what is stored, or resolve to store what will be generated. */
    method StorageBootstrap() returns (ok: bool)
      requires Valid() && pc == Starting && !saveBootstrap
      modifies this`trace, this`pc, this`faults, this`files, this`saveBootstrap, store
      ensures Valid() && old(trace) <= trace && old(faults) <= faults
      ensures store.value == old(store.value) || old(store.value).None?
      ensures saveBootstrap ==> old(store.value).None? && files == old(files)
      ensures if ok then pc == Generating(0, true, saveBootstrap) else pc == Off && faults > old(faults)
    {
      hide StoreOk, ServerOk, Moves, ValidConfig, Theirs, CrashStep;
      Others();
      var got: bool := *;
      if !got {
        Die();
        return false;
      }
      if store.value.None? {
        saveBootstrap := true;
        pc := Generating(0, true, true);
        Note();
        return true;
      }
      var data := store.value.value;
      pc := Loading(data, data.Keys * AllFields(config));
      Note();
      ok := Load(data);
    }

    /** Ensure the users in the password file, which is written only if that changes anything. */
    method EnsureUsers(file: Field, token: string) returns (ok: bool)
      modifies this`files
      ensures ok <==> EntriesIn(old(files), file).Some?
      ensures ok <==> file !in old(files) || old(files)[file] == Text("") || old(files)[file].Table?
      ensures if ok then EnsuresUsers(file, token, agentToken, old(files), files) else files == old(files)
    {
      hide Tokens.Users, Tokens.Idle;
      var entries := EntriesIn(files, file);
      if entries.None? {
        return false;
      }
      var r: Tokens.Draws := *;
      if !Tokens.ValidDraws(r) {
        r := SomeDraws();
      }
      var p := new Tokens.Passwd(entries.value);
      Tokens.GenUsers(p, token, agentToken, r);
      ghost var before := files;
      UsersThere(entries.value, token, agentToken, r);
      if p.changed {
        files := files[file := Table(p.names)];
      }
      assert files == before[file := Table(p.names)];
      UsersEnsured(file, token, agentToken, before, files, r);
      ok := true;
    }

    /** Write what one step of start-up produces. Contents that are drawn may be any. */
    method Produce(item: Item) returns (ok: bool)
      modifies this`files
      ensures if ok then Generates(item, agentToken, old(files), files) else files == old(files)
      ensures !ok ==> item.Users? && EntriesIn(files, item.file).None?
    {
      var made: string, other: string := *, *;
      ok := true;
      match item {
        case Pair(cert, key) =>
          if !(cert in files && key in files) {
            if key !in files {
              files := files[key := Text(made)];
            }
            files := files[cert := Text(other)];
          }
        case Once(file) =>
          if file !in files {
            files := files[file := Text(made)];
          }
        case NonEmpty(file) =>
          if !(file in files && files[file] != Text("")) {
            files := files[file := Text(made + "\n")];
          }
        case Users(file, token) =>
          ok := EnsureUsers(file, token);
      }
    }

    /** One step of generation: what exists is kept. A malformed password file ends the start. */
    method GenerateItem(i: nat) returns (ok: bool)
      requires Valid() && i < |config| && pc.Generating? && pc.next == i
      modifies this`trace, this`pc, this`faults, this`files, this`users
      ensures Valid() && old(trace) <= trace && old(faults) <= faults
      ensures if ok then pc == old(pc).(next := i + 1) else pc == Off && faults > old(faults)
      ensures ok ==> users == if config[i].Users? then agentToken else old(users)
      ensures ok ==> Generates(config[i], agentToken, old(files), files)
    {
      hide StoreOk, ServerOk, Moves, ValidConfig, Theirs, CrashStep, Generates, EntriesIn;
      var works: bool := *;
      if !works {
        if f :| f in Dirty(config[i], files) && !config[i].Users? {
          Tear(f);
        } else {
          Die();
        }
        return false;
      }
      ok := Produce(config[i]);
      if !ok {
        Die();
        return;
      }
      users := if config[i].Users? then agentToken else users;
      pc := pc.(next := i + 1);
      Note();
    }

    method Generate() returns (ok: bool)
      requires Valid() && pc.Generating? && pc.next == 0
      modifies this`trace, this`pc, this`faults, this`files, this`users
      ensures Valid() && old(trace) <= trace && old(faults) <= faults
      ensures if ok then pc == old(pc).(next := |config|) else pc == Off && faults > old(faults)
      ensures ok && HasUsers(config) ==> users == agentToken
      ensures ok ==> Through(config, agentToken, old(files), files)
    {
      hide Valid, Generates, Through;
      ok := true;
      ghost var before := files;
      ThroughNone(agentToken, before);
      for i := 0 to |config|
        invariant Valid() && old(trace) <= trace && old(faults) <= faults && ok
        invariant pc == old(pc).(next := i)
        invariant HasUsers(config[..i]) ==> users == agentToken
        invariant Through(config[..i], agentToken, before, files)
      {
        ghost var mid := files;
        ok := GenerateItem(i);
        if !ok {
          return;
        }
        ThroughOne(config, i, agentToken, before, mid, files);
      }
      assert config[..|config|] == config;
    }

    /** Create the key with a snapshot of the files. An error may hide that it was created. */
    method Save() returns (ok: bool)
      requires Valid() && pc == Saving
      modifies this`trace, this`pc, this`faults, store
      ensures Valid() && old(trace) <= trace && old(faults) <= faults
      ensures if ok then pc == Stamping && store.value == Some(Snapshot(config, files))
              else pc == Off && (faults > old(faults) || store.value.Some?)
    {
      AllGenerated(config, store.value, Here().server);
      hide StoreOk, ServerOk, Moves, ValidConfig, Theirs, CrashStep;
      Others();
      if store.value.Some? {
        pc := Off;
        assert CrashStep(config, trace[|trace| - 1].server, Here().server) by {
          Quits(config, trace[|trace| - 1].server);
        }
        Note();
        return false;
      }
      var applied: bool, reported: bool := *, *;
      if !applied {
        Die();
        return false;
      }
      store.value := Some(Snapshot(config, files));
      pc := if reported then Stamping else Off;
      if !reported {
        faults := faults + 1;
      }
      Note();
      ok := reported;
    }

    /** Store what was generated, if resolved to; then leave the stamp. */
    method Start() returns (ok: bool)
      requires Valid() && pc == Generating(|config|, shouldBootstrap, saveBootstrap)
      modifies this`trace, this`pc, this`faults, this`stamp, store
      ensures Valid() && old(trace) <= trace && old(faults) <= faults
      ensures if ok then pc == Running && stamp
                else pc == Off && (faults > old(faults) || (saveBootstrap && store.value.Some?))
    {
      hide StoreOk, ServerOk, Moves, ValidConfig, Theirs, CrashStep;
      Flags(config, store.value, Here().server);
      pc := if saveBootstrap then Saving else if shouldBootstrap then Stamping else Running;
      Note();
      if saveBootstrap {
        ok := Save();
        if !ok {
          return;
        }
      }
      if shouldBootstrap {
        var works: bool := *;
        if !works {
          Die();
          return false;
        }
        stamp := true;
        pc := Running;
        Note();
      }
      ok := true;
    }

    /**
     One start of the server. Every statement is a step of the protocol; the server ends up running with
     a stamp, unless something failed or another server had stored its files first.
     */
    method Prepare(agent: string) returns (ok: bool)
      requires Valid() && pc == Off
      modifies this`trace, this`pc, this`faults, this`files, this`stamp, this`shouldBootstrap, this`saveBootstrap,
               this`agentToken, this`users, store
      ensures Valid() && old(trace) <= trace && old(faults) <= faults
      ensures ok && HasUsers(config) ==> agentToken == users == agent
      ensures ok && (old(stamp) || saveBootstrap) ==> Through(config, agent, old(files), files)
      ensures if ok then pc == Running && stamp && Agrees(config, store.value, files)
              else pc == Off && (faults > old(faults) || (old(store.value).None? && store.value.Some?))
    {
      hide StoreOk, Moves, ValidConfig, Agrees, Through;
      ShouldBootstrapLoad(agent);
      ok := true;
      if shouldBootstrap {
        ok := StorageBootstrap();
      }
      if ok {
        ok := Generate();
      }
      if ok {
        ok := Start();
      }
    }
  }

  // Writing out and reading back the files of the record.

  type Paths = map<Field, string>

  class Disk {
    var files: map<string, Data>

    constructor (initial: map<string, Data>)
      ensures files == initial
    {
      files := initial;
    }
  }

  ghost function Present(paths: Paths): set<Field> {
    set f | f in paths && paths[f] != ""
  }

  ghost predicate DistinctPaths(paths: Paths) {
    forall f, g :: f in paths && g in paths && f != g ==> paths[f] != paths[g]
  }

  /** Collect the contents of the files, failing on the first that cannot be read. */
  method Write(disk: Disk, paths: Paths) returns (ok: bool, data: Files)
    ensures ok <==> forall f :: f in Present(paths) ==> paths[f] in disk.files
    ensures ok ==> data.Keys == Present(paths) && forall f :: f in data ==> data[f] == disk.files[paths[f]]
  {
    ok, data := true, map[];
    var todo := paths.Keys;
    while todo != {}
      invariant todo <= paths.Keys && ok
      invariant data.Keys == Present(paths) - todo
      invariant forall f :: f in data ==> paths[f] in disk.files && data[f] == disk.files[paths[f]]
      decreases todo
    {
      var f :| f in todo;
      todo := todo - {f};
      if paths[f] != "" {
        if paths[f] !in disk.files {
          ok := false;
          return;
        }
        data := data[f := disk.files[paths[f]]];
      }
    }
  }

  /**
   Write the contents to the files, stopping at the first that cannot be written, which may then hold
   anything; unknown fields are passed over.
   */
  method Read(disk: Disk, paths: Paths, data: Files, writable: string -> bool) returns (ok: bool)
    requires DistinctPaths(paths)
    modifies disk
    ensures forall path :: (forall f :: f in data && f in paths ==> paths[f] != path) ==>
              (path in disk.files <==> path in old(disk.files)) &&
                (path in disk.files ==> disk.files[path] == old(disk.files)[path])
    ensures ok <==> forall f :: f in data && f in paths ==> writable(paths[f])
    ensures ok ==> forall f :: f in data && f in paths ==> paths[f] in disk.files && disk.files[paths[f]] == data[f]
  {
    ok := true;
    var todo := data.Keys;
    while todo != {}
      invariant ok && todo <= data.Keys
      invariant forall path :: (forall f :: f in data && f in paths ==> paths[f] != path) ==>
                  (path in disk.files <==> path in old(disk.files)) &&
                    (path in disk.files ==> disk.files[path] == old(disk.files)[path])
      invariant forall f :: f in data && f in paths && f !in todo ==>
                  writable(paths[f]) && paths[f] in disk.files && disk.files[paths[f]] == data[f]
      decreases todo
    {
      var f :| f in todo;
      todo := todo - {f};
      if f in paths {
        if !writable(paths[f]) {
          var torn: Data := *;
          disk.files := disk.files[paths[f] := torn];
          ok := false;
          return;
        }
        disk.files := disk.files[paths[f] := data[f]];
      }
    }
  }

  /**
   Saving on one server and loading on another carries every file over, if they can be read there
   and written here.
   */
  method SaveThenLoad(first: Disk, paths: Paths, second: Disk, paths': Paths,
                      writable: string -> bool) returns (ok: bool)
    requires first != second && paths.Keys == paths'.Keys && DistinctPaths(paths')
    modifies second
    ensures ok <==> forall f :: f in Present(paths) ==> paths[f] in first.files && writable(paths'[f])
    ensures ok ==> forall f :: f in Present(paths) ==>
              paths'[f] in second.files && second.files[paths'[f]] == first.files[paths[f]]
  {
    var data;
    ok, data := Write(first, paths);
    if ok {
      ok := Read(second, paths', data, writable);
    }
  }
}
