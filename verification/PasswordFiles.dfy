/**
 The password files of servers that share one datastore. The file that is stored is that of the first
 server; every start ensures the node's and the server's entries in the own file, with the token that all
 servers share and an agent token that each start brings along.
 */
module PasswordFiles {
  import opened Basics
  import opened Bootstrap
  import Tokens

  /** The configuration has one step for users, at place `u`, with a token that gives passwords. */
  ghost predicate UsersAt(c: Config, u: nat) {
    && ValidConfig(c) && u < |c| && c[u].Users? && Tokens.UsableToken(c[u].token)
    && forall i :: 0 <= i < |c| && i != u ==> !c[i].Users?
  }

  function FileOf(c: Config, u: nat): Field
    requires u < |c| && c[u].Users?
  {
    c[u].file
  }

  /** Without a token, the entries that are there are ones that a start can take the server's password from. */
  ghost predicate CleanFile(file: Field, token: string, files: Files) {
    token == "" && EntriesIn(files, file).Some? ==> Tokens.Clean(EntriesIn(files, file).value)
  }

  /** The entries are settled, and the node's is the one that this agent token asks for. */
  ghost predicate Ensured(file: Field, token: string, files: Files, agent: string) {
    && file in files && files[file].Table? && Tokens.Settled(files[file].names, token)
    && Tokens.WithNode(files[file].names, token, agent) == files[file].names
  }

  ghost predicate StoredTable(file: Field, token: string, store: Option<Files>) {
    && store.Some? && file in store.value && store.value[file].Table?
    && Tokens.Settled(store.value[file].names, token) && Tokens.NODE in store.value[file].names
  }

  /** The file is the stored one but for the node's entry. */
  ghost predicate Near(file: Field, token: string, store: Option<Files>, files: Files) {
    && StoredTable(file, token, store) && file in files && files[file].Table?
    && var names := files[file].names;
       Tokens.NODE in names && names == store.value[file].names[Tokens.NODE := names[Tokens.NODE]]
  }

  /** The file is the stored one with the node's entry that this agent token asks for. */
  ghost predicate Follows(file: Field, token: string, store: Option<Files>, files: Files, agent: string) {
    && StoredTable(file, token, store) && file in files
    && files[file] == Table(Tokens.WithNode(store.value[file].names, token, agent))
  }

  // What the steps do to the file.

  lemma NearTables(names: Tokens.Names, stored: Tokens.Names, token: string, agent: string, r: Tokens.Draws)
    requires Tokens.UsableToken(token) && Tokens.UsableAgent(agent) && Tokens.Settled(stored, token)
    requires Tokens.NODE in names && names == stored[Tokens.NODE := names[Tokens.NODE]]
    ensures Tokens.Users(names, token, agent, r) == Tokens.WithNode(stored, token, agent)
  {
    hide Tokens.Users, Tokens.Stripped, Tokens.NodePass, Tokens.Raw;
    assert Tokens.NODE != Tokens.SERVER;
    assert names[Tokens.SERVER] == stored[Tokens.SERVER];
    Tokens.SettledStart(names, token, agent, r);
  }

  /** The draws of a start that ensured the users. */
  lemma DrawsOf(file: Field, token: string, agent: string, before: Files, now: Files) returns (r: Tokens.Draws)
    requires EnsuresUsers(file, token, agent, before, now)
    ensures Tokens.ValidDraws(r) && EntriesIn(before, file).Some?
    ensures now == before[file := Table(Tokens.Users(EntriesIn(before, file).value, token, agent, r))]
  {
    r :| Tokens.ValidDraws(r) &&
      now == before[file := Table(Tokens.Users(EntriesIn(before, file).value, token, agent, r))];
  }

  /** From the stored entries, but for the node's, a start makes the stored ones with its own node's entry. */
  lemma NearStart(file: Field, token: string, store: Option<Files>, before: Files, now: Files, agent: string)
    requires Tokens.UsableToken(token) && Tokens.UsableAgent(agent)
    requires Near(file, token, store, before) && EnsuresUsers(file, token, agent, before, now)
    ensures Follows(file, token, store, now, agent)
  {
    hide Tokens.Users, Tokens.Settled, Tokens.WithNode, Tokens.UsableToken, Tokens.UsableAgent, EnsuresUsers;
    var r := DrawsOf(file, token, agent, before, now);
    NearTables(before[file].names, store.value[file].names, token, agent, r);
  }

  lemma CleanStart(file: Field, token: string, before: Files, now: Files, agent: string)
    requires Tokens.UsableToken(token) && Tokens.UsableAgent(agent)
    requires CleanFile(file, token, before) && EnsuresUsers(file, token, agent, before, now)
    ensures Ensured(file, token, now, agent) && CleanFile(file, token, now)
  {
    hide Tokens.Users, Tokens.Settled, Tokens.WithNode, Tokens.UsableToken, Tokens.UsableAgent, EnsuresUsers,
         Tokens.Clean, Tokens.Startable;
    var r := DrawsOf(file, token, agent, before, now);
    var names := EntriesIn(before, file).value;
    if token == "" {
      Tokens.CleanStarts(names, r);
    }
    Tokens.StartSettles(names, token, agent, r);
    if token == "" {
      Tokens.SettledClean(now[file].names);
    }
  }

  /** Once stored, ensured entries are what they follow. */
  lemma EnsuredFollows(file: Field, token: string, store: Option<Files>, files: Files, agent: string)
    requires Ensured(file, token, files, agent) && store.Some? && file in store.value
    requires store.value[file] == files[file]
    ensures Follows(file, token, store, files, agent)
  {
    hide Tokens.NodeSecret;
  }

  lemma FollowsNear(file: Field, token: string, store: Option<Files>, files: Files, agent: string)
    requires Follows(file, token, store, files, agent)
    ensures Near(file, token, store, files)
  {
    hide Tokens.NodeSecret, Tokens.Settled;
  }

  // The invariant.

  ghost predicate PasswordOk(c: Config, u: nat, store: Option<Files>, sv: Server)
    requires u < |c| && c[u].Users?
  {
    var file, token := FileOf(c, u), c[u].token;
    && Tokens.UsableAgent(sv.agent)
    && (store.None? ==> CleanFile(file, token, sv.files))
    && (sv.stamp ==> Follows(file, token, store, sv.files, sv.users))
    && match sv.pc
       case Off => true
       case Starting => !sv.stamp
       case Loading(data, todo) =>
         && !sv.stamp && store == Some(data) && StoredTable(file, token, store)
         && (file !in todo ==> file in sv.files && sv.files[file] == data[file])
       case Generating(i, should, save) =>
         && (!should ==> sv.stamp && !save)
         && (save ==> !sv.stamp && CleanFile(file, token, sv.files))
         && (save && i > u ==> sv.users == sv.agent && Ensured(file, token, sv.files, sv.agent))
         && (!save ==> Near(file, token, store, sv.files))
         && (!save && i > u ==> sv.users == sv.agent && Follows(file, token, store, sv.files, sv.agent))
       case Saving => !sv.stamp && sv.users == sv.agent && Ensured(file, token, sv.files, sv.agent)
       case Stamping => sv.users == sv.agent && Follows(file, token, store, sv.files, sv.agent)
       case Running => sv.stamp && sv.users == sv.agent
  }

  ghost predicate PasswordsOk(c: Config, u: nat, s: State)
    requires u < |c| && c[u].Users?
  {
    && (s.store.Some? ==> StoredTable(FileOf(c, u), c[u].token, s.store))
    && forall i :: 0 <= i < |s.servers| ==> PasswordOk(c, u, s.store, s.servers[i])
  }

  ghost predicate SameFile(file: Field, before: Files, now: Files) {
    (file in now <==> file in before) && (file in now && file in before ==> now[file] == before[file])
  }

  /** Another step of generation leaves the password file alone. */
  lemma OtherItem(c: Config, u: nat, i: nat, agent: string, before: Files, now: Files)
    requires UsersAt(c, u) && i < |c| && i != u && Generates(c[i], agent, before, now)
    ensures SameFile(FileOf(c, u), before, now)
  {
    GeneratesKeeps(c[i], agent, before, now);
    DirtyInFields(c[i], before);
    assert Fields(c[i]) !! Fields(c[u]);
  }

  lemma SameFileKeeps(c: Config, u: nat, store: Option<Files>, before: Files, now: Files, agent: string)
    requires u < |c| && c[u].Users? && SameFile(FileOf(c, u), before, now)
    ensures var file, token := FileOf(c, u), c[u].token;
            && (CleanFile(file, token, before) ==> CleanFile(file, token, now))
            && (Near(file, token, store, before) ==> Near(file, token, store, now))
            && (Follows(file, token, store, before, agent) ==> Follows(file, token, store, now, agent))
            && (Ensured(file, token, before, agent) ==> Ensured(file, token, now, agent))
  {
    hide Tokens.Clean, Tokens.WithNode, Tokens.Settled;
  }

  lemma GeneratesPasswords(c: Config, u: nat, store: Option<Files>, sv: Server, sv': Server)
    requires UsersAt(c, u) && PasswordOk(c, u, store, sv) && LocalStep(c, store, sv, sv')
    requires sv.pc.Generating? && sv.pc.next < |c|
    ensures PasswordOk(c, u, store, sv')
  {
    var file, token, i := FileOf(c, u), c[u].token, sv.pc.next;
    if i == u {
      if sv.pc.save {
        CleanStart(file, token, sv.files, sv'.files, sv.agent);
      } else {
        NearStart(file, token, store, sv.files, sv'.files, sv.agent);
        FollowsNear(file, token, store, sv'.files, sv.agent);
      }
    } else {
      OtherItem(c, u, i, sv.agent, sv.files, sv'.files);
      SameFileKeeps(c, u, store, sv.files, sv'.files, sv.agent);
      SameFileKeeps(c, u, store, sv.files, sv'.files, sv.users);
    }
    hide Tokens.UsableAgent, Tokens.UsableToken, CleanFile, Near, Follows, Ensured, StoredTable, Generates, ValidConfig;
  }

  lemma StoredNear(file: Field, token: string, store: Option<Files>, files: Files)
    requires StoredTable(file, token, store)
    ensures file in files && files[file] == store.value[file] ==> Near(file, token, store, files)
  {
    hide Tokens.Settled;
    var stored := store.value[file].names;
    assert stored[Tokens.NODE := stored[Tokens.NODE]] == stored;
  }

  lemma LocalPasswords(c: Config, u: nat, store: Option<Files>, sv: Server, sv': Server)
    requires UsersAt(c, u) && PasswordOk(c, u, store, sv) && LocalStep(c, store, sv, sv')
    requires (store.Some? ==> StoredTable(FileOf(c, u), c[u].token, store)) && Tokens.UsableAgent(sv'.agent)
    ensures PasswordOk(c, u, store, sv')
  {
    hide Tokens.UsableAgent, Tokens.UsableToken, CleanFile, Follows, Ensured, Generates, ValidConfig;
    var file, token := FileOf(c, u), c[u].token;
    match sv.pc {
      case Off =>
        if sv.stamp {
          FollowsNear(file, token, store, sv.files, sv.users);
        }
      case Starting =>
        assert file in AllFields(c) by {
          assert file in Fields(c[u]);
        }
      case Loading(data, todo) =>
        if todo == {} {
          StoredNear(file, token, store, sv.files);
        }
      case Generating(i, should, save) =>
        if i < |c| {
          GeneratesPasswords(c, u, store, sv, sv');
        }
      case _ =>
    }
  }

  lemma CrashPasswords(c: Config, u: nat, store: Option<Files>, sv: Server, sv': Server)
    requires UsersAt(c, u) && PasswordOk(c, u, store, sv) && CrashStep(c, sv, sv')
    ensures PasswordOk(c, u, store, sv')
  {
    hide Tokens.UsableAgent, Tokens.UsableToken, CleanFile, Follows, Ensured, Near, StoredTable;
    if !sv.pc.Loading? {
      assert FileOf(c, u) !in Writing(c, sv) by {
        if sv.pc.Generating? && sv.pc.next < |c| {
          DirtyInFields(c[sv.pc.next], sv.files);
          assert sv.pc.next != u ==> Fields(c[sv.pc.next]) !! Fields(c[u]);
        }
      }
      SameFileKeeps(c, u, store, sv.files, sv'.files, sv.users);
    }
  }

  lemma CreatePasswords(c: Config, u: nat, sv: Server, store': Option<Files>, sv': Server)
    requires UsersAt(c, u) && PasswordOk(c, u, None, sv) && CreateStep(c, None, sv, store', sv')
    ensures StoredTable(FileOf(c, u), c[u].token, store') && PasswordOk(c, u, store', sv')
  {
    hide Tokens.UsableAgent, Tokens.UsableToken, Tokens.NodeSecret, Tokens.Settled, CleanFile;
    var file, token := FileOf(c, u), c[u].token;
    assert file in AllFields(c) by {
      assert file in Fields(c[u]);
    }
    EnsuredFollows(file, token, store', sv.files, sv.agent);
  }

  /** While nothing is stored, no server depends on what is stored. */
  lemma UnstoredPasswords(c: Config, u: nat, sv: Server, store': Option<Files>)
    requires u < |c| && c[u].Users? && PasswordOk(c, u, None, sv) && store'.Some?
    ensures PasswordOk(c, u, store', sv)
  {
  }

  ghost predicate AgentsUsable(s: State) {
    forall i :: 0 <= i < |s.servers| ==> Tokens.UsableAgent(s.servers[i].agent)
  }

  lemma NextPasswords(c: Config, u: nat, s: State, s': State)
    requires UsersAt(c, u) && PasswordsOk(c, u, s) && Next(c, s, s') && AgentsUsable(s')
    ensures PasswordsOk(c, u, s')
  {
    hide PasswordOk, LocalStep, CrashStep, StoredTable, ValidConfig, Tokens.UsableToken, Tokens.UsableAgent;
    if s' != s {
      var i: nat :| StepOf(c, s, s', i);
      var sv, sv' := s.servers[i], s'.servers[i];
      if s'.store == s.store {
        if LocalStep(c, s.store, sv, sv') {
          LocalPasswords(c, u, s.store, sv, sv');
        } else {
          CrashPasswords(c, u, s.store, sv, sv');
        }
      } else {
        CreatePasswords(c, u, sv, s'.store, sv');
        forall j | 0 <= j < |s.servers| && j != i
          ensures PasswordOk(c, u, s'.store, s'.servers[j])
        {
          UnstoredPasswords(c, u, s.servers[j], s'.store);
        }
      }
    }
  }

  // Runs.

  /** A run in which all agent tokens give passwords and, without a token, the files that are there do. */
  ghost predicate IsUsableRun(c: Config, u: nat, run: seq<State>)
    requires u < |c| && c[u].Users?
  {
    && IsRun(c, run)
    && (forall t :: 0 <= t < |run| ==> AgentsUsable(run[t]))
    && forall i :: 0 <= i < |run[0].servers| ==> CleanFile(FileOf(c, u), c[u].token, run[0].servers[i].files)
  }

  lemma {:induction false} RunPasswords(c: Config, u: nat, run: seq<State>, t: nat)
    requires UsersAt(c, u) && IsUsableRun(c, u, run) && t < |run|
    ensures PasswordsOk(c, u, run[t])
  {
    hide Next, UsersAt, CleanFile;
    if t > 0 {
      RunPasswords(c, u, run, t - 1);
      hide PasswordsOk, AgentsUsable;
      NextPasswords(c, u, run[t - 1], run[t]);
    } else {
      assert AgentsUsable(run[0]);
    }
  }

  lemma UsableIsRun(c: Config, u: nat, run: seq<State>)
    requires u < |c| && c[u].Users? && IsUsableRun(c, u, run)
    ensures IsRun(c, run)
  {
  }

  /**
   In every state of every run, a stamped server's password file is the stored one with the node's entry
   that the agent token of its last complete start asks for. So any two stamped servers, at any two times,
   have the same file if and only if these two agent tokens ask for the same node's password.
   */
  lemma PasswordAgreement(c: Config, u: nat, run: seq<State>, t: nat, t': nat, i: nat, j: nat)
    requires UsersAt(c, u) && IsUsableRun(c, u, run) && t <= t' < |run|
    requires i < |run[t].servers| && run[t].servers[i].stamp && j < |run[t'].servers| && run[t'].servers[j].stamp
    ensures run[t].store == run[t'].store
    ensures var file, token, store, a, b := FileOf(c, u), c[u].token, run[t].store, run[t].servers[i],
              run[t'].servers[j];
            && Follows(file, token, store, a.files, a.users) && Follows(file, token, store, b.files, b.users)
            && (a.files[file] == b.files[file] <==>
                var names := store.value[file].names;
                Tokens.NodeSecret(names, token, a.users) == Tokens.NodeSecret(names, token, b.users))
    ensures run[t].servers[i].pc == Running ==> run[t].servers[i].users == run[t].servers[i].agent
  {
    RunPasswords(c, u, run, t);
    RunPasswords(c, u, run, t');
    hide IsUsableRun, Tokens.NodeSecret, Tokens.Settled;
    assert PasswordOk(c, u, run[t].store, run[t].servers[i]);
    assert PasswordOk(c, u, run[t'].store, run[t'].servers[j]);
    UsableIsRun(c, u, run);
    StoreStays(c, run, t, t');
    var file := FileOf(c, u);
    assert run[t].servers[i].files[file].names[Tokens.NODE].pass ==
           Tokens.NodeSecret(run[t].store.value[file].names, c[u].token, run[t].servers[i].users);
  }

  /** With raw agent tokens: exactly when the two are equal. */
  lemma RawAgentsAgree(c: Config, u: nat, run: seq<State>, t: nat, t': nat, i: nat, j: nat)
    requires UsersAt(c, u) && IsUsableRun(c, u, run) && t <= t' < |run|
    requires i < |run[t].servers| && run[t].servers[i].stamp && j < |run[t'].servers| && run[t'].servers[j].stamp
    requires Tokens.Raw(run[t].servers[i].users) && Tokens.Raw(run[t'].servers[j].users)
    ensures FileOf(c, u) in run[t].servers[i].files && FileOf(c, u) in run[t'].servers[j].files
    ensures run[t].servers[i].files[FileOf(c, u)] == run[t'].servers[j].files[FileOf(c, u)] <==>
            run[t].servers[i].users == run[t'].servers[j].users
  {
    hide IsUsableRun, Tokens.NodeSecret, Tokens.Settled, Tokens.WithNode, ValidConfig, Tokens.UsableToken;
    PasswordAgreement(c, u, run, t, t', i, j);
    var names, token := run[t].store.value[FileOf(c, u)].names, c[u].token;
    Tokens.RawAgentUsable(names, token, run[t].servers[i].users);
    Tokens.RawAgentUsable(names, token, run[t'].servers[j].users);
  }

  /** Servers that were last started with one agent token agree on every file of the record. */
  lemma AgreeOnEverything(c: Config, u: nat, run: seq<State>, t: nat, t': nat, i: nat, j: nat)
    requires UsersAt(c, u) && IsUsableRun(c, u, run) && t <= t' < |run|
    requires i < |run[t].servers| && run[t].servers[i].stamp && j < |run[t'].servers| && run[t'].servers[j].stamp
    requires run[t].servers[i].users == run[t'].servers[j].users
    ensures forall k :: k in AllFields(c) ==>
              && k in run[t].servers[i].files && k in run[t'].servers[j].files
              && run[t].servers[i].files[k] == run[t'].servers[j].files[k]
  {
    PasswordAgreement(c, u, run, t, t', i, j);
    BootstrapAgreement(c, run, t, t', i, j);
    hide IsUsableRun, Tokens.NodeSecret, IsRun, ValidConfig, Tokens.UsableToken;
    forall k | k in AllFields(c) && k !in Agreed(c)
      ensures k == FileOf(c, u)
    {
      var x :| 0 <= x < |c| && k in Fields(c[x]);
      assert c[x].Users?;
    }
  }

  /** The steps of server start-up are such a configuration, whenever the token gives passwords. */
  lemma StartUpUsers(encryptSecrets: bool, token: string)
    requires Tokens.UsableToken(token)
    ensures UsersAt(StartUp(encryptSecrets, token), 6) && FileOf(StartUp(encryptSecrets, token), 6) == PasswdFile
  {
    hide Tokens.UsableToken;
    StartUpValid(encryptSecrets, token);
    hide ValidConfig, Agreed;
  }

  // A run in which two servers start with different agent tokens.

  ghost predicate Reaches(c: Config, u: nat, s: State)
    requires u < |c| && c[u].Users?
  {
    exists run :: IsUsableRun(c, u, run) && run[|run| - 1] == s
  }

  lemma ReachesStep(c: Config, u: nat, s: State, s': State, i: nat)
    requires u < |c| && c[u].Users? && Reaches(c, u, s) && StepOf(c, s, s', i) && AgentsUsable(s')
    ensures Reaches(c, u, s')
  {
    hide StepOf, Init, AgentsUsable, CleanFile;
    var run :| IsUsableRun(c, u, run) && run[|run| - 1] == s;
    var longer := run + [s'];
    forall t | 0 <= t < |longer|
      ensures AgentsUsable(longer[t]) && (t > 0 ==> Next(c, longer[t - 1], longer[t]))
    {
      if t < |run| {
        assert longer[t] == run[t] && AgentsUsable(run[t]);
        if t > 0 {
          assert longer[t - 1] == run[t - 1];
        }
      } else {
        assert longer[t] == s' && longer[t - 1] == s && Next(c, s, s');
      }
    }
    assert longer[0] == run[0];
    assert IsUsableRun(c, u, longer) && longer[|longer| - 1] == s';
  }

  lemma ReachesOk(c: Config, u: nat, s: State)
    requires UsersAt(c, u) && Reaches(c, u, s)
    ensures Inv(c, s) && PasswordsOk(c, u, s) && AgentsUsable(s)
  {
    hide Inv, PasswordsOk, Next, ValidConfig, CleanFile, Tokens.UsableToken;
    var run :| IsUsableRun(c, u, run) && run[|run| - 1] == s;
    RunKeeps(c, run, |run| - 1);
    RunPasswords(c, u, run, |run| - 1);
  }

  function With(s: State, i: nat, sv: Server): State
    requires i < |s.servers|
  {
    s.(servers := s.servers[i := sv])
  }

  lemma UsersPlace(c: Config, u: nat)
    requires UsersAt(c, u)
    ensures u < |c| && c[u].Users?
  {
  }

  lemma Steps(c: Config, u: nat, s: State, i: nat, sv': Server)
    requires UsersAt(c, u) && Reaches(c, u, s) && i < |s.servers| && LocalStep(c, s.store, s.servers[i], sv')
    requires Tokens.UsableAgent(sv'.agent)
    ensures Reaches(c, u, With(s, i, sv'))
  {
    hide Reaches, LocalStep, UsersAt, Tokens.UsableAgent;
    UsersPlace(c, u);
    ReachesOk(c, u, s);
    ReachesStep(c, u, s, With(s, i, sv'), i);
  }

  /** One way to do a step of start-up: a filler in files that are made. */
  function Make(item: Item, agent: string, files: Files): Files {
    match item
    case Pair(cert, key) =>
      if cert in files && key in files then files
      else if key in files then files[cert := Text("x")]
      else files[cert := Text("x")][key := Text("x")]
    case Once(file) => if file in files then files else files[file := Text("x")]
    case NonEmpty(file) => if file in files && files[file] != Text("") then files else files[file := Text("x")]
    case Users(file, token) =>
      if EntriesIn(files, file).None? then files
      else files[file := Table(Tokens.Users(EntriesIn(files, file).value, token, agent, SomeDraws()))]
  }

  lemma MakeGenerates(item: Item, agent: string, files: Files)
    requires item.Users? ==> EntriesIn(files, item.file).Some?
    ensures Generates(item, agent, files, Make(item, agent, files))
  {
    hide Tokens.Users;
    if item.Users? {
      UsersEnsured(item.file, item.token, agent, files, Make(item, agent, files), SomeDraws());
    }
  }

  lemma MadeReadable(c: Config, u: nat, i: nat, agent: string, before: Files, now: Files)
    requires UsersAt(c, u) && i < |c| && Generates(c[i], agent, before, now)
    requires EntriesIn(before, FileOf(c, u)).Some?
    ensures EntriesIn(now, FileOf(c, u)).Some?
  {
    if i != u {
      OtherItem(c, u, i, agent, before, now);
    }
  }

  /** From generating on, a server whose password file can be read can do all the steps. */
  lemma {:induction false} GeneratesAll(c: Config, u: nat, s: State, j: nat, i: nat) returns (sv: Server)
    requires UsersAt(c, u) && Reaches(c, u, s) && j < |s.servers|
    requires s.servers[j].pc.Generating? && s.servers[j].pc.next == i <= |c|
    requires EntriesIn(s.servers[j].files, FileOf(c, u)).Some?
    ensures Reaches(c, u, With(s, j, sv))
    ensures sv.agent == s.servers[j].agent && sv.stamp == s.servers[j].stamp && sv.pc == s.servers[j].pc.(next := |c|)
    decreases |c| - i
  {
    hide Reaches, Generates, Make, ValidConfig, Tokens.UsableToken, Tokens.UsableAgent;
    sv := s.servers[j];
    if i < |c| {
      var sv' := sv.(files := Make(c[i], sv.agent, sv.files), pc := sv.pc.(next := i + 1),
                     users := if c[i].Users? then sv.agent else sv.users);
      assert c[i].Users? ==> i == u;
      MakeGenerates(c[i], sv.agent, sv.files);
      ReachesOk(c, u, s);
      Steps(c, u, s, j, sv');
      MadeReadable(c, u, i, sv.agent, sv.files, sv'.files);
      sv := GeneratesAll(c, u, With(s, j, sv'), j, i + 1);
      assert With(With(s, j, sv'), j, sv) == With(s, j, sv);
    } else {
      assert With(s, j, sv) == s;
    }
  }

  lemma {:induction false} LoadsAll(c: Config, u: nat, s: State, j: nat) returns (sv: Server)
    requires UsersAt(c, u) && Reaches(c, u, s) && j < |s.servers| && s.servers[j].pc.Loading?
    requires s.servers[j].pc.todo <= s.servers[j].pc.data.Keys
    ensures Reaches(c, u, With(s, j, sv))
    ensures sv.agent == s.servers[j].agent && sv.stamp == s.servers[j].stamp && sv.pc == Generating(0, true, false)
    decreases s.servers[j].pc.todo
  {
    hide Reaches, ValidConfig, Tokens.UsableToken, Tokens.UsableAgent;
    ReachesOk(c, u, s);
    sv := s.servers[j];
    if sv.pc.todo == {} {
      sv := sv.(pc := Generating(0, true, false));
      Steps(c, u, s, j, sv);
    } else {
      var k :| k in sv.pc.todo;
      var sv' := sv.(files := sv.files[k := sv.pc.data[k]], pc := Loading(sv.pc.data, sv.pc.todo - {k}));
      assert LoadOne(sv, sv');
      Steps(c, u, s, j, sv');
      sv := LoadsAll(c, u, With(s, j, sv'), j);
      assert With(With(s, j, sv'), j, sv) == With(s, j, sv);
    }
  }

  ghost predicate Up(s: State, j: nat, agent: string) {
    j < |s.servers| && s.servers[j].stamp && s.servers[j].pc == Running && s.servers[j].agent == agent
  }

  ghost predicate OthersSame(s: State, s': State, j: nat) {
    |s'.servers| == |s.servers| && forall i :: 0 <= i < |s.servers| && i != j ==> s'.servers[i] == s.servers[i]
  }

  lemma Saves(c: Config, u: nat, s: State, j: nat) returns (s': State)
    requires UsersAt(c, u) && Reaches(c, u, s) && j < |s.servers| && s.servers[j].pc == Saving && s.store.None?
    ensures Reaches(c, u, s') && s'.store.Some? && s'.servers == s.servers[j := s.servers[j].(pc := Stamping)]
  {
    hide Reaches, ValidConfig, PasswordsOk, Tokens.UsableToken, Tokens.UsableAgent;
    ReachesOk(c, u, s);
    var sv := s.servers[j];
    AllGenerated(c, s.store, sv);
    s' := State(s.servers[j := sv.(pc := Stamping)], Some(Snapshot(c, sv.files)), s.writes + 1);
    ReachesStep(c, u, s, s', j);
  }

  lemma ComesUp(c: Config, u: nat, s: State, j: nat) returns (s': State)
    requires UsersAt(c, u) && Reaches(c, u, s) && j < |s.servers|
    requires s.servers[j].pc.Generating? && s.servers[j].pc.next == 0 && s.servers[j].pc.should
    requires (s.servers[j].pc.save ==> s.store.None?) && EntriesIn(s.servers[j].files, FileOf(c, u)).Some?
    ensures Reaches(c, u, s') && OthersSame(s, s', j) && Up(s', j, s.servers[j].agent)
  {
    hide Reaches, ValidConfig, Tokens.UsableToken, Tokens.UsableAgent, PasswordsOk, Inv;
    var sv := GeneratesAll(c, u, s, j, 0);
    s' := With(s, j, sv);
    ReachesOk(c, u, s');
    sv := sv.(pc := if sv.pc.save then Saving else Stamping);
    Steps(c, u, s', j, sv);
    s' := With(s', j, sv);
    if sv.pc == Saving {
      s' := Saves(c, u, s', j);
    }
    ReachesOk(c, u, s');
    sv := s'.servers[j].(stamp := true, pc := Running);
    Steps(c, u, s', j, sv);
    s' := With(s', j, sv);
  }

  /** A server that was never up and has no files yet can come up with any usable agent token, whatever is stored. */
  lemma Boots(c: Config, u: nat, s: State, j: nat, agent: string) returns (s': State)
    requires UsersAt(c, u) && Reaches(c, u, s) && Tokens.UsableAgent(agent)
    requires j < |s.servers| && s.servers[j].pc == Off && !s.servers[j].stamp && s.servers[j].files == map[]
    ensures Reaches(c, u, s') && OthersSame(s, s', j) && Up(s', j, agent)
  {
    hide Reaches, ValidConfig, Tokens.UsableToken, Tokens.UsableAgent, Inv;
    var sv := s.servers[j].(pc := Starting, agent := agent);
    Steps(c, u, s, j, sv);
    s' := With(s, j, sv);
    if s.store.None? {
      sv := sv.(pc := Generating(0, true, true));
      Steps(c, u, s', j, sv);
      s' := ComesUp(c, u, With(s', j, sv), j);
    } else {
      var v := s.store.value;
      sv := sv.(pc := Loading(v, v.Keys * AllFields(c)));
      Steps(c, u, s', j, sv);
      s' := With(s', j, sv);
      sv := LoadsAll(c, u, s', j);
      s' := With(s', j, sv);
      ReachesOk(c, u, s');
      assert PasswordOk(c, u, s'.store, s'.servers[j]);
      s' := ComesUp(c, u, s', j);
    }
  }

  /** The node's password in a server's password file. */
  function NodePasswordOf(c: Config, u: nat, sv: Server): string
    requires u < |c| && c[u].Users?
  {
    var entries := EntriesIn(sv.files, FileOf(c, u));
    if entries.Some? then Tokens.PassOf(entries.value, Tokens.NODE) else ""
  }

  lemma StartsFresh(c: Config, u: nat, s: State, agent: string)
    requires u < |c| && c[u].Users? && Init(s) && Tokens.UsableAgent(agent)
    requires forall i :: 0 <= i < |s.servers| ==> s.servers[i].files == map[] && s.servers[i].agent == agent
    ensures Reaches(c, u, s)
  {
    hide Tokens.UsableAgent;
    assert IsUsableRun(c, u, [s]) && [s][|[s]| - 1] == s;
  }

  /** For any two raw agent tokens some run ends with two servers up, each with one of them as the node's password. */
  lemma PasswordsMayDiffer(c: Config, u: nat, one: string, other: string)
    requires UsersAt(c, u) && Tokens.Raw(one) && Tokens.Raw(other)
    ensures exists s ::
              && Reaches(c, u, s) && Up(s, 0, one) && Up(s, 1, other)
              && NodePasswordOf(c, u, s.servers[0]) == one && NodePasswordOf(c, u, s.servers[1]) == other
  {
    hide ValidConfig, Tokens.UsableToken, Tokens.NodeSecret, Tokens.Settled, Inv, Reaches, Tokens.Raw;
    Tokens.RawAgentUsable(map[], "", one);
    Tokens.RawAgentUsable(map[], "", other);
    var server := Server(map[], false, Off, one, one);
    var s := State([server, server], None, 0);
    StartsFresh(c, u, s, one);
    var s1 := Boots(c, u, s, 0, one);
    var s2 := Boots(c, u, s1, 1, other);
    ReachesOk(c, u, s2);
    var file, token := FileOf(c, u), c[u].token;
    assert PasswordOk(c, u, s2.store, s2.servers[0]) && PasswordOk(c, u, s2.store, s2.servers[1]);
    Tokens.RawAgentUsable(s2.store.value[file].names, token, one);
    Tokens.RawAgentUsable(s2.store.value[file].names, token, other);
    assert Up(s2, 0, one) && NodePasswordOf(c, u, s2.servers[0]) == one;
  }
}
