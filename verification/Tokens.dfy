/** Join tokens and the password file. */
module Tokens {
  import opened Basics
  import opened Text

  const TOKEN_PREFIX := "K10"

  datatype Info = Info(caHash: string, username: string, password: string)

  function Format(hash: string, username: string, password: string): string {
    TOKEN_PREFIX + hash + "::" + username + ":" + password
  }

  /** Cut at the first occurrence of a pattern. */
  function Cut(s: string, pattern: string): Option<(string, string)> {
    var i := IndexOf(s, pattern);
    if i < 0 then None else Some((s[..i], s[i + |pattern|..]))
  }

  function ParseToken(token: string): Option<Info> {
    var token := if HasPrefix(token, TOKEN_PREFIX) then token else Format("", "", token);
    var token := token[|TOKEN_PREFIX|..];
    var parts := Cut(token, "::");
    var hash, token := if parts.Some? then parts.value.0 else "", if parts.Some? then parts.value.1 else token;
    var parts := Cut(token, ":");
    if parts.None? then None else Some(Info(hash, parts.value.0, parts.value.1))
  }

  lemma CutBehind(a: string, pattern: string, b: string)
    requires pattern != "" && pattern[0] !in a
    ensures Cut(a + pattern + b, pattern) == Some((a, b))
  {
    IndexBehind(a, pattern, b);
    var s := a + pattern + b;
    assert s[..|a|] == a && s[|a| + |pattern|..] == b;
  }

  lemma {:induction false} CutFirst(s: string, pattern: string)
    requires |pattern| == 1
    ensures IndexOf(s, pattern) >= 0 ==> pattern[0] !in s[..IndexOf(s, pattern)]
  {
    if !(pattern <= s) && s != "" {
      CutFirst(s[1..], pattern);
      var i := IndexOf(s[1..], pattern);
      if i >= 0 {
        assert s[..i + 1] == [s[0]] + s[1..][..i];
        assert s[0] == pattern[0] ==> pattern <= s;
      }
    }
  }

  lemma CutLacks(s: string, pattern: string)
    requires |pattern| == 1
    ensures Cut(s, pattern).Some? ==> pattern[0] !in Cut(s, pattern).value.0
  {
    CutFirst(s, pattern);
  }

  lemma FormatPrefix(hash: string, username: string, password: string)
    ensures HasPrefix(Format(hash, username, password), TOKEN_PREFIX)
    ensures Format(hash, username, password)[|TOKEN_PREFIX|..] == hash + "::" + (username + ":" + password)
  {
    var rest := hash + "::" + (username + ":" + password);
    assert Format(hash, username, password) == TOKEN_PREFIX + rest;
  }

  /** Parsing undoes formatting if and only if the user name has no colon. The hash is in hexadecimal. */
  lemma ParseUndoesFormat(hash: string, username: string, password: string)
    requires ':' !in hash
    ensures ParseToken(Format(hash, username, password)) == Some(Info(hash, username, password)) <==> ':' !in username
  {
    hide Format, Cut;
    var rest := username + ":" + password;
    FormatPrefix(hash, username, password);
    CutBehind(hash, "::", rest);
    if ':' in username {
      CutLacks(rest, ":");
    } else {
      CutBehind(username, ":", password);
    }
  }

  /** A secret that does not look like a token is its own password. */
  lemma RawSecretWhole(secret: string)
    requires !HasPrefix(secret, TOKEN_PREFIX)
    ensures ParseToken(secret) == Some(Info("", "", secret))
  {
    ParseUndoesFormat("", "", secret);
    FormatPrefix("", "", secret);
  }

  lemma NoColonNoCut(s: string, pattern: string)
    requires ':' !in s && pattern != "" && pattern[0] == ':'
    ensures Cut(s, pattern) == None
  {
  }

  /** Tokens as text: with a hash, without one, and those that cannot be parsed because no password is set apart. */
  lemma TokenTexts(hash: string, username: string, password: string)
    requires ':' !in hash && ':' !in username
    ensures ParseToken("K10" + hash + "::" + username + ":" + password) == Some(Info(hash, username, password))
    ensures Cut(username + ":" + password, "::").None? ==>
              ParseToken("K10" + username + ":" + password) == Some(Info("", username, password))
    ensures ParseToken("K10" + hash) == None && ParseToken("K10" + hash + "::" + username) == None
  {
    hide Cut;
    ParseUndoesFormat(hash, username, password);
    assert Format(hash, username, password) == "K10" + hash + "::" + username + ":" + password;
    var short := "K10" + username + ":" + password;
    assert HasPrefix(short, "K10") && short[3..] == username + ":" + password;
    CutBehind(username, ":", password);
    assert HasPrefix("K10" + hash, "K10") && ("K10" + hash)[3..] == hash;
    NoColonNoCut(hash, "::");
    NoColonNoCut(hash, ":");
    var open := "K10" + hash + "::" + username;
    assert HasPrefix(open, "K10") && open[3..] == hash + "::" + username;
    CutBehind(hash, "::", username);
    NoColonNoCut(username, ":");
  }

  // The password file.

  datatype Entry = Entry(pass: string, role: string)

  type Names = map<string, Entry>

  const NODE := "node"
  const SERVER := "server"
  const AGENT_ROLE := "k3s:agent"
  const SERVER_ROLE := "k3s:server"

  /** A password given as a full token of this user is cut down to its secret. */
  function Stripped(name: string, passwd: string): string {
    var marker := "::" + name + ":";
    var i := IndexOf(passwd, marker);
    if i > 0 && HasPrefix(passwd, TOKEN_PREFIX) then passwd[i + |marker|..] else passwd
  }

  function PassOf(names: Names, name: string): string {
    if name in names then names[name].pass else ""
  }

  /** The entry that a user is to have; an empty password keeps the old one or takes a random one. */
  function EntryFor(names: Names, name: string, role: string, passwd: string, random: string): Entry {
    var passwd := Stripped(name, passwd);
    Entry(if passwd != "" then passwd else if name in names then names[name].pass else random, role)
  }

  function Ensured(names: Names, name: string, role: string, passwd: string, random: string): Names {
    names[name := EntryFor(names, name, role, passwd, random)]
  }

  /** A secret that is there and does not look like a token. */
  predicate Raw(secret: string) {
    secret != "" && !HasPrefix(secret, TOKEN_PREFIX)
  }

  class Passwd {
    var changed: bool
    var names: Names

    constructor (stored: Names)
      ensures !changed && names == stored
    {
      changed, names := false, stored;
    }

    /** The file is marked as changed exactly when an entry becomes different or is new. */
    method EnsureUser(name: string, role: string, passwd: string, random: string)
      modifies this
      ensures names == Ensured(old(names), name, role, passwd, random)
      ensures changed <==> old(changed) || names != old(names)
      ensures names.Keys == old(names).Keys + {name} && names[name].role == role
      ensures forall n :: n in old(names) && n != name ==> names[n] == old(names)[n]
      ensures Raw(passwd) ==> names[name].pass == passwd
      ensures passwd == "" ==> names[name].pass == if name in old(names) then old(names)[name].pass else random
    {
      var marker := "::" + name + ":";
      var i := IndexOf(passwd, marker);
      var secret := passwd;
      if i > 0 && HasPrefix(passwd, TOKEN_PREFIX) {
        secret := passwd[i + |marker|..];
      }
      if name in names {
        var e := names[name];
        if secret != "" && e.pass != secret {
          changed, e := true, e.(pass := secret);
        }
        if e.role != role {
          changed, e := true, e.(role := role);
        }
        ghost var before := names;
        names := names[name := e];
        assert e == before[name] ==> names == before;
        assert e != before[name] ==> names[name] != before[name];
        return;
      }
      if secret == "" {
        secret := random;
      }
      changed := true;
      names := names[name := Entry(secret, role)];
    }
  }

  /** The random tokens that a run may draw. */
  datatype Draws = Draws(migrated: string, server: string, nodeUser: string, serverUser: string)

  /** Random tokens are in hexadecimal, so they do not look like full tokens. */
  predicate ValidDraws(r: Draws) {
    Raw(r.migrated) && Raw(r.server) && Raw(r.nodeUser) && Raw(r.serverUser)
  }

  function Migrated(names: Names, r: Draws): Names {
    if PassOf(names, SERVER) == "" && PassOf(names, NODE) != "" then
      Ensured(names, SERVER, SERVER_ROLE, PassOf(names, NODE), r.migrated)
    else names
  }

  function ServerPass(names: Names, token: string, r: Draws): string {
    if token != "" then token else if PassOf(names, SERVER) != "" then PassOf(names, SERVER) else r.server
  }

  function NodePass(serverPass: string, agentToken: string): string {
    if agentToken != "" then agentToken
    else if ParseToken(serverPass).Some? then ParseToken(serverPass).value.password
    else serverPass
  }

  /** The entries after a start with this configuration. */
  function Users(names: Names, token: string, agentToken: string, r: Draws): Names {
    var names := Migrated(names, r);
    var pass := ServerPass(names, token, r);
    var names := Ensured(names, NODE, AGENT_ROLE, NodePass(pass, agentToken), r.nodeUser);
    Ensured(names, SERVER, SERVER_ROLE, pass, r.serverUser)
  }

  /** No step of a start has anything to change. */
  predicate Idle(names: Names, token: string, agentToken: string, r: Draws) {
    var pass := ServerPass(names, token, r);
    && Migrated(names, r) == names
    && Ensured(names, NODE, AGENT_ROLE, NodePass(pass, agentToken), r.nodeUser) == names
    && Ensured(names, SERVER, SERVER_ROLE, pass, r.serverUser) == names
  }

  method GenUsers(p: Passwd, token: string, agentToken: string, r: Draws)
    modifies p
    ensures p.names == Users(old(p.names), token, agentToken, r)
    ensures old(p.changed) || p.names != old(p.names) ==> p.changed
    ensures !old(p.changed) && Idle(old(p.names), token, agentToken, r) ==> !p.changed
  {
    hide Stripped, ParseToken;
    if PassOf(p.names, SERVER) == "" && PassOf(p.names, NODE) != "" {
      p.EnsureUser(SERVER, SERVER_ROLE, PassOf(p.names, NODE), r.migrated);
    }
    var serverPass := token;
    if serverPass == "" {
      serverPass := PassOf(p.names, SERVER);
    }
    if serverPass == "" {
      serverPass := r.server;
    }
    var nodePass := NodePass(serverPass, agentToken);
    p.EnsureUser(NODE, AGENT_ROLE, nodePass, r.nodeUser);
    p.EnsureUser(SERVER, SERVER_ROLE, serverPass, r.serverUser);
  }

  /** A raw secret, or a full server token around one. */
  ghost predicate Carries(pass: string, secret: string) {
    Raw(secret) && (pass == secret || exists hash :: ':' !in hash && pass == Format(hash, SERVER, secret))
  }

  lemma RawStays(name: string, secret: string)
    requires Raw(secret)
    ensures Stripped(name, secret) == secret
  {
  }

  /** A full token gives up its secret to its own user. */
  lemma TokenStripped(hash: string, name: string, secret: string)
    requires ':' !in hash
    ensures Stripped(name, Format(hash, name, secret)) == secret
  {
    var head, marker := TOKEN_PREFIX + hash, "::" + name + ":";
    var token := Format(hash, name, secret);
    assert ':' !in head by {
      assert ':' !in TOKEN_PREFIX;
    }
    assert token == head + marker + secret;
    IndexBehind(head, marker, secret);
    assert TOKEN_PREFIX <= token && token[|head| + |marker|..] == secret;
  }

  lemma TokenNodePass(hash: string, secret: string)
    requires ':' !in hash
    ensures NodePass(Format(hash, SERVER, secret), "") == secret
  {
    hide ParseToken, Format;
    assert ':' !in SERVER;
    ParseUndoesFormat(hash, SERVER, secret);
  }

  lemma StripsToSecret(pass: string, secret: string)
    requires Carries(pass, secret)
    ensures Stripped(SERVER, pass) == secret && NodePass(pass, "") == secret && Stripped(NODE, secret) == secret
    ensures pass != "" && secret != ""
  {
    hide ParseToken, Stripped, Format;
    RawStays(NODE, secret);
    if pass == secret {
      RawStays(SERVER, secret);
      RawSecretWhole(secret);
    } else {
      var hash :| ':' !in hash && pass == Format(hash, SERVER, secret);
      TokenStripped(hash, SERVER, secret);
      TokenNodePass(hash, secret);
      FormatPrefix(hash, SERVER, secret);
    }
  }

  /** Node and server get the same password, whatever was stored, when the server's password carries a secret. */
  lemma PasswordsAgree(names: Names, token: string, r: Draws, secret: string)
    requires Carries(ServerPass(Migrated(names, r), token, r), secret)
    ensures var after := Users(names, token, "", r);
            NODE in after && SERVER in after && after[NODE] == Entry(secret, AGENT_ROLE) &&
              after[SERVER] == Entry(secret, SERVER_ROLE)
  {
    StripsToSecret(ServerPass(Migrated(names, r), token, r), secret);
    hide ParseToken, Carries, Stripped, NodePass, Migrated;
    assert NODE != SERVER;
  }

  lemma EnsuredAs(names: Names, name: string, role: string, passwd: string, random: string)
    requires Stripped(name, passwd) != ""
    ensures Ensured(names, name, role, passwd, random) == names[name := Entry(Stripped(name, passwd), role)]
  {
    hide Stripped;
  }

  /** An old file that has the node's password alone gives it to the server too, and keeps it for the node. */
  lemma OldFileMigrates(names: Names, r: Draws)
    requires SERVER !in names && NODE in names && Raw(names[NODE].pass)
    ensures var after := Users(names, "", "", r);
            && SERVER in after && after[SERVER] == Entry(names[NODE].pass, "k3s:server")
            && NODE in after && after[NODE] == Entry(names[NODE].pass, "k3s:agent")
            && after.Keys == names.Keys + {SERVER}
            && forall n :: n in names && n != NODE ==> after[n] == names[n]
  {
    var pass := names[NODE].pass;
    RawStays(NODE, pass);
    RawStays(SERVER, pass);
    RawSecretWhole(pass);
    hide Stripped, ParseToken, Raw, Ensured;
    assert NODE != SERVER;
    var both := names[SERVER := Entry(pass, SERVER_ROLE)];
    EnsuredAs(names, SERVER, SERVER_ROLE, pass, r.migrated);
    assert Migrated(names, r) == both && ServerPass(both, "", r) == pass && NodePass(pass, "") == pass;
    var after := both[NODE := Entry(pass, AGENT_ROLE)];
    EnsuredAs(both, NODE, AGENT_ROLE, pass, r.nodeUser);
    EnsuredAs(after, SERVER, SERVER_ROLE, pass, r.serverUser);
    assert after[SERVER := Entry(pass, SERVER_ROLE)] == after;
  }

  // Starts with any configuration that gives passwords.

  /** No token, or one that gives the server a password, and the node too when there is no agent token. */
  predicate UsableToken(token: string) {
    token == "" || (Stripped(SERVER, token) != "" && Stripped(NODE, NodePass(token, "")) != "")
  }

  /** No agent token, or one that gives the node a password. */
  predicate UsableAgent(agentToken: string) {
    agentToken == "" || Stripped(NODE, agentToken) != ""
  }

  ghost predicate CarriesSome(pass: string) {
    exists secret :: Carries(pass, secret)
  }

  /** The server's password that a start finds, or draws, is a raw secret or a full server token around one. */
  ghost predicate Startable(names: Names, token: string, r: Draws) {
    CarriesSome(ServerPass(Migrated(names, r), token, r))
  }

  /** The server's entry is as a start with this token leaves it. */
  predicate Settled(names: Names, token: string) {
    && SERVER in names && names[SERVER].role == SERVER_ROLE
    && if token == "" then Raw(names[SERVER].pass) else names[SERVER].pass == Stripped(SERVER, token)
  }

  /** The node's password under an agent token, in a cluster with this token or with these entries. */
  function NodeSecret(names: Names, token: string, agentToken: string): string {
    Stripped(NODE, NodePass(if token == "" then PassOf(names, SERVER) else token, agentToken))
  }

  function WithNode(names: Names, token: string, agentToken: string): Names {
    names[NODE := Entry(NodeSecret(names, token, agentToken), AGENT_ROLE)]
  }

  lemma SecretThere(names: Names, token: string, agentToken: string)
    requires Settled(names, token) && UsableToken(token) && UsableAgent(agentToken)
    ensures NodeSecret(names, token, agentToken) != ""
  {
    hide Stripped;
    if token == "" && agentToken == "" {
      var pass := names[SERVER].pass;
      RawSecretWhole(pass);
      RawStays(NODE, pass);
    }
  }

  /** From a settled file a start changes at most the node's entry, and that in a way no draw has a part in. */
  lemma SettledStart(names: Names, token: string, agentToken: string, r: Draws)
    requires Settled(names, token) && UsableToken(token) && UsableAgent(agentToken)
    ensures Users(names, token, agentToken, r) == WithNode(names, token, agentToken)
    ensures Settled(WithNode(names, token, agentToken), token)
    ensures Idle(names, token, agentToken, r) <==> WithNode(names, token, agentToken) == names
  {
    SecretThere(names, token, agentToken);
    if token == "" {
      RawStays(SERVER, names[SERVER].pass);
    }
    hide Stripped, NodePass, Raw, Ensured;
    assert NODE != SERVER && PassOf(names, SERVER) != "";
    var pass, after := ServerPass(names, token, r), WithNode(names, token, agentToken);
    EnsuredAs(names, NODE, AGENT_ROLE, NodePass(pass, agentToken), r.nodeUser);
    EnsuredAs(after, SERVER, SERVER_ROLE, pass, r.serverUser);
    EnsuredAs(names, SERVER, SERVER_ROLE, pass, r.serverUser);
    assert after[SERVER := names[SERVER]] == after && names[SERVER := names[SERVER]] == names;
  }

  lemma StartEntries(names: Names, token: string, agentToken: string, r: Draws)
    requires var pass := ServerPass(Migrated(names, r), token, r);
             Stripped(SERVER, pass) != "" && Stripped(NODE, NodePass(pass, agentToken)) != ""
    ensures var pass, after := ServerPass(Migrated(names, r), token, r), Users(names, token, agentToken, r);
            && NODE in after && after[NODE] == Entry(Stripped(NODE, NodePass(pass, agentToken)), AGENT_ROLE)
            && SERVER in after && after[SERVER] == Entry(Stripped(SERVER, pass), SERVER_ROLE)
  {
    hide Stripped, NodePass, Migrated, ServerPass;
    assert NODE != SERVER;
  }

  /** A full server token gives both users what the secret in it does. */
  lemma FoundPass(pass: string, secret: string, agentToken: string)
    requires Carries(pass, secret) && UsableAgent(agentToken)
    ensures Stripped(SERVER, pass) == secret && Raw(secret)
    ensures Stripped(NODE, NodePass(pass, agentToken)) == Stripped(NODE, NodePass(secret, agentToken)) != ""
  {
    StripsToSecret(pass, secret);
    assert Carries(secret, secret);
    StripsToSecret(secret, secret);
    hide Stripped, ParseToken, Carries;
  }

  lemma AgentTokenWins(pass: string, agentToken: string)
    requires agentToken != ""
    ensures NodePass(pass, agentToken) == agentToken
  {
  }

  /** Any start settles the file, with the node's password that the agent token asks for. */
  lemma StartSettles(names: Names, token: string, agentToken: string, r: Draws)
    requires UsableToken(token) && UsableAgent(agentToken) && (token == "" ==> Startable(names, token, r))
    ensures var after := Users(names, token, agentToken, r);
            Settled(after, token) && WithNode(after, token, agentToken) == after
  {
    hide Migrated, NodePass, Stripped, Users, Carries;
    var pass, after := ServerPass(Migrated(names, r), token, r), Users(names, token, agentToken, r);
    if token == "" {
      var secret :| Carries(pass, secret);
      FoundPass(pass, secret, agentToken);
    } else if agentToken != "" {
      AgentTokenWins(token, agentToken);
    }
    StartEntries(names, token, agentToken, r);
    assert after[NODE := after[NODE]] == after;
  }

  /** A second start with the same configuration has nothing to change, whatever it draws. */
  lemma SecondStartIdle(names: Names, token: string, agentToken: string, r: Draws, r': Draws)
    requires UsableToken(token) && UsableAgent(agentToken) && (token == "" ==> Startable(names, token, r))
    ensures Idle(Users(names, token, agentToken, r), token, agentToken, r')
  {
    hide Users, Idle, Settled, WithNode, Startable;
    StartSettles(names, token, agentToken, r);
    SettledStart(Users(names, token, agentToken, r), token, agentToken, r');
  }

  /** What a start without a token takes the server's password from is a raw secret or a full server token. */
  ghost predicate Clean(names: Names) {
    if PassOf(names, SERVER) != "" then CarriesSome(PassOf(names, SERVER))
    else PassOf(names, NODE) == "" || CarriesSome(PassOf(names, NODE))
  }

  lemma CleanStarts(names: Names, r: Draws)
    requires Clean(names) && ValidDraws(r)
    ensures Startable(names, "", r)
  {
    hide Stripped;
    if PassOf(names, SERVER) == "" && PassOf(names, NODE) != "" {
      var secret :| Carries(PassOf(names, NODE), secret);
      StripsToSecret(PassOf(names, NODE), secret);
      assert ServerPass(Migrated(names, r), "", r) == secret;
      assert Carries(secret, secret);
    } else if PassOf(names, SERVER) == "" {
      assert Carries(r.server, r.server);
    }
  }

  /** A settled file is one to start from. */
  lemma SettledClean(names: Names)
    requires Settled(names, "")
    ensures Clean(names)
  {
    assert Carries(names[SERVER].pass, names[SERVER].pass);
  }

  /** The tokens and agent tokens in use are usable: raw secrets, and full tokens around them. */
  lemma CommonTokensUsable(token: string, secret: string)
    requires Carries(token, secret)
    ensures UsableToken(token)
  {
    StripsToSecret(token, secret);
  }

  lemma RawAgentUsable(names: Names, token: string, agentToken: string)
    requires Raw(agentToken)
    ensures UsableAgent(agentToken) && NodeSecret(names, token, agentToken) == agentToken
  {
    RawStays(NODE, agentToken);
  }

  lemma MarkerPlace(hash: string, user: string, secret: string, i: int)
    requires ':' !in hash && ':' !in user && ':' !in secret
    requires OccursAt(Format(hash, user, secret), "::" + SERVER + ":", i)
    ensures user == SERVER
  {
    var token, marker, first := Format(hash, user, secret), "::" + SERVER + ":", |TOKEN_PREFIX + hash|;
    var part, last := token[i..i + |marker|], first + 2 + |user|;
    assert forall j :: 0 <= j < |token| && token[j] == ':' ==> j == first || j == first + 1 || j == last by {
      assert ':' !in TOKEN_PREFIX;
    }
    assert part[0] == part[1] == part[8] == ':';
    assert token[i] == token[i + 1] == token[i + 8] == ':';
    assert i == first && |user| == 6;
    assert part[2..8] == SERVER && token[i + 2..i + 8] == part[2..8];
    assert token[first + 2..last] == user;
  }

  /** The marker of the server is in a token exactly when it is the token of the server. */
  lemma NoServerMarker(hash: string, user: string, secret: string)
    requires ':' !in hash && ':' !in user && ':' !in secret && user != SERVER
    ensures IndexOf(Format(hash, user, secret), "::" + SERVER + ":") < 0
  {
    var token, marker := Format(hash, user, secret), "::" + SERVER + ":";
    forall i
      ensures !OccursAt(token, marker, i)
    {
      if OccursAt(token, marker, i) {
        MarkerPlace(hash, user, secret, i);
      }
    }
  }

  /** Given the token of some user in place of a secret, node and server agree exactly when that user is the server. */
  lemma ForeignTokenDiffers(names: Names, hash: string, user: string, secret: string, r: Draws)
    requires ':' !in hash && ':' !in user && ':' !in secret && Raw(secret)
    ensures var token := Format(hash, user, secret);
            var after := Users(names, token, "", r);
            && NODE in after && SERVER in after
            && after[NODE] == Entry(secret, AGENT_ROLE)
            && after[SERVER] == Entry(if user == SERVER then secret else token, SERVER_ROLE)
            && (after[NODE].pass == after[SERVER].pass <==> user == SERVER)
  {
    var token := Format(hash, user, secret);
    ParseUndoesFormat(hash, user, secret);
    FormatPrefix(hash, user, secret);
    RawStays(NODE, secret);
    if user == SERVER {
      TokenStripped(hash, user, secret);
    } else {
      NoServerMarker(hash, user, secret);
    }
    hide Format, ParseToken, Migrated;
    assert NODE != SERVER;
  }

  /** A first start without a configured token gives node and server one random password. */
  lemma FreshStart(r: Draws)
    requires ValidDraws(r)
    ensures var after := Users(map[], "", "", r);
            after == map[NODE := Entry(r.server, AGENT_ROLE), SERVER := Entry(r.server, SERVER_ROLE)]
  {
    PasswordsAgree(map[], "", r, r.server);
    hide Stripped, NodePass;
    assert Users(map[], "", "", r).Keys == {NODE, SERVER};
  }
}
