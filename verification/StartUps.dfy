/** What a start keeps of the files that are there, field by field. */
module StartUps {
  import opened Basics
  import opened Bootstrap
  import Tokens

  ghost predicate SameOn(fields: set<Field>, a: Files, b: Files) {
    forall k :: k in fields ==> (k in a <==> k in b) && (k in a && k in b ==> a[k] == b[k])
  }

  lemma ItemTouches(item: Item, agent: string, before: Files, now: Files, fields: set<Field>)
    requires Generates(item, agent, before, now) && Fields(item) !! fields
    ensures SameOn(fields, before, now)
  {
    GeneratesKeeps(item, agent, before, now);
    DirtyInFields(item, before);
    hide Generates, Generated, Dirty, Fields;
  }

  lemma {:induction false} Untouched(c: Config, agent: string, before: Files, now: Files, fields: set<Field>)
    requires Through(c, agent, before, now) && forall i :: 0 <= i < |c| ==> Fields(c[i]) !! fields
    ensures SameOn(fields, before, now)
  {
    hide Generates, Fields;
    if c != [] {
      var init := c[..|c| - 1];
      var mid :| Through(init, agent, before, mid) && Generates(c[|c| - 1], agent, mid, now);
      Untouched(init, agent, before, mid, fields);
      ItemTouches(c[|c| - 1], agent, mid, now, fields);
    }
  }

  /** A start does to the files of one step what that step does, and nothing else. */
  lemma {:induction false} StepAlone(c: Config, agent: string, before: Files, now: Files, i: nat)
    returns (a: Files, b: Files)
    requires ValidConfig(c) && i < |c| && Through(c, agent, before, now)
    ensures SameOn(Fields(c[i]), before, a) && Generates(c[i], agent, a, b) && SameOn(Fields(c[i]), b, now)
    decreases |c|
  {
    hide Generates, Fields;
    var n := |c| - 1;
    var mid :| Through(c[..n], agent, before, mid) && Generates(c[n], agent, mid, now);
    if i == n {
      assert forall j :: 0 <= j < n ==> Fields(c[j]) !! Fields(c[n]);
      Untouched(c[..n], agent, before, mid, Fields(c[n]));
      a, b := mid, now;
    } else {
      a, b := StepAlone(c[..n], agent, before, mid, i);
      ItemTouches(c[n], agent, mid, now, Fields(c[i]));
    }
  }

  lemma StepOf(c: Config, agent: string, before: Files, now: Files, item: Item) returns (a: Files, b: Files)
    requires ValidConfig(c) && item in c && Through(c, agent, before, now)
    ensures SameOn(Fields(item), before, a) && Generates(item, agent, a, b) && SameOn(Fields(item), b, now)
  {
    var i :| 0 <= i < |c| && c[i] == item;
    a, b := StepAlone(c, agent, before, now, i);
  }

  predicate Kept(f: Field, before: Files, now: Files) {
    f in before && f in now && now[f] == before[f]
  }

  /** A certificate and its key are there afterwards; the key is kept if it was, and both if both were. */
  predicate PairKept(cert: Field, key: Field, before: Files, now: Files) {
    && cert in now && key in now && (key in before ==> Kept(key, before, now))
    && (cert in before && key in before ==> Kept(cert, before, now))
  }

  /** Something that is not empty is kept; otherwise there is something that is not empty afterwards. */
  predicate FilledOnce(f: Field, before: Files, now: Files) {
    && f in now && now[f] != Text("")
    && (f in before && before[f] != Text("") ==> Kept(f, before, now))
  }

  lemma PairsKept(c: Config, agent: string, before: Files, now: Files, cert: Field, key: Field)
    requires ValidConfig(c) && Pair(cert, key) in c && Through(c, agent, before, now)
    ensures PairKept(cert, key, before, now)
  {
    hide ValidConfig, Through;
    var a, b := StepOf(c, agent, before, now, Pair(cert, key));
  }

  lemma FilesFilled(c: Config, agent: string, before: Files, now: Files, f: Field)
    requires ValidConfig(c) && NonEmpty(f) in c && Through(c, agent, before, now)
    ensures FilledOnce(f, before, now)
  {
    hide ValidConfig, Through;
    var a, b := StepOf(c, agent, before, now, NonEmpty(f));
  }

  lemma OnceKept(c: Config, agent: string, before: Files, now: Files, f: Field)
    requires ValidConfig(c) && Once(f) in c && Through(c, agent, before, now)
    ensures f in now && (f in before ==> Kept(f, before, now))
  {
    hide ValidConfig, Through;
    var a, b := StepOf(c, agent, before, now, Once(f));
  }

  /** The entries that stand in a file: none if it is missing or empty. */
  predicate Stands(files: Files, f: Field, names: Tokens.Names) {
    if f in files && files[f] != Text("") then files[f] == Table(names) else names == map[]
  }

  /** The users were ensured among the entries that stood in the file. */
  ghost predicate UsersMade(f: Field, token: string, agent: string, before: Files, now: Files) {
    exists names, r :: Stands(before, f, names) && Tokens.ValidDraws(r) &&
      f in now && now[f] == Table(Tokens.Users(names, token, agent, r))
  }

  lemma PasswordsEnsured(c: Config, agent: string, before: Files, now: Files, f: Field, token: string)
    requires ValidConfig(c) && Users(f, token) in c && Through(c, agent, before, now)
    ensures UsersMade(f, token, agent, before, now)
  {
    hide ValidConfig, Through, Tokens.Users;
    var a, b := StepOf(c, agent, before, now, Users(f, token));
    var r :| Tokens.ValidDraws(r) && b == a[f := Table(Tokens.Users(EntriesIn(a, f).value, token, agent, r))];
    assert Stands(before, f, EntriesIn(a, f).value);
  }

  lemma StartUpHas(encryptSecrets: bool, token: string)
    ensures var c := StartUp(encryptSecrets, token);
            && Pair(ClientCA, ClientCAKey) in c && Pair(ServerCA, ServerCAKey) in c
            && Pair(RequestHeaderCA, RequestHeaderCAKey) in c && Pair(ETCDServerCA, ETCDServerCAKey) in c
            && Pair(ETCDPeerCA, ETCDPeerCAKey) in c && Once(ServiceKey) in c && NonEmpty(IPSECKey) in c
            && Users(PasswdFile, token) in c && (encryptSecrets ==> NonEmpty(EncryptionConfig) in c)
  {
    var c := StartUp(encryptSecrets, token);
    assert c[0] in c && c[1] in c && c[2] in c && c[3] in c && c[4] in c && c[5] in c && c[6] in c && c[7] in c;
    assert encryptSecrets ==> c[8] in c;
  }

  lemma NoEncryption(token: string, i: nat)
    requires i < |StartUp(false, token)|
    ensures Fields(StartUp(false, token)[i]) !! {EncryptionConfig}
  {
  }

  /**
   What a start keeps, by name: each certificate authority with its own key, the service account key, and
   the IPSEC key and the encryption configuration unless they are empty. The password file gets the users
   that the token and the agent token ask for. Without encryption of secrets its configuration is not
   touched.
   */
  lemma StartKeeps(encryptSecrets: bool, token: string, agent: string, before: Files, now: Files)
    requires Through(StartUp(encryptSecrets, token), agent, before, now)
    ensures PairKept(ClientCA, ClientCAKey, before, now) && PairKept(ServerCA, ServerCAKey, before, now)
    ensures PairKept(RequestHeaderCA, RequestHeaderCAKey, before, now)
    ensures PairKept(ETCDServerCA, ETCDServerCAKey, before, now) && PairKept(ETCDPeerCA, ETCDPeerCAKey, before, now)
    ensures ServiceKey in now && (ServiceKey in before ==> Kept(ServiceKey, before, now))
    ensures FilledOnce(IPSECKey, before, now)
    ensures if encryptSecrets then FilledOnce(EncryptionConfig, before, now)
              else SameOn({EncryptionConfig}, before, now)
    ensures UsersMade(PasswdFile, token, agent, before, now)
  {
    var c := StartUp(encryptSecrets, token);
    StartUpValid(encryptSecrets, token);
    StartUpHas(encryptSecrets, token);
    hide StartUp, Through, ValidConfig, Agreed, PairKept, FilledOnce, Kept, UsersMade;
    PairsKept(c, agent, before, now, ClientCA, ClientCAKey);
    PairsKept(c, agent, before, now, ServerCA, ServerCAKey);
    PairsKept(c, agent, before, now, RequestHeaderCA, RequestHeaderCAKey);
    PairsKept(c, agent, before, now, ETCDServerCA, ETCDServerCAKey);
    PairsKept(c, agent, before, now, ETCDPeerCA, ETCDPeerCAKey);
    OnceKept(c, agent, before, now, ServiceKey);
    FilesFilled(c, agent, before, now, IPSECKey);
    PasswordsEnsured(c, agent, before, now, PasswdFile, token);
    if encryptSecrets {
      FilesFilled(c, agent, before, now, EncryptionConfig);
    } else {
      forall i | 0 <= i < |c|
        ensures Fields(c[i]) !! {EncryptionConfig}
      {
        NoEncryption(token, i);
      }
      Untouched(c, agent, before, now, {EncryptionConfig});
    }
  }
}
