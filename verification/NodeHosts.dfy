/** The hosts text that the node controller keeps for CoreDNS. */
module NodeHosts {
  import opened Basics
  import opened Text

  /** White space, as the Unicode property has it. */
  predicate IsSpace(c: char) {
    var n := c as int;
    || 9 <= n <= 13 || n == 0x20 || n == 0x85 || n == 0xA0 || n == 0x1680 || 0x2000 <= n <= 0x200A
    || n == 0x2028 || n == 0x2029 || n == 0x202F || n == 0x205F || n == 0x3000
  }

  /** A word: not empty and free of white space. */
  predicate IsWord(s: string) {
    s != "" && forall i :: 0 <= i < |s| ==> !IsSpace(s[i])
  }

  /** The longest prefix free of white space. */
  function Word(s: string): (w: string)
    ensures w <= s && forall i :: 0 <= i < |w| ==> !IsSpace(w[i])
    ensures |w| < |s| ==> IsSpace(s[|w|])
  {
    if s == "" || IsSpace(s[0]) then "" else [s[0]] + Word(s[1..])
  }

  /** The words of a line. */
  function Fields(s: string): (words: seq<string>)
    ensures forall i :: 0 <= i < |words| ==> IsWord(words[i])
    decreases |s|
  {
    if s == "" then []
    else if IsSpace(s[0]) then Fields(s[1..])
    else
      var w := Word(s);
      assert w[0] == s[0];
      [w] + Fields(s[|w|..])
  }

  lemma {:induction false} WordConcat(w: string, rest: string)
    requires (forall i :: 0 <= i < |w| ==> !IsSpace(w[i])) && (rest != "" ==> IsSpace(rest[0]))
    ensures Word(w + rest) == w
  {
    if w == "" {
      assert w + rest == rest;
    } else {
      WordConcat(w[1..], rest);
      assert (w + rest)[1..] == w[1..] + rest;
    }
  }

  lemma FieldsConcat(w: string, rest: string)
    requires IsWord(w) && (rest != "" ==> IsSpace(rest[0]))
    ensures Fields(w + rest) == [w] + Fields(rest)
  {
    WordConcat(w, rest);
    assert (w + rest)[0] == w[0] && (w + rest)[|w|..] == rest;
  }

  datatype Entry = Entry(ip: string, host: string)

  function EntryOf(line: string): Option<Entry> {
    var words := Fields(line);
    if |words| == 2 then Some(Entry(words[0], words[1])) else None
  }

  function LineFor(ip: string, host: string): string {
    ip + " " + host
  }

  lemma LineRead(ip: string, host: string)
    requires IsWord(ip) && IsWord(host)
    ensures EntryOf(LineFor(ip, host)) == Some(Entry(ip, host)) && '\n' !in LineFor(ip, host)
  {
    var tail := " " + host;
    FieldsConcat(ip, tail);
    FieldsConcat(host, "");
    assert host + "" == host && tail[1..] == host && LineFor(ip, host) == ip + tail;
    assert Fields(tail) == Fields(host) == [host];
    assert IsSpace('\n');
  }

  /** A line counts exactly when it has two words: the address and then the host. */
  lemma LineExactly(line: string, ip: string, host: string)
    ensures EntryOf(line) == Some(Entry(ip, host)) <==> Fields(line) == [ip, host]
    ensures EntryOf(line).None? <==> |Fields(line)| != 2
  {
  }

  lemma {:induction false} SkipsSpace(gap: string, rest: string)
    requires forall i :: 0 <= i < |gap| ==> gap[i] in " \t\r"
    ensures Fields(gap + rest) == Fields(rest)
  {
    if gap == "" {
      assert gap + rest == rest;
    } else {
      assert gap[0] in " \t\r";
      assert (gap + rest)[0] == gap[0] && (gap + rest)[1..] == gap[1..] + rest;
      SkipsSpace(gap[1..], rest);
    }
  }

  /** The words may be set apart by any spaces and tabs. */
  lemma SpacesSeparate(ip: string, host: string, gap: string, end: string)
    requires IsWord(ip) && IsWord(host) && gap != ""
    requires (forall i :: 0 <= i < |gap| ==> gap[i] in " \t") && forall i :: 0 <= i < |end| ==> end[i] in " \t\r"
    ensures EntryOf(ip + gap + host + end) == Some(Entry(ip, host))
  {
    SkipsSpace(gap, host + end);
    SkipsSpace(end, "");
    assert gap[0] in " \t" && (end != "" ==> end[0] in " \t\r");
    FieldsConcat(host, end);
    FieldsConcat(ip, gap + (host + end));
    assert ip + gap + host + end == ip + (gap + (host + end)) && end + "" == end;
  }

  type Hosts = map<string, string>

  /** What a list of lines says about hosts; the last line for a host counts. */
  function HostsIn(lines: seq<string>): Hosts {
    if lines == [] then map[]
    else
      var m, e := HostsIn(lines[..|lines| - 1]), EntryOf(lines[|lines| - 1]);
      if e.Some? then m[e.value.host := e.value.ip] else m
  }

  function Denotes(text: string): Hosts {
    HostsIn(Split(text, '\n'))
  }

  /** No host has two lines. */
  ghost predicate NoRepeatedHost(lines: seq<string>) {
    forall i, j :: 0 <= i < j < |lines| && EntryOf(lines[i]).Some? && EntryOf(lines[j]).Some? ==>
      EntryOf(lines[i]).value.host != EntryOf(lines[j]).value.host
  }

  ghost predicate HasLine(lines: seq<string>, ip: string, host: string) {
    exists i :: 0 <= i < |lines| && EntryOf(lines[i]) == Some(Entry(ip, host))
  }

  ghost predicate NoneAfter(lines: seq<string>, i: int, host: string) {
    forall j :: 0 <= i < j < |lines| && EntryOf(lines[j]).Some? ==> EntryOf(lines[j]).value.host != host
  }

  /** The last line for a host says this address. */
  ghost predicate LastIs(lines: seq<string>, ip: string, host: string) {
    exists i :: 0 <= i < |lines| && EntryOf(lines[i]) == Some(Entry(ip, host)) && NoneAfter(lines, i, host)
  }

  /** The lines say of a host what its last line says. */
  lemma {:induction false} LastCounts(lines: seq<string>, ip: string, host: string)
    ensures host in HostsIn(lines) && HostsIn(lines)[host] == ip <==> LastIs(lines, ip, host)
  {
    hide EntryOf;
    if lines != [] {
      var n := |lines| - 1;
      var init, e := lines[..n], EntryOf(lines[n]);
      LastCounts(init, ip, host);
      if e.Some? && e.value.host == host {
        assert NoneAfter(lines, n, host);
      } else {
        if LastIs(init, ip, host) {
          var i :| 0 <= i < n && EntryOf(init[i]) == Some(Entry(ip, host)) && NoneAfter(init, i, host);
          assert forall j :: i < j < n ==> init[j] == lines[j];
          assert NoneAfter(lines, i, host);
        }
        if LastIs(lines, ip, host) {
          var i :| 0 <= i < |lines| && EntryOf(lines[i]) == Some(Entry(ip, host)) && NoneAfter(lines, i, host);
          assert init[i] == lines[i] && NoneAfter(init, i, host);
        }
      }
    }
  }

  ghost predicate AllWords(m: Hosts) {
    forall h :: h in m ==> IsWord(h) && IsWord(m[h])
  }

  lemma {:induction false} HostsInWords(lines: seq<string>)
    ensures AllWords(HostsIn(lines))
  {
    if lines != [] {
      HostsInWords(lines[..|lines| - 1]);
    }
  }

  lemma {:induction false} HostsInLines(lines: seq<string>, host: string)
    ensures host in HostsIn(lines) ==> HasLine(lines, HostsIn(lines)[host], host)
    ensures forall i :: 0 <= i < |lines| && EntryOf(lines[i]).Some? && EntryOf(lines[i]).value.host == host ==>
              host in HostsIn(lines)
  {
    hide EntryOf;
    if lines != [] {
      var init := lines[..|lines| - 1];
      HostsInLines(init, host);
      assert forall i :: 0 <= i < |init| ==> init[i] == lines[i];
    }
  }

  /** Without repeats, a host's only line is what counts. */
  lemma UniqueLine(lines: seq<string>, ip: string, host: string)
    requires NoRepeatedHost(lines) && HasLine(lines, ip, host)
    ensures host in HostsIn(lines) && HostsIn(lines)[host] == ip
  {
    hide EntryOf;
    HostsInLines(lines, host);
    var i :| 0 <= i < |lines| && EntryOf(lines[i]) == Some(Entry(ip, host));
    assert host in HostsIn(lines);
    var j :| 0 <= j < |lines| && EntryOf(lines[j]) == Some(Entry(HostsIn(lines)[host], host));
  }

  lemma EmptyLine(lines: seq<string>)
    ensures HostsIn(lines + [""]) == HostsIn(lines)
    ensures NoRepeatedHost(lines) ==> NoRepeatedHost(lines + [""])
  {
    assert (lines + [""])[..|lines|] == lines;
    assert EntryOf("") == None;
  }

  /** A line for a host that has none yet. */
  lemma LineAdded(lines: seq<string>, ip: string, host: string)
    requires NoRepeatedHost(lines) && host !in HostsIn(lines) && IsWord(ip) && IsWord(host)
    ensures HostsIn(lines + [LineFor(ip, host)] + [""]) == HostsIn(lines + [""])[host := ip]
    ensures HostsIn(lines + [LineFor(ip, host)]) == HostsIn(lines)[host := ip]
    ensures NoRepeatedHost(lines + [LineFor(ip, host)])
  {
    var line := LineFor(ip, host);
    LineRead(ip, host);
    HostsInLines(lines, host);
    EmptyLine(lines);
    EmptyLine(lines + [line]);
    hide EntryOf;
    assert (lines + [line])[..|lines|] == lines;
  }

  datatype Address = Address(kind: string, value: string)

  datatype Node = Node(name: string, addresses: seq<Address>)

  const INTERNAL_IP := "InternalIP"

  /** The first internal address, or nothing. */
  function InternalIP(addresses: seq<Address>): string {
    if addresses == [] then ""
    else if addresses[0].kind == INTERNAL_IP then addresses[0].value
    else InternalIP(addresses[1..])
  }

  /** Names and addresses of nodes are words. */
  predicate ValidNode(node: Node) {
    IsWord(node.name) && (InternalIP(node.addresses) != "" ==> IsWord(InternalIP(node.addresses)))
  }

  /** No address before this one is internal. */
  predicate FirstInternal(addresses: seq<Address>, i: nat)
    requires i <= |addresses|
  {
    forall j :: 0 <= j < i ==> addresses[j].kind != "InternalIP"
  }

  lemma {:induction false} FirstInternalFound(addresses: seq<Address>, i: nat)
    requires i < |addresses| && FirstInternal(addresses, i) && addresses[i].kind == "InternalIP"
    ensures InternalIP(addresses) == addresses[i].value
  {
    if i > 0 {
      assert addresses[0].kind != "InternalIP";
      assert forall j :: 0 <= j < |addresses| - 1 ==> addresses[1..][j] == addresses[j + 1];
      FirstInternalFound(addresses[1..], i - 1);
    }
  }

  method FindInternalIP(addresses: seq<Address>) returns (ip: string)
    ensures ip == InternalIP(addresses)
    ensures FirstInternal(addresses, |addresses|) ==> ip == ""
    ensures forall i: nat :: i < |addresses| && FirstInternal(addresses, i) && addresses[i].kind == "InternalIP" ==>
              ip == addresses[i].value
  {
    ip := "";
    var i := 0;
    while i < |addresses|
      invariant 0 <= i <= |addresses| && InternalIP(addresses) == InternalIP(addresses[i..]) && ip == ""
      invariant FirstInternal(addresses, i)
    {
      if addresses[i].kind == INTERNAL_IP {
        return addresses[i].value;
      }
      i := i + 1;
    }
  }

  /** A text of whole lines that says exactly this, with one line for each host. */
  ghost predicate Says(text: string, lines: seq<string>, m: Hosts) {
    Split(text, '\n') == lines + [""] && NoRepeatedHost(lines) && HostsIn(lines) == m
  }

  lemma SaysMore(text: string, lines: seq<string>, m: Hosts, ip: string, host: string)
    requires Says(text, lines, m) && host !in m && IsWord(ip) && IsWord(host)
    ensures Says(text + LineFor(ip, host) + "\n", lines + [LineFor(ip, host)], m[host := ip])
  {
    hide Split, NoRepeatedHost, HostsIn, IsWord, LineFor;
    LineRead(ip, host);
    LineAdded(lines, ip, host);
    SplitSnoc(text, lines, LineFor(ip, host), '\n');
  }

  lemma SaysNothing()
    ensures Says("", [], map[])
  {
    SplitWhole("", '\n');
    assert [] + [""] == [""];
  }

  lemma SaysAll(text: string, lines: seq<string>, m: Hosts)
    requires Says(text, lines, m)
    ensures Denotes(text) == m && NoRepeatedHost(Split(text, '\n'))
  {
    EmptyLine(lines);
  }

  /** Write the hosts out, in any order: the text denotes them, with one line each. */
  method Render(m: Hosts) returns (text: string)
    requires AllWords(m)
    ensures Denotes(text) == m && NoRepeatedHost(Split(text, '\n'))
  {
    hide Says, IsWord, LineFor, Denotes, NoRepeatedHost;
    text := "";
    var todo := m.Keys;
    ghost var lines: seq<string>, done: Hosts := [], map[];
    SaysNothing();
    while todo != {}
      invariant todo <= m.Keys && done == map h | h in m && h !in todo :: m[h]
      invariant Says(text, lines, done)
      decreases todo
    {
      var host :| host in todo;
      SaysMore(text, lines, done, m[host], host);
      lines, done := lines + [LineFor(m[host], host)], done[host := m[host]];
      text := text + LineFor(m[host], host) + "\n";
      todo := todo - {host};
    }
    assert done == m;
    SaysAll(text, lines, m);
  }

  /** What is to become of the hosts when a node changes or goes. */
  function Wanted(m: Hosts, node: Node, removed: bool): Hosts {
    if removed then m - {node.name} else m[node.name := InternalIP(node.addresses)]
  }

  /** The node alone is changed: gone if it is removed, and otherwise with its first internal address. */
  lemma WantedExactly(m: Hosts, node: Node, i: nat)
    requires i < |node.addresses| && FirstInternal(node.addresses, i) && node.addresses[i].kind == "InternalIP"
    ensures forall h :: h != node.name ==>
              forall removed :: (h in Wanted(m, node, removed) <==> h in m) &&
                (h in m ==> Wanted(m, node, removed)[h] == m[h])
    ensures node.name !in Wanted(m, node, true)
    ensures node.name in Wanted(m, node, false) && Wanted(m, node, false)[node.name] == node.addresses[i].value
  {
    FirstInternalFound(node.addresses, i);
  }

  /** From text without repeated hosts, an update has the wanted effect whether or not it returns early. */
  lemma EarlyReturnHarmless(text: string, node: Node)
    requires NoRepeatedHost(Split(text, '\n')) && HasLine(Split(text, '\n'), InternalIP(node.addresses), node.name)
    ensures Denotes(text) == Wanted(Denotes(text), node, false)
  {
    UniqueLine(Split(text, '\n'), InternalIP(node.addresses), node.name);
    var m := Denotes(text);
    assert m[node.name := m[node.name]] == m;
  }

  /** Leaving the text as it is has the wanted effect exactly when the last line for the host is the wanted one. */
  lemma EarlyReturnExactly(text: string, node: Node)
    ensures Denotes(text) == Wanted(Denotes(text), node, false) <==>
            LastIs(Split(text, '\n'), InternalIP(node.addresses), node.name)
  {
    hide Split, HostsIn, LastIs;
    LastCounts(Split(text, '\n'), InternalIP(node.addresses), node.name);
    var m := Denotes(text);
    if node.name in m && m[node.name] == InternalIP(node.addresses) {
      assert m[node.name := m[node.name]] == m;
    } else {
      assert node.name in m[node.name := InternalIP(node.addresses)];
    }
  }

  /** A text with two lines for one host says what the second line says. */
  lemma TwoLines(ip: string, other: string, host: string)
    requires IsWord(ip) && IsWord(other) && IsWord(host)
    ensures var text := LineFor(ip, host) + "\n" + LineFor(other, host);
            HasLine(Split(text, '\n'), ip, host) && Denotes(text) == map[host := other]
  {
    hide EntryOf, LineFor, Split;
    LineRead(ip, host);
    LineRead(other, host);
    var lines := [LineFor(ip, host), LineFor(other, host)];
    SplitConcat(lines[0], lines[1], '\n');
    SplitWhole(lines[1], '\n');
    assert Split(LineFor(ip, host) + "\n" + LineFor(other, host), '\n') == lines;
    assert EntryOf(lines[0]) == Some(Entry(ip, host));
    assert lines[..1] == [lines[0]] && lines[..1][..0] == [];
    assert HostsIn(lines[..1]) == map[host := ip];
    assert HostsIn(lines) == map[host := other];
  }

  /** With a repeated host the early return can be wrong: an earlier line matches and a later one counts. */
  lemma RepeatedHostGoesWrong()
    ensures var text, node := "1 a\n2 a", Node("a", [Address(INTERNAL_IP, "1")]);
            && HasLine(Split(text, '\n'), InternalIP(node.addresses), node.name)
            && Denotes(text) == map["a" := "2"] && Wanted(Denotes(text), node, false) == map["a" := "1"]
  {
    hide HasLine, Denotes, Split;
    assert IsWord("1") && IsWord("2") && IsWord("a");
    assert LineFor("1", "a") == "1 a" && LineFor("2", "a") == "2 a";
    hide IsWord, LineFor;
    TwoLines("1", "2", "a");
    assert "1 a\n2 a" == "1 a" + "\n" + "2 a";
  }

  class Handler {
    var text: string

    constructor (initial: string)
      ensures text == initial
    {
      text := initial;
    }

    /** Read the lines; `same` when one of them says already what a changed node wants. */
    method ReadHosts(node: Node, ip: string, removed: bool) returns (same: bool, m: Hosts)
      ensures same <==> !removed && HasLine(Split(text, '\n'), ip, node.name)
      ensures !same ==> m == if removed then Denotes(text) - {node.name} else Denotes(text)
    {
      hide EntryOf;
      same, m := false, map[];
      var lines := Split(text, '\n');
      for i := 0 to |lines|
        invariant forall j :: 0 <= j < i && !removed ==> EntryOf(lines[j]) != Some(Entry(ip, node.name))
        invariant m == if removed then HostsIn(lines[..i]) - {node.name} else HostsIn(lines[..i])
      {
        assert lines[..i + 1][..i] == lines[..i];
        var e := EntryOf(lines[i]);
        if e.Some? {
          if e.value.host != node.name {
            m := m[e.value.host := e.value.ip];
          } else if !removed {
            if e.value.ip == ip {
              return true, m;
            }
            m := m[e.value.host := e.value.ip];
          }
        }
      }
      assert lines[..|lines|] == lines;
    }

    /** `fetched` and `stored` tell whether reading and updating the config map work. */
    method UpdateHosts(node: Node, removed: bool, fetched: bool, stored: bool)
      requires ValidNode(node)
      modifies this
      ensures InternalIP(node.addresses) == "" || !fetched || !stored ==> text == old(text)
      ensures InternalIP(node.addresses) != "" && fetched && stored ==>
                if !removed && HasLine(Split(old(text), '\n'), InternalIP(node.addresses), node.name)
                  then text == old(text)
                else Denotes(text) == Wanted(Denotes(old(text)), node, removed) && NoRepeatedHost(Split(text, '\n'))
      ensures InternalIP(node.addresses) != "" && fetched && stored ==>
                var lines := Split(old(text), '\n');
                (Denotes(text) == Wanted(Denotes(old(text)), node, removed) <==>
                 removed || !HasLine(lines, InternalIP(node.addresses), node.name)
                 || LastIs(lines, InternalIP(node.addresses), node.name))
    {
      hide Split, HostsIn, EntryOf, IsWord, LastIs;
      EarlyReturnExactly(text, node);
      var ip := FindInternalIP(node.addresses);
      if ip == "" || !fetched {
        return;
      }
      var same, m := ReadHosts(node, ip, removed);
      if same {
        return;
      }
      HostsInWords(Split(text, '\n'));
      if !removed {
        m := m[node.name := ip];
      }
      var rendered := Render(m);
      if stored {
        text := rendered;
      }
    }
  }

  datatype Event = Event(node: Node, removed: bool, fetched: bool, stored: bool)

  predicate Effective(e: Event) {
    e.fetched && e.stored && InternalIP(e.node.addresses) != ""
  }

  function Applied(m: Hosts, events: seq<Event>): Hosts {
    if events == [] then m
    else
      var before, e := Applied(m, events[..|events| - 1]), events[|events| - 1];
      if Effective(e) then Wanted(before, e.node, e.removed) else before
  }

  /** Over every run, from text without repeated hosts, the text denotes the hosts after the same updates. */
  method RunEvents(h: Handler, events: seq<Event>)
    requires NoRepeatedHost(Split(h.text, '\n')) && forall i :: 0 <= i < |events| ==> ValidNode(events[i].node)
    modifies h
    ensures NoRepeatedHost(Split(h.text, '\n')) && Denotes(h.text) == Applied(Denotes(old(h.text)), events)
  {
    hide NoRepeatedHost, Split, HostsIn, EntryOf, ValidNode, Wanted;
    ghost var m := Denotes(h.text);
    for i := 0 to |events|
      invariant NoRepeatedHost(Split(h.text, '\n')) && Denotes(h.text) == Applied(m, events[..i])
    {
      var e := events[i];
      assert events[..i + 1][..i] == events[..i];
      if HasLine(Split(h.text, '\n'), InternalIP(e.node.addresses), e.node.name) {
        EarlyReturnHarmless(h.text, e.node);
      }
      h.UpdateHosts(e.node, e.removed, e.fetched, e.stored);
    }
    assert events[..|events|] == events;
  }
}
