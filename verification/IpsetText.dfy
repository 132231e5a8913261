/** The text that `ipset save` prints and `ipset restore` reads. */
module IpsetText {
  import opened Basics
  import opened Text

  datatype SavedSet = SavedSet(options: seq<string>, entries: seq<seq<string>>)

  type SavedSets = map<string, SavedSet>

  const CREATE := "create"
  const ADD := "add"

  function ReadWords(sets: SavedSets, words: seq<string>): Option<SavedSets>
    requires words != []
  {
    if words[0] == CREATE then
      if |words| < 2 then None else Some(sets[words[1] := SavedSet(words[2..], [])])
    else if words[0] == ADD then
      if |words| < 2 || words[1] !in sets then None
      else Some(sets[words[1] := sets[words[1]].(entries := sets[words[1]].entries + [words[2..]])])
    else Some(sets)
  }

  /** One line of a save; nothing when the program would stop on it. */
  function ReadLine(sets: SavedSets, line: string): Option<SavedSets> {
    ReadWords(sets, Split(line, ' '))
  }

  function ReadLines(lines: seq<string>): Option<SavedSets> {
    if lines == [] then Some(map[])
    else
      var before := ReadLines(lines[..|lines| - 1]);
      if before.None? then None else ReadLine(before.value, lines[|lines| - 1])
  }

  /** What a saved text says. */
  function Saved(text: string): Option<SavedSets> {
    ReadLines(Split(text, '\n'))
  }

  lemma {:induction false} StopsHere(lines: seq<string>, i: nat)
    requires i < |lines| && ReadLines(lines[..i + 1]) == None
    ensures ReadLines(lines) == None
    decreases |lines|
  {
    hide ReadLine;
    if i == |lines| - 1 {
      assert lines[..i + 1] == lines;
    } else {
      var init := lines[..|lines| - 1];
      assert init[..i + 1] == lines[..i + 1];
      StopsHere(init, i);
    }
  }

  method ParseIPSetSave(text: string) returns (r: Option<SavedSets>)
    ensures r == Saved(text)
  {
    var lines := Split(text, '\n');
    var sets: SavedSets := map[];
    for i := 0 to |lines|
      invariant ReadLines(lines[..i]) == Some(sets)
    {
      assert lines[..i + 1][..i] == lines[..i];
      var content := Split(lines[i], ' ');
      if content[0] == CREATE {
        if |content| < 2 {
          StopsHere(lines, i);
          return None;
        }
        sets := sets[content[1] := SavedSet(content[2..], [])];
      } else if content[0] == ADD {
        if |content| < 2 || content[1] !in sets {
          StopsHere(lines, i);
          return None;
        }
        var found := sets[content[1]];
        sets := sets[content[1] := SavedSet(found.options, found.entries + [content[2..]])];
      }
    }
    assert lines[..|lines|] == lines;
    r := Some(sets);
  }

  /** A word that keeps its place in the text. */
  predicate Plain(s: string) {
    ' ' !in s && '\n' !in s
  }

  predicate AllPlain(words: seq<string>) {
    forall i :: 0 <= i < |words| ==> Plain(words[i])
  }

  ghost predicate PlainSet(name: string, s: SavedSet) {
    Plain(name) && AllPlain(s.options) && forall i :: 0 <= i < |s.entries| ==> AllPlain(s.entries[i])
  }

  /** An empty list of options is written like one empty option. */
  function Padded(options: seq<string>): seq<string> {
    if options == [] then [""] else options
  }

  function PaddedSet(s: SavedSet): SavedSet {
    SavedSet(Padded(s.options), seq(|s.entries|, i requires 0 <= i < |s.entries| => Padded(s.entries[i])))
  }

  function LineFor(word: string, name: string, options: seq<string>): string {
    word + " " + name + " " + Join(options, ' ')
  }

  lemma PaddedPlain(word: string, name: string, options: seq<string>)
    requires Plain(word) && Plain(name) && AllPlain(options)
    ensures AllPlain([word, name] + Padded(options))
    ensures forall w :: w in [word, name] + Padded(options) ==> ' ' !in w && '\n' !in w
  {
  }

  lemma JoinTwo(a: string, b: string, rest: seq<string>)
    requires rest != []
    ensures Join([a, b] + rest, ' ') == a + " " + b + " " + Join(rest, ' ')
  {
    var words := [a, b] + rest;
    assert words[1..] == [b] + rest && words[1..][1..] == rest;
    assert Join(words[1..], ' ') == b + " " + Join(rest, ' ');
    assert Join(words, ' ') == a + " " + (b + " " + Join(rest, ' '));
  }

  lemma PaddedJoin(options: seq<string>)
    ensures Join(Padded(options), ' ') == Join(options, ' ')
  {
  }

  lemma LineWords(word: string, name: string, options: seq<string>)
    requires Plain(word) && Plain(name) && AllPlain(options)
    ensures Split(LineFor(word, name, options), ' ') == [word, name] + Padded(options)
    ensures '\n' !in LineFor(word, name, options)
  {
    hide Split, Plain;
    var words := [word, name] + Padded(options);
    PaddedJoin(options);
    JoinTwo(word, name, Padded(options));
    assert forall i :: 0 <= i < |words| ==> ' ' !in words[i] && '\n' !in words[i] by {
      PaddedPlain(word, name, options);
    }
    SplitJoin(words, ' ');
    JoinAvoids(words, ' ', '\n');
  }

  /** A text of whole lines, and what they say. */
  ghost predicate Says(text: string, lines: seq<string>, sets: SavedSets) {
    Split(text, '\n') == lines + [""] && ReadLines(lines) == Some(sets)
  }

  lemma LineAppended(text: string, lines: seq<string>, sets: SavedSets, word: string, name: string,
                     options: seq<string>, now: SavedSets)
    requires Says(text, lines, sets) && Plain(word) && Plain(name) && AllPlain(options)
    requires ReadWords(sets, [word, name] + Padded(options)) == Some(now)
    ensures Says(text + LineFor(word, name, options) + "\n", lines + [LineFor(word, name, options)], now)
  {
    hide Split, ReadWords, LineFor;
    var line := LineFor(word, name, options);
    LineWords(word, name, options);
    SplitSnoc(text, lines, line, '\n');
    assert (lines + [line])[..|lines|] == lines;
  }

  lemma WholeText(text: string, lines: seq<string>, sets: SavedSets)
    requires Says(text, lines, sets)
    ensures Saved(text) == Some(sets)
  {
    SplitWhole("", ' ');
    assert (lines + [""])[..|lines|] == lines;
  }

  lemma CreateRead(sets: SavedSets, name: string, options: seq<string>)
    ensures ReadWords(sets, [CREATE, name] + options) == Some(sets[name := SavedSet(options, [])]) && Plain(CREATE)
  {
    assert ([CREATE, name] + options)[2..] == options;
  }

  lemma AddRead(sets: SavedSets, name: string, options: seq<string>)
    requires name in sets
    ensures ReadWords(sets, [ADD, name] + options) ==
              Some(sets[name := SavedSet(sets[name].options, sets[name].entries + [options])]) && Plain(ADD)
  {
    assert ([ADD, name] + options)[2..] == options;
  }

  function CreateLine(name: string, options: seq<string>): string {
    "create " + name + " " + Join(options, ' ') + "\n"
  }

  function AddLine(name: string, options: seq<string>): string {
    "add " + name + " " + Join(options, ' ') + "\n"
  }

  lemma LineTexts(name: string, options: seq<string>)
    ensures LineFor(CREATE, name, options) + "\n" == CreateLine(name, options)
    ensures LineFor(ADD, name, options) + "\n" == AddLine(name, options)
  {
    assert CREATE + " " == "create " && ADD + " " == "add ";
  }

  lemma UnknownStops(name: string, entry: seq<string>)
    requires Plain(name) && AllPlain(entry)
    ensures Saved(AddLine(name, entry)) == None
  {
    hide Padded, Split, LineFor;
    var line := LineFor(ADD, name, entry);
    LineTexts(name, entry);
    LineWords(ADD, name, entry);
    SplitConcat(line, "", '\n');
    assert line + "\n" + "" == line + "\n";
    var lines := [line] + Split("", '\n');
    assert lines[..1] == [line] && [line][..0] == [];
    assert ReadLines([line]) == None;
    StopsHere(lines, 0);
  }

  lemma EmptySays()
    ensures Says("", [], map[])
  {
    SplitWhole("", '\n');
    assert [] + [""] == [""];
  }

  /** What is read from a line that creates a set and one that adds to it; alone, the second stops the program. */
  lemma SavedLines(name: string, options: seq<string>, entry: seq<string>)
    requires Plain(name) && AllPlain(options) && AllPlain(entry)
    ensures Saved(CreateLine(name, options)) == Some(map[name := SavedSet(Padded(options), [])])
    ensures Saved(CreateLine(name, options) + AddLine(name, entry)) ==
            Some(map[name := SavedSet(Padded(options), [Padded(entry)])])
    ensures Saved(AddLine(name, entry)) == None
  {
    hide Says, Padded, LineFor, Split, Saved;
    var sets: SavedSets := map[];
    var one, two := sets[name := SavedSet(Padded(options), [])],
      sets[name := SavedSet(Padded(options), [Padded(entry)])];
    LineTexts(name, options);
    LineTexts(name, entry);
    var line := LineFor(CREATE, name, options);
    EmptySays();
    CreateRead(sets, name, Padded(options));
    LineAppended("", [], sets, CREATE, name, options, one);
    assert "" + line + "\n" == CreateLine(name, options);
    assert [] + [line] == [line];
    WholeText(CreateLine(name, options), [line], one);
    AddRead(one, name, Padded(entry));
    assert [] + [Padded(entry)] == [Padded(entry)];
    assert one[name := two[name]] == two;
    LineAppended(CreateLine(name, options), [line], one, ADD, name, entry, two);
    assert CreateLine(name, options) + LineFor(ADD, name, entry) + "\n" ==
      CreateLine(name, options) + (LineFor(ADD, name, entry) + "\n");
    WholeText(CreateLine(name, options) + AddLine(name, entry), [line] + [LineFor(ADD, name, entry)], two);
    UnknownStops(name, entry);
  }

  /** The lines of one set. */
  method BuildSet(text: string, name: string, s: SavedSet, ghost lines: seq<string>, ghost sets: SavedSets)
    returns (r: string, ghost lines': seq<string>)
    requires Says(text, lines, sets) && PlainSet(name, s)
    ensures Says(r, lines', sets[name := PaddedSet(s)])
  {
    hide Says, ReadWords, LineFor, Plain;
    CreateRead(sets, name, Padded(s.options));
    ghost var now := sets[name := SavedSet(Padded(s.options), [])];
    LineAppended(text, lines, sets, CREATE, name, s.options, now);
    r, lines' := text + LineFor(CREATE, name, s.options) + "\n", lines + [LineFor(CREATE, name, s.options)];
    for i := 0 to |s.entries|
      invariant now == sets[name := SavedSet(Padded(s.options), PaddedSet(s).entries[..i])]
      invariant Says(r, lines', now)
    {
      AddRead(now, name, Padded(s.entries[i]));
      ghost var next := now[name := SavedSet(now[name].options, now[name].entries + [Padded(s.entries[i])])];
      LineAppended(r, lines', now, ADD, name, s.entries[i], next);
      r, lines' := r + LineFor(ADD, name, s.entries[i]) + "\n", lines' + [LineFor(ADD, name, s.entries[i])];
      assert PaddedSet(s).entries[..i + 1] == PaddedSet(s).entries[..i] + [Padded(s.entries[i])];
      now := next;
    }
    assert PaddedSet(s).entries[..|s.entries|] == PaddedSet(s).entries;
  }

  ghost predicate NonEmptyOptions(s: SavedSet) {
    s.options != [] && forall i :: 0 <= i < |s.entries| ==> s.entries[i] != []
  }

  lemma PaddedExactly(s: SavedSet)
    ensures PaddedSet(s) == s <==> NonEmptyOptions(s)
  {
    var p := PaddedSet(s);
    if NonEmptyOptions(s) {
      assert p.entries == s.entries;
    } else if s.options != [] {
      var i :| 0 <= i < |s.entries| && s.entries[i] == [];
      assert p.entries[i] != s.entries[i];
    }
  }

  /** Parsing gives back the sets, whatever the order, if and only if no list of options is empty. */
  lemma RoundTripExactly(sets: SavedSets, text: string)
    requires Saved(text) == Some(map n | n in sets :: PaddedSet(sets[n]))
    ensures Saved(text) == Some(sets) <==> forall n :: n in sets ==> NonEmptyOptions(sets[n])
  {
    hide PaddedSet, NonEmptyOptions, Saved;
    var padded := map n | n in sets :: PaddedSet(sets[n]);
    forall n | n in sets
      ensures padded[n] == sets[n] <==> NonEmptyOptions(sets[n])
    {
      PaddedExactly(sets[n]);
    }
    if forall n :: n in sets ==> NonEmptyOptions(sets[n]) {
      assert padded == sets;
    }
  }

  /** The restore text of a collection of sets, in any order: what it says is the collection, padded. */
  method BuildIPSetRestore(sets: SavedSets) returns (text: string)
    requires forall n :: n in sets ==> PlainSet(n, sets[n])
    ensures Saved(text) == Some(map n | n in sets :: PaddedSet(sets[n]))
    ensures Saved(text) == Some(sets) <==> forall n :: n in sets ==> NonEmptyOptions(sets[n])
  {
    hide PlainSet, PaddedSet, Says, NonEmptyOptions, Saved;
    text := "";
    var todo := sets.Keys;
    ghost var lines, done: SavedSets := [], map[];
    EmptySays();
    while todo != {}
      invariant todo <= sets.Keys && done == map n | n in sets && n !in todo :: PaddedSet(sets[n])
      invariant Says(text, lines, done)
      decreases todo
    {
      var name :| name in todo;
      text, lines := BuildSet(text, name, sets[name], lines, done);
      done, todo := done[name := PaddedSet(sets[name])], todo - {name};
    }
    assert done == map n | n in sets :: PaddedSet(sets[n]);
    WholeText(text, lines, done);
    RoundTripExactly(sets, text);
  }
}
