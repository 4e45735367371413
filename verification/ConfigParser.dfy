/** lib/configparser/configparser.go: sections and configurations as the source keeps them, Read and Save. */
module ConfigParser {
  import opened Words
  import opened ConfigText
  import opened ConfigSections
  import opened ConfigRoundTrip

  class Section {
    const fqn: string
    var options: map<string, string>
    var orderedOptions: seq<string>

    ghost function Value(): Sect
      reads this
    {
      Sect(fqn, options, orderedOptions)
    }

    constructor (fqn: string)
      ensures this.fqn == fqn && Value() == NewSect(fqn)
    {
      this.fqn := fqn;
      options, orderedOptions := map[], [];
    }

    /** addOption: a repeated key is listed again. */
    method AddOption(line: string)
      modifies this
      ensures Value() == old(Value()).With(ParseOption(line).0, ParseOption(line).1)
    {
      var (key, value) := ParseOption(line);
      options := options[key := value];
      orderedOptions := orderedOptions + [key];
    }

    /** Add: a repeated key keeps its place. */
    method Add(option: string, value: string) returns (oldValue: string)
      modifies this
      ensures oldValue == old(Value()).ValueOf(option) && Value().ValueOf(option) == value
      ensures Value() == if option in old(options) then old(Value()).(options := old(options)[option := value])
                         else old(Value()).With(option, value)
    {
      oldValue := "";
      if option in options {
        oldValue := options[option];
      } else {
        orderedOptions := orderedOptions + [option];
      }
      options := options[option := value];
    }

    /** How String prints one option. */
    method PrintOption(i: nat) returns (line: string)
      requires i < |orderedOptions|
      ensures line == OptionLine(Value(), i)
    {
      var opt := orderedOptions[i];
      line := opt;
      if opt in options && options[opt] != "" {
        line := opt + "=" + options[opt];
      }
    }

    /** String */
    method String() returns (text: string)
      ensures text == Unlines(SectionLines(Value()))
    {
      ghost var head := HeaderLines(fqn);
      text := "[" + fqn + "]\n";
      if fqn == "global" {
        text := "";
      }
      HeaderPrinted(fqn);
      for i := 0 to |orderedOptions|
        invariant text == Unlines(head + OptionLines(Value(), i))
      {
        OptionPrinted(head, Value(), i);
        var line := PrintOption(i);
        text := text + line + "\n";
      }
    }
  }

  lemma HeaderPrinted(fqn: string)
    ensures Unlines(HeaderLines(fqn) + []) == if fqn == "global" then "" else "[" + fqn + "]\n"
  {
    if fqn != "global" {
      assert HeaderLines(fqn)[1..] == [];
      assert HeaderText(fqn) + "\n" == "[" + fqn + "]\n";
    }
    assert HeaderLines(fqn) + [] == HeaderLines(fqn);
  }

  lemma UnlinesMore(ls: seq<string>, line: string)
    ensures Unlines(ls + [line]) == Unlines(ls) + line + "\n"
  {
    UnlinesAppend(ls, [line]);
    assert [line][1..] == [];
  }

  lemma OptionPrinted(head: seq<string>, s: Sect, i: nat)
    requires i < |s.order|
    ensures Unlines(head + OptionLines(s, i + 1)) == Unlines(head + OptionLines(s, i)) + OptionLine(s, i) + "\n"
  {
    assert head + OptionLines(s, i + 1) == (head + OptionLines(s, i)) + [OptionLine(s, i)];
    UnlinesMore(head + OptionLines(s, i), OptionLine(s, i));
  }

  // ----- lists of sections and lists of their values -----

  const NAME: Section -> string := (s: Section) => s.fqn

  ghost function ValuesOf(ss: seq<Section>): (vs: seq<Sect>)
    reads ss
    ensures |vs| == |ss| && forall i :: 0 <= i < |ss| ==> vs[i] == ss[i].Value()
  {
    seq(|ss|, i requires 0 <= i < |ss| reads ss => ss[i].Value())
  }

  lemma {:induction false} NamesOfValues(ss: seq<Section>)
    ensures Names(ValuesOf(ss), FQN) == Names(ss, NAME)
  {
    if ss != [] {
      NamesOfValues(ss[..|ss| - 1]);
      assert ValuesOf(ss)[..|ss| - 1] == ValuesOf(ss[..|ss| - 1]);
    }
  }

  lemma {:induction false} FilterOfValues(ss: seq<Section>, n: string)
    ensures Filter(ValuesOf(ss), FQN, n) == ValuesOf(Filter(ss, NAME, n))
  {
    if ss != [] {
      FilterOfValues(ss[..|ss| - 1], n);
      assert ValuesOf(ss)[..|ss| - 1] == ValuesOf(ss[..|ss| - 1]);
    }
  }

  lemma {:induction false} GroupByOfValues(names: seq<string>, ss: seq<Section>)
    ensures GroupBy(names, ValuesOf(ss), FQN) == ValuesOf(GroupBy(names, ss, NAME))
  {
    if names != [] {
      GroupByOfValues(names[..|names| - 1], ss);
      FilterOfValues(ss, names[|names| - 1]);
    }
  }

  lemma GroupedOfValues(ss: seq<Section>)
    ensures Grouped(ValuesOf(ss), FQN) == ValuesOf(Grouped(ss, NAME))
  {
    NamesOfValues(ss);
    GroupByOfValues(Names(ss, NAME), ss);
  }

  /** Every section is listed under its name, in the order of `added`; the order list has each name once. */
  ghost predicate Indexed(sections: map<string, seq<Section>>, order: seq<string>, added: seq<Section>) {
    && order == Names(added, NAME)
    && (forall n :: n in sections <==> n in order)
    && (forall n :: n in sections ==> sections[n] == Filter(added, NAME, n))
  }

  lemma IndexedOld(sections: map<string, seq<Section>>, order: seq<string>, added: seq<Section>, s: Section)
    requires Indexed(sections, order, added) && s.fqn in sections
    ensures Indexed(sections[s.fqn := sections[s.fqn] + [s]], order, added + [s])
  {
    NamesMore(added, s, NAME);
    var sections' := sections[s.fqn := sections[s.fqn] + [s]];
    forall n | n in sections'
      ensures sections'[n] == Filter(added + [s], NAME, n)
    {
      FilterMore(added, s, NAME, n);
    }
  }

  lemma IndexedNew(sections: map<string, seq<Section>>, order: seq<string>, added: seq<Section>, s: Section)
    requires Indexed(sections, order, added) && s.fqn !in sections
    ensures Indexed(sections[s.fqn := [s]], order + [s.fqn], added + [s])
  {
    NamesMore(added, s, NAME);
    var sections' := sections[s.fqn := [s]];
    forall n | n in sections'
      ensures sections'[n] == Filter(added + [s], NAME, n)
    {
      if n == s.fqn {
        NewGroup(added, s, NAME);
      } else {
        FilterMore(added, s, NAME, n);
      }
    }
  }

  predicate NoneTwice<T(==)>(s: seq<T>) {
    forall i, j :: 0 <= i < j < |s| ==> s[i] != s[j]
  }

  lemma NoneTwiceMore<T>(s: seq<T>, x: T)
    requires NoneTwice(s) && x !in s
    ensures NoneTwice(s + [x])
  {
  }

  class Configuration {
    var sections: map<string, seq<Section>>
    var orderedSections: seq<string>
    /** All sections, in the order they were added. */
    ghost var added: seq<Section>

    ghost predicate Valid()
      reads this
    {
      && Indexed(sections, orderedSections, added)
      && NoneTwice(added)
    }

    /** The sections as values, in AllSections order. */
    ghost function Value(): seq<Sect>
      reads this, added
    {
      Grouped(ValuesOf(added), FQN)
    }

    constructor ()
      ensures Valid() && added == []
    {
      sections, orderedSections, added := map[], [], [];
    }

    /** addSection: a list per name, and each name once in the order list. */
    method AddSection(fqn: string) returns (section: Section)
      requires Valid()
      modifies this
      ensures Valid() && fresh(section) && section.Value() == NewSect(fqn) && added == old(added) + [section]
    {
      section := new Section(fqn);
      NoneTwiceMore(added, section);
      added := added + [section];
      if fqn in sections {
        IndexedOld(sections, orderedSections, old(added), section);
        sections := sections[fqn := sections[fqn] + [section]];
        return;
      }
      IndexedNew(sections, orderedSections, old(added), section);
      sections := sections[fqn := [section]];
      orderedSections := orderedSections + [fqn];
    }

    /** Sections: all of them for the empty name, otherwise those of that name, if there are any. */
    method Sections(fqn: string) returns (ss: seq<Section>, found: bool)
      requires Valid()
      ensures fqn == "" ==> found && ss == Grouped(added, NAME)
      ensures fqn != "" ==> ss == Filter(added, NAME, fqn) && (found <==> ss != [])
    {
      ss := [];
      if fqn == "" {
        for i := 0 to |orderedSections|
          invariant ss == GroupBy(orderedSections[..i], added, NAME)
        {
          GroupByStep(orderedSections, i, added);
          ss := ss + sections[orderedSections[i]];
        }
        Whole(orderedSections);
        return ss, true;
      }
      if fqn in sections {
        FilterSome(added, fqn);
        return sections[fqn], true;
      }
      FilterNone(added, NAME, fqn);
      return [], false;
    }

    /** The printing of Save. */
    method Save() returns (text: string)
      requires Valid()
      ensures text == SaveText(Value())
    {
      var ss, found := Sections("");
      GroupedOfValues(added);
      text := Print(ss);
    }
  }

  method Print(ss: seq<Section>) returns (text: string)
    ensures text == SaveText(ValuesOf(ss))
  {
    ghost var vs := ValuesOf(ss);
    text := "";
    for i := 0 to |ss|
      invariant text == Unlines(SaveLines(vs[..i]))
    {
      var part := ss[i].String();
      assert vs[i] == ss[i].Value();
      SectionSaved(vs, i, text, part);
      text := text + part + "\n";
    }
    Whole(vs);
  }

  lemma GroupByStep(names: seq<string>, i: nat, ss: seq<Section>)
    requires i < |names|
    ensures GroupBy(names[..i + 1], ss, NAME) == GroupBy(names[..i], ss, NAME) + Filter(ss, NAME, names[i])
  {
    assert names[..i + 1][..i] == names[..i];
  }

  lemma {:induction false} FilterSome(ss: seq<Section>, n: string)
    requires n in Names(ss, NAME)
    ensures Filter(ss, NAME, n) != []
  {
    if n in Names(ss[..|ss| - 1], NAME) {
      FilterSome(ss[..|ss| - 1], n);
    }
  }

  lemma SectionSaved(vs: seq<Sect>, i: nat, text: string, part: string)
    requires i < |vs| && text == Unlines(SaveLines(vs[..i])) && part == Unlines(SectionLines(vs[i]))
    ensures text + part + "\n" == Unlines(SaveLines(vs[..i + 1]))
  {
    SaveLinesStep(vs, i);
    UnlinesAppend(SaveLines(vs[..i]), SectionLines(vs[i]) + [""]);
    UnlinesMore(SectionLines(vs[i]), "");
    assert part + "" == part && text + (part + "\n") == text + part + "\n";
  }

  // ----- Read -----

  /** One option for the section that was added last. */
  method TakeOption(c: Configuration, active: Section, line: string)
    requires c.Valid() && IsLast(active, c.added) && Classify(line).Opt?
    modifies active
    ensures c.Valid() && ValuesOf(c.added) == Take(old(ValuesOf(c.added)), Classify(line))
  {
    active.AddOption(line);
  }

  /** One new section. */
  method TakeHeader(c: Configuration, name: string) returns (active: Section)
    requires c.Valid()
    modifies c
    ensures c.Valid() && fresh(active) && c.added == old(c.added) + [active]
    ensures ValuesOf(c.added) == old(ValuesOf(c.added)) + [NewSect(name)]
  {
    active := c.AddSection(name);
  }

  predicate IsLast<T(==)>(x: T, s: seq<T>) {
    s != [] && x == s[|s| - 1]
  }

  /** The loop of Read, on the lines the scanner delivers: options go to the section added last. */
  method ReadLines(lines: seq<string>) returns (c: Configuration)
    ensures fresh(c) && c.Valid() && ValuesOf(c.added) == ReadFlat(lines)
  {
    c := new Configuration();
    var active := TakeHeader(c, "global");
    for i := 0 to |lines|
      invariant fresh(c) && fresh(active) && c.Valid() && IsLast(active, c.added)
      invariant ValuesOf(c.added) == ReadFlat(lines[..i])
    {
      ReadFlatStep(lines, i);
      active := ReadLine(c, active, lines[i]);
    }
    Whole(lines);
  }

  lemma ReadFlatStep(lines: seq<string>, i: nat)
    requires i < |lines|
    ensures ReadFlat(lines[..i + 1]) == Take(ReadFlat(lines[..i]), Classify(lines[i]))
  {
    assert lines[..i + 1][..i] == lines[..i];
  }

  /** One turn of the loop of Read. */
  method ReadLine(c: Configuration, active0: Section, line: string) returns (active: Section)
    requires c.Valid() && IsLast(active0, c.added)
    modifies c, active0
    ensures c.Valid() && IsLast(active, c.added)
    ensures active == active0 || fresh(active)
    ensures ValuesOf(c.added) == Take(old(ValuesOf(c.added)), Classify(line))
  {
    active := active0;
    if line == "" || line[0] in COMMENT {
      return;
    }
    if line[0] == '[' {
      active := TakeHeader(c, Trim(line, BRACKETS));
      return;
    }
    TakeOption(c, active, line);
  }

  /** Read: null stands for the scanner's error. */
  method Read(text: string) returns (c: Configuration?)
    ensures c == null <==> ReadText(text) == None
    ensures c != null ==> fresh(c) && c.Valid() && ReadText(text) == Some(c.Value())
  {
    var lines := Scan(text);
    if lines.None? {
      return null;
    }
    c := ReadLines(lines.value);
  }

  /** Saving and reading back gives the same sections exactly when the configuration is well formed. */
  method SaveAndRead(c: Configuration) returns (again: Configuration?)
    requires c.Valid()
    ensures again != null ==> again.Valid() && fresh(again)
    ensures again != null && again.Value() == c.Value() <==> WellFormed(c.Value())
  {
    var text := c.Save();
    again := Read(text);
    SaveThenRead(ValuesOf(c.added));
  }
}
