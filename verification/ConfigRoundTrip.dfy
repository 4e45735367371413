/** Saving and reading back a whole configuration of lib/configparser/configparser.go. */
module ConfigRoundTrip {
  import opened Words
  import opened ConfigText
  import opened ConfigSections

  /** What Save writes, given the sections in AllSections order. */
  function SaveText(ss: seq<Sect>): string {
    Unlines(SaveLines(ss))
  }

  /** Saving prints the sections one after the other, an empty line after each. */
  lemma SavedText(ss: seq<Sect>, s: Sect)
    ensures SaveText([]) == "" && SaveText(ss + [s]) == SaveText(ss) + Unlines(SectionLines(s)) + "\n"
  {
    assert (ss + [s])[..|ss|] == ss;
    UnlinesAppend(SaveLines(ss), SectionLines(s) + [""]);
    UnlinesAppend(SectionLines(s), [""]);
    UnlinesCons("", []);
    assert [""] + [] == [""] && "" + "\n" + Unlines([]) == "\n";
    assert Unlines(SaveLines(ss)) + (Unlines(SectionLines(s)) + "\n") == Unlines(SaveLines(ss)) + Unlines(SectionLines(s)) + "\n";
  }

  /** The sections Read makes of a text, in AllSections order; nothing when a line is too long. */
  function ReadText(text: string): Option<seq<Sect>> {
    match Scan(text)
    case None => None
    case Some(ts) => Some(Grouped(ReadFlat(ts), FQN))
  }

  // ----- which configurations survive -----

  predicate Fits(line: string) {
    '\n' !in line && |line| <= MAX_LINE
  }

  predicate GoodName(name: string) {
    name != "global" && Trimmed(name, BRACKETS) && Fits(HeaderText(name))
  }

  predicate GoodSection(s: Sect) {
    GoodOptions(s) && forall i: nat :: i < |s.order| ==> Fits(OptionLine(s, i))
  }

  /**
   * An unnamed "global" section first and nowhere else; trimmed names; options with a value, whose key and value are
   * trimmed and whose key has no '='; options without, whose key has no '=' and no ':'. No line is empty, starts a
   * comment or a header, ends in a carriage return, contains a line feed, or is too long for the scanner.
   */
  predicate WellFormed(ss: seq<Sect>) {
    && ss != [] && ss[0].fqn == "global"
    && (forall i :: 0 < i < |ss| ==> GoodName(ss[i].fqn))
    && (forall i :: 0 <= i < |ss| ==> GoodSection(ss[i]))
  }

  // ----- the lines that are read back -----

  lemma TokensAppend(a: seq<string>, b: seq<string>)
    ensures Tokens(a + b) == Tokens(a) + Tokens(b)
  {
  }

  lemma SaveLinesStep(ss: seq<Sect>, n: nat)
    requires n < |ss|
    ensures SaveLines(ss[..n + 1]) == SaveLines(ss[..n]) + (SectionLines(ss[n]) + [""])
  {
    assert ss[..n + 1][..n] == ss[..n];
  }

  predicate AllReread(ss: seq<Sect>) {
    forall i :: 0 <= i < |ss| ==> AllOptions(Reread(ss[i]))
  }

  function RebuiltAll(ss: seq<Sect>): (rs: seq<Sect>)
    requires AllReread(ss)
    ensures |rs| == |ss| && forall i :: 0 <= i < |ss| ==> rs[i] == Rebuilt(ss[i].fqn, Reread(ss[i]))
  {
    seq(|ss|, i requires 0 <= i < |ss| => Rebuilt(ss[i].fqn, Reread(ss[i])))
  }

  predicate NamesTrimmed(ss: seq<Sect>) {
    forall i :: 0 <= i < |ss| ==> Trimmed(ss[i].fqn, BRACKETS)
  }

  predicate OneGlobal(ss: seq<Sect>) {
    ss != [] && ss[0].fqn == "global" && forall i :: 0 < i < |ss| ==> ss[i].fqn != "global"
  }

  /** The header of a section, read again. */
  lemma ReadHeader(rs: seq<Sect>, s: Sect)
    requires rs != [] && s.fqn != "global" && Trimmed(s.fqn, BRACKETS)
    ensures ReadOn(rs, Tokens(HeaderLines(s.fqn))) == rs + [NewSect(s.fqn)]
  {
    NameSurvives(s.fqn);
    var ts := Tokens(HeaderLines(s.fqn));
    assert ts == [DropCR(HeaderText(s.fqn))] && ts[..0] == [];
  }

  lemma ReadBody(rs: seq<Sect>, s: Sect)
    requires AllOptions(Reread(s))
    ensures ReadOn(rs + [NewSect(s.fqn)], Tokens(OptionLines(s, |s.order|) + [""])) == rs + [Rebuilt(s.fqn, Reread(s))]
  {
    var ts := Tokens(OptionLines(s, |s.order|));
    ReadOptions(rs, s.fqn, ts, Reread(s));
    TokensAppend(OptionLines(s, |s.order|), [""]);
    ReadBlank(rs + [NewSect(s.fqn)], ts);
  }

  lemma ReadBlank(rs: seq<Sect>, ts: seq<string>)
    requires rs != []
    ensures ReadOn(rs, ts + Tokens([""])) == ReadOn(rs, ts)
  {
    assert (ts + Tokens([""]))[..|ts|] == ts;
  }

  lemma ReadSection(rs: seq<Sect>, s: Sect)
    requires rs != [] && s.fqn != "global" && Trimmed(s.fqn, BRACKETS) && AllOptions(Reread(s))
    ensures ReadOn(rs, Tokens(SectionLines(s) + [""])) == rs + [Rebuilt(s.fqn, Reread(s))]
  {
    var head, body := HeaderLines(s.fqn), OptionLines(s, |s.order|) + [""];
    assert SectionLines(s) + [""] == head + body;
    TokensAppend(head, body);
    ReadOnAppend(rs, Tokens(head), Tokens(body));
    ReadHeader(rs, s);
    ReadBody(rs, s);
  }

  lemma ReadGlobal(s: Sect)
    requires s.fqn == "global" && AllOptions(Reread(s))
    ensures ReadFlat(Tokens(SectionLines(s) + [""])) == [Rebuilt(s.fqn, Reread(s))]
  {
    assert SectionLines(s) == OptionLines(s, |s.order|);
    ReadBody([], s);
    assert [] + [NewSect(s.fqn)] == [NewSect("global")];
  }

  lemma ReadOneMore(lines: seq<string>, rs: seq<Sect>, s: Sect)
    requires rs != [] && ReadFlat(Tokens(lines)) == rs
    requires s.fqn != "global" && Trimmed(s.fqn, BRACKETS) && AllOptions(Reread(s))
    ensures ReadFlat(Tokens(lines + (SectionLines(s) + [""]))) == rs + [Rebuilt(s.fqn, Reread(s))]
  {
    TokensAppend(lines, SectionLines(s) + [""]);
    ReadOnAppend([NewSect("global")], Tokens(lines), Tokens(SectionLines(s) + [""]));
    ReadSection(rs, s);
  }

  lemma RebuiltStep(front: seq<Sect>, s: Sect)
    requires AllReread(front + [s])
    ensures AllReread(front) && AllOptions(Reread(s))
    ensures RebuiltAll(front + [s]) == RebuiltAll(front) + [Rebuilt(s.fqn, Reread(s))]
  {
    assert forall i :: 0 <= i < |front| ==> (front + [s])[i] == front[i];
    assert (front + [s])[|front|] == s;
  }

  lemma GlobalStep(front: seq<Sect>, s: Sect)
    requires OneGlobal(front + [s]) && NamesTrimmed(front + [s]) && front != []
    ensures OneGlobal(front) && NamesTrimmed(front) && s.fqn != "global" && Trimmed(s.fqn, BRACKETS)
  {
    assert forall i :: 0 <= i < |front| ==> (front + [s])[i] == front[i];
    assert (front + [s])[|front|] == s;
  }

  /** When every option line is read as an option, reading gives the rebuilt sections. */
  lemma {:induction false} ReadAll(ss: seq<Sect>)
    requires OneGlobal(ss) && NamesTrimmed(ss) && AllReread(ss)
    ensures ReadFlat(Tokens(SaveLines(ss))) == RebuiltAll(ss)
  {
    var front, s := ss[..|ss| - 1], ss[|ss| - 1];
    assert ss == front + [s];
    if front == [] {
      ReadGlobal(s);
      assert SaveLines(ss) == SectionLines(s) + [""];
      assert RebuiltAll(ss) == [Rebuilt(s.fqn, Reread(s))];
    } else {
      GlobalStep(front, s);
      RebuiltStep(front, s);
      ReadAll(front);
      ReadOneMore(SaveLines(front), RebuiltAll(front), s);
    }
  }

  lemma RebuiltContiguous(ss: seq<Sect>)
    requires AllReread(ss) && Contiguous(ss, FQN)
    ensures Grouped(RebuiltAll(ss), FQN) == RebuiltAll(ss)
  {
    GroupedContiguous(RebuiltAll(ss), FQN);
  }

  // ----- well-formed configurations survive -----

  /** No printed line has a line feed. */
  predicate CleanSection(s: Sect) {
    '\n' !in s.fqn && forall i: nat :: i < |s.order| ==> '\n' !in OptionLine(s, i)
  }

  lemma {:induction false} SaveLinesClean(ss: seq<Sect>)
    requires forall i :: 0 <= i < |ss| ==> CleanSection(ss[i])
    ensures OneLiners(SaveLines(ss))
  {
    if ss != [] {
      SaveLinesClean(ss[..|ss| - 1]);
    }
  }

  predicate ShortSection(s: Sect) {
    |HeaderText(s.fqn)| <= MAX_LINE && forall i: nat :: i < |s.order| ==> |OptionLine(s, i)| <= MAX_LINE
  }

  lemma {:induction false} SaveLinesShort(ss: seq<Sect>)
    requires forall i :: 0 <= i < |ss| ==> ShortSection(ss[i])
    ensures ShortLines(SaveLines(ss))
  {
    if ss != [] {
      SaveLinesShort(ss[..|ss| - 1]);
    }
  }

  lemma TextSurvives(ss: seq<Sect>)
    requires forall i :: 0 <= i < |ss| ==> CleanSection(ss[i]) && ShortSection(ss[i])
    ensures Scan(SaveText(ss)) == Some(Tokens(SaveLines(ss)))
  {
    SaveLinesClean(ss);
    SaveLinesShort(ss);
    SplitJoined(SaveLines(ss));
  }

  lemma GlobalFits()
    ensures '\n' !in "global" && |HeaderText("global")| <= MAX_LINE && Trimmed("global", BRACKETS)
  {
  }

  lemma GoodIsClean(ss: seq<Sect>, i: nat)
    requires WellFormed(ss) && i < |ss|
    ensures CleanSection(ss[i]) && ShortSection(ss[i]) && Trimmed(ss[i].fqn, BRACKETS)
  {
    GlobalFits();
    assert GoodSection(ss[i]);
    if i > 0 {
      var name := ss[i].fqn;
      assert GoodName(name);
      assert HeaderText(name)[1..|name| + 1] == name;
    }
  }

  lemma SectionsSurvive(ss: seq<Sect>)
    requires WellFormed(ss)
    ensures OneGlobal(ss) && NamesTrimmed(ss) && AllReread(ss) && RebuiltAll(ss) == ss
  {
    forall i | 0 <= i < |ss|
      ensures AllOptions(Reread(ss[i])) && Rebuilt(ss[i].fqn, Reread(ss[i])) == ss[i] && Trimmed(ss[i].fqn, BRACKETS)
    {
      GoodIsClean(ss, i);
      assert GoodSection(ss[i]);
      RebuiltIsSame(ss[i]);
    }
    forall i | 0 < i < |ss|
      ensures ss[i].fqn != "global"
    {
      assert GoodName(ss[i].fqn);
    }
  }

  lemma Survives(ss: seq<Sect>)
    requires WellFormed(ss) && Contiguous(ss, FQN)
    ensures ReadText(SaveText(ss)) == Some(ss)
  {
    forall i | 0 <= i < |ss|
      ensures CleanSection(ss[i]) && ShortSection(ss[i])
    {
      GoodIsClean(ss, i);
    }
    TextSurvives(ss);
    SectionsSurvive(ss);
    ReadAll(ss);
    GroupedContiguous(ss, FQN);
  }

  // ----- only well-formed configurations survive: what reading can produce -----

  /** Made of what one line can hold. */
  predicate OneLined(s: Sect) {
    && '\n' !in s.fqn && Trimmed(s.fqn, BRACKETS)
    && (forall k :: k in s.order ==> '\n' !in k)
    && (forall k :: k in s.options ==> '\n' !in s.options[k])
  }

  lemma TakeOneLined(rs: seq<Sect>, t: string)
    requires rs != [] && (forall i :: 0 <= i < |rs| ==> OneLined(rs[i])) && '\n' !in t
    ensures forall i :: 0 <= i < |Take(rs, Classify(t))| ==> OneLined(Take(rs, Classify(t))[i])
  {
    ClassifiedFrom(t);
  }

  lemma {:induction false} ReadOnOneLined(rs: seq<Sect>, ts: seq<string>)
    requires rs != [] && (forall i :: 0 <= i < |rs| ==> OneLined(rs[i])) && OneLiners(ts)
    ensures forall i :: 0 <= i < |ReadOn(rs, ts)| ==> OneLined(ReadOn(rs, ts)[i])
  {
    if ts != [] {
      ReadOnOneLined(rs, ts[..|ts| - 1]);
      TakeOneLined(ReadOn(rs, ts[..|ts| - 1]), ts[|ts| - 1]);
    }
  }

  lemma TokensOneLined(raw: seq<string>)
    requires OneLiners(raw)
    ensures OneLiners(Tokens(raw))
  {
  }

  lemma FlatIsOneLined(ts: seq<string>)
    requires OneLiners(ts)
    ensures forall i :: 0 <= i < |ReadFlat(ts)| ==> OneLined(ReadFlat(ts)[i])
  {
    GlobalFits();
    assert OneLined(NewSect("global"));
    ReadOnOneLined([NewSect("global")], ts);
  }

  lemma GroupedFrom(flat: seq<Sect>, i: nat)
    requires i < |Grouped(flat, FQN)|
    ensures Grouped(flat, FQN)[i] in flat
  {
    GroupByHas(Names(flat, FQN), flat, FQN);
  }

  /** Whatever is read is made of single lines. */
  lemma ReadIsOneLined(text: string, i: nat)
    requires ReadText(text).Some? && i < |ReadText(text).value|
    ensures OneLined(ReadText(text).value[i])
  {
    RawLinesAreOneLiners(text);
    TokensOneLined(RawLines(text));
    FlatIsOneLined(Tokens(RawLines(text)));
    GroupedFrom(ReadFlat(Tokens(RawLines(text))), i);
  }

  lemma OneLinedIsClean(s: Sect)
    requires OneLined(s)
    ensures CleanSection(s)
  {
  }

  // ----- counting options and headers -----

  function Options(ts: seq<string>): nat {
    if ts == [] then 0 else Options(ts[..|ts| - 1]) + if Classify(ts[|ts| - 1]).Opt? then 1 else 0
  }

  function Headers(ts: seq<string>): nat {
    if ts == [] then 0 else Headers(ts[..|ts| - 1]) + if Classify(ts[|ts| - 1]).Header? then 1 else 0
  }

  lemma {:induction false} CountAppend(a: seq<string>, b: seq<string>)
    ensures Options(a + b) == Options(a) + Options(b) && Headers(a + b) == Headers(a) + Headers(b)
  {
    if b == [] {
      assert a + b == a;
    } else {
      CountAppend(a, b[..|b| - 1]);
      assert (a + b)[..|a + b| - 1] == a + b[..|b| - 1];
    }
  }

  lemma TakeCounts(rs: seq<Sect>, line: Line)
    requires rs != []
    ensures Sum(Take(rs, line), ONE) == Sum(rs, ONE) + if line.Header? then 1 else 0
    ensures Sum(Take(rs, line), OPTIONS) == Sum(rs, OPTIONS) + if line.Opt? then 1 else 0
  {
    match line
    case Skip =>
    case Header(name) =>
      SumMore(rs, NewSect(name), ONE);
      SumMore(rs, NewSect(name), OPTIONS);
    case Opt(key, value) =>
      var front, last := rs[..|rs| - 1], rs[|rs| - 1];
      assert rs == front + [last] && Take(rs, line) == front + [last.With(key, value)];
      SumMore(front, last, ONE);
      SumMore(front, last, OPTIONS);
      SumMore(front, last.With(key, value), ONE);
      SumMore(front, last.With(key, value), OPTIONS);
  }

  lemma {:induction false} ReadOnCounts(rs: seq<Sect>, ts: seq<string>)
    requires rs != []
    ensures Sum(ReadOn(rs, ts), ONE) == Sum(rs, ONE) + Headers(ts)
    ensures Sum(ReadOn(rs, ts), OPTIONS) == Sum(rs, OPTIONS) + Options(ts)
  {
    if ts != [] {
      ReadOnCounts(rs, ts[..|ts| - 1]);
      TakeCounts(ReadOn(rs, ts[..|ts| - 1]), Classify(ts[|ts| - 1]));
    }
  }

  lemma SumOne(s: Sect, weight: Sect -> nat)
    ensures Sum([s], weight) == weight(s)
  {
    assert [s][..0] == [];
  }

  /** Sections and options as they are read, counted on the lines. */
  lemma ReadCounts(ts: seq<string>)
    ensures Sum(ReadFlat(ts), ONE) == Headers(ts) + 1
    ensures Sum(ReadFlat(ts), OPTIONS) == Options(ts)
  {
    var g := NewSect("global");
    ReadOnCounts([g], ts);
    SumOne(g, ONE);
    SumOne(g, OPTIONS);
  }

  /** Lines of options: as many options as lines, if every line is read as one. */
  lemma {:induction false} CountOptions(ts: seq<string>, ls: seq<Line>)
    requires |ts| == |ls| && forall i :: 0 <= i < |ts| ==> Classify(ts[i]) == ls[i]
    ensures Options(ts) <= |ts| && (Options(ts) == |ts| ==> AllOptions(ls))
  {
    if ts != [] {
      var n := |ts| - 1;
      CountOptions(ts[..n], ls[..n]);
      AllOptionsStep(ls, n);
    }
  }

  lemma AllOptionsStep(ls: seq<Line>, n: nat)
    requires n + 1 == |ls|
    ensures AllOptions(ls) <==> AllOptions(ls[..n]) && ls[n].Opt?
  {
    assert ls == ls[..n] + [ls[n]];
  }

  lemma {:induction false} CountNoHeaders(ts: seq<string>)
    requires forall i :: 0 <= i < |ts| ==> Classify(ts[i]).Opt?
    ensures Headers(ts) == 0
  {
    if ts != [] {
      CountNoHeaders(ts[..|ts| - 1]);
    }
  }

  lemma CountHeader(fqn: string)
    ensures Options(Tokens(HeaderLines(fqn))) == 0
    ensures Headers(Tokens(HeaderLines(fqn))) == if fqn == "global" then 0 else 1
  {
    NameSurvives(fqn);
    if fqn != "global" {
      var ts := Tokens(HeaderLines(fqn));
      assert ts == [DropCR(HeaderText(fqn))] && ts[..0] == [];
    }
  }

  lemma CountBlank()
    ensures Options(Tokens([""])) == 0 && Headers(Tokens([""])) == 0
  {
    assert Tokens([""])[..0] == [];
  }

  lemma CountSection(s: Sect)
    ensures Options(Tokens(SectionLines(s) + [""])) <= |s.order|
    ensures Options(Tokens(SectionLines(s) + [""])) == |s.order| ==> AllOptions(Reread(s))
    ensures AllOptions(Reread(s)) ==> Headers(Tokens(SectionLines(s) + [""])) == if s.fqn == "global" then 0 else 1
  {
    var head, opts := HeaderLines(s.fqn), OptionLines(s, |s.order|);
    TokensAppend(head + opts, [""]);
    TokensAppend(head, opts);
    CountAppend(Tokens(head) + Tokens(opts), Tokens([""]));
    CountAppend(Tokens(head), Tokens(opts));
    CountHeader(s.fqn);
    CountBlank();
    CountOptions(Tokens(opts), Reread(s));
    if AllOptions(Reread(s)) {
      CountNoHeaders(Tokens(opts));
    }
  }

  lemma {:induction false} CountSaved(ss: seq<Sect>)
    ensures Options(Tokens(SaveLines(ss))) <= Sum(ss, OPTIONS)
    ensures Options(Tokens(SaveLines(ss))) == Sum(ss, OPTIONS) ==>
              AllReread(ss) && Headers(Tokens(SaveLines(ss))) + Sum(ss, GLOBALS) == Sum(ss, ONE)
  {
    if ss != [] {
      var front, s := ss[..|ss| - 1], ss[|ss| - 1];
      assert ss == front + [s];
      CountSaved(front);
      CountSection(s);
      TokensAppend(SaveLines(front), SectionLines(s) + [""]);
      CountAppend(Tokens(SaveLines(front)), Tokens(SectionLines(s) + [""]));
    }
  }

  lemma {:induction false} SumAtLeast(ss: seq<Sect>, i: nat)
    requires i < |ss| && ss[i].fqn == "global"
    ensures Sum(ss, GLOBALS) >= if 0 < i && ss[0].fqn == "global" then 2 else 1
  {
    var n := |ss| - 1;
    if i < n {
      SumAtLeast(ss[..n], i);
    } else if 0 < n && ss[0].fqn == "global" {
      SumAtLeast(ss[..n], 0);
    }
  }

  lemma OnlyOneGlobal(ss: seq<Sect>)
    requires ss != [] && ss[0].fqn == "global" && Sum(ss, GLOBALS) == 1
    ensures OneGlobal(ss)
  {
    forall i | 0 < i < |ss|
      ensures ss[i].fqn != "global"
    {
      if ss[i].fqn == "global" {
        SumAtLeast(ss, i);
      }
    }
  }

  lemma ShortSplit(a: seq<string>, b: seq<string>, c: seq<string>)
    requires ShortLines(a + (b + c))
    ensures ShortLines(a) && ShortLines(b)
  {
    assert forall j :: 0 <= j < |a| ==> a[j] == (a + (b + c))[j];
    assert forall j :: 0 <= j < |b| ==> b[j] == (a + (b + c))[|a| + j];
  }

  lemma {:induction false} ShortParts(ss: seq<Sect>, i: nat)
    requires ShortLines(SaveLines(ss)) && i < |ss|
    ensures ShortLines(SectionLines(ss[i]))
  {
    var front, s := ss[..|ss| - 1], ss[|ss| - 1];
    ShortSplit(SaveLines(front), SectionLines(s), [""]);
    if i < |front| {
      ShortParts(front, i);
    }
  }

  lemma ShortLinesOf(s: Sect)
    requires ShortLines(SectionLines(s))
    ensures s.fqn != "global" ==> |HeaderText(s.fqn)| <= MAX_LINE
    ensures forall i: nat :: i < |s.order| ==> |OptionLine(s, i)| <= MAX_LINE
  {
    var head, opts := HeaderLines(s.fqn), OptionLines(s, |s.order|);
    assert s.fqn != "global" ==> SectionLines(s)[0] == HeaderText(s.fqn);
    forall i: nat | i < |s.order|
      ensures |OptionLine(s, i)| <= MAX_LINE
    {
      assert SectionLines(s)[|head| + i] == opts[i];
    }
  }

  lemma ReadsClean(ss: seq<Sect>)
    requires ReadText(SaveText(ss)) == Some(ss)
    ensures forall i :: 0 <= i < |ss| ==> OneLined(ss[i])
    ensures forall i :: 0 <= i < |ss| ==> CleanSection(ss[i])
  {
    forall i | 0 <= i < |ss|
      ensures OneLined(ss[i]) && CleanSection(ss[i])
    {
      ReadIsOneLined(SaveText(ss), i);
      OneLinedIsClean(ss[i]);
    }
  }

  lemma ReadsLines(text: string, lines: seq<string>, ss: seq<Sect>)
    requires RawLines(text) == lines && ReadText(text) == Some(ss)
    ensures ShortLines(lines) && Grouped(ReadFlat(Tokens(lines)), FQN) == ss
  {
  }

  /** What reads back the same is printed on the lines it seems to be printed on. */
  lemma ReadBackLines(ss: seq<Sect>)
    requires ReadText(SaveText(ss)) == Some(ss)
    ensures ShortLines(SaveLines(ss)) && Grouped(ReadFlat(Tokens(SaveLines(ss))), FQN) == ss
  {
    ReadsClean(ss);
    SaveLinesClean(ss);
    SplitJoined(SaveLines(ss));
    ReadsLines(SaveText(ss), SaveLines(ss), ss);
  }

  /** If reading the saved lines finds as many sections and options as were saved, each line is read as what it is. */
  lemma CountsMatch(ss: seq<Sect>)
    requires ss != [] && ss[0].fqn == "global"
    requires Sum(ss, ONE) == Headers(Tokens(SaveLines(ss))) + 1 && Sum(ss, OPTIONS) == Options(Tokens(SaveLines(ss)))
    ensures OneGlobal(ss) && AllReread(ss)
  {
    CountSaved(ss);
    OnlyOneGlobal(ss);
  }

  lemma CountsBack(ts: seq<string>, ss: seq<Sect>)
    requires Grouped(ReadFlat(ts), FQN) == ss
    ensures ss != [] && ss[0].fqn == "global"
    ensures Sum(ss, ONE) == Headers(ts) + 1 && Sum(ss, OPTIONS) == Options(ts)
  {
    ReadCounts(ts);
    GroupedFacts(ReadFlat(ts), FQN, ONE, ss);
    GroupedFacts(ReadFlat(ts), FQN, OPTIONS, ss);
  }

  lemma RebuiltBack(ts: seq<string>, ss: seq<Sect>)
    requires ts == Tokens(SaveLines(ss)) && Grouped(ReadFlat(ts), FQN) == ss
    requires Contiguous(ss, FQN) && NamesTrimmed(ss) && OneGlobal(ss) && AllReread(ss)
    ensures RebuiltAll(ss) == ss
  {
    ReadAll(ss);
    RebuiltContiguous(ss);
  }

  /** The saved lines are read one by one, every option as an option, and the sections come out in order. */
  lemma ReadBackSections(ss: seq<Sect>)
    requires Contiguous(ss, FQN) && NamesTrimmed(ss) && Grouped(ReadFlat(Tokens(SaveLines(ss))), FQN) == ss
    ensures OneGlobal(ss) && AllReread(ss) && RebuiltAll(ss) == ss
  {
    CountsBack(Tokens(SaveLines(ss)), ss);
    CountsMatch(ss);
    RebuiltBack(Tokens(SaveLines(ss)), ss);
  }

  lemma GoodHere(ss: seq<Sect>, i: nat)
    requires i < |ss| && OneLined(ss[i]) && ShortLines(SaveLines(ss)) && OneGlobal(ss)
    requires AllOptions(Reread(ss[i])) && Rebuilt(ss[i].fqn, Reread(ss[i])) == ss[i]
    ensures GoodSection(ss[i]) && (i > 0 ==> GoodName(ss[i].fqn))
  {
    RebuiltNeedsGood(ss[i]);
    OneLinedIsClean(ss[i]);
    ShortParts(ss, i);
    ShortLinesOf(ss[i]);
  }

  lemma NeedsWellFormed(ss: seq<Sect>)
    requires Contiguous(ss, FQN) && ReadText(SaveText(ss)) == Some(ss)
    ensures WellFormed(ss)
  {
    ReadsClean(ss);
    ReadBackLines(ss);
    ReadBackSections(ss);
    forall i | 0 <= i < |ss|
      ensures GoodSection(ss[i]) && (i > 0 ==> GoodName(ss[i].fqn))
    {
      assert RebuiltAll(ss)[i] == ss[i];
      GoodHere(ss, i);
    }
  }

  /**
   * Saving and reading back gives the same sections, in the same order, with the same options in the same order and the
   * same values, exactly when the configuration is well formed.
   */
  lemma SaveThenRead(added: seq<Sect>)
    ensures var ss := Grouped(added, FQN); ReadText(SaveText(ss)) == Some(ss) <==> WellFormed(ss)
  {
    var ss := Grouped(added, FQN);
    FilterContiguous(Names(added, FQN), added, FQN);
    if WellFormed(ss) {
      Survives(ss);
    }
    if ReadText(SaveText(ss)) == Some(ss) {
      NeedsWellFormed(ss);
    }
  }
}
