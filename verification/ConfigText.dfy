/** The text side of lib/configparser/configparser.go: lines, trimming, and what one line means. */
module ConfigText {
  import opened Words

  // ----- searching and trimming -----

  /** strings.Index for one character; the length of the string when it does not occur. */
  function IndexOf(s: string, c: char): (k: nat)
    ensures k <= |s| && c !in s[..k] && (k < |s| ==> s[k] == c)
    ensures k == |s| <==> c !in s
  {
    if s == "" then 0
    else if s[0] == c then 0
    else
      var k := IndexOf(s[1..], c);
      assert s[..k + 1] == [s[0]] + s[1..][..k];
      assert s == [s[0]] + s[1..];
      k + 1
  }

  lemma {:induction false} FirstAt(s: string, c: char, n: nat)
    requires n < |s| && c !in s[..n] && s[n] == c
    ensures IndexOf(s, c) == n
  {
    if n > 0 {
      assert s[..n][0] == s[0];
      assert s[..n] == [s[0]] + s[1..][..n - 1];
      FirstAt(s[1..], c, n - 1);
    }
  }

  lemma FoundBefore(s: string, t: string, c: char)
    requires c in s
    ensures IndexOf(s + t, c) < |s|
  {
    var k := IndexOf(s, c);
    assert (s + t)[..k] == s[..k];
    FirstAt(s + t, c, k);
  }

  function TrimLeft(s: string, cut: set<char>): (t: string)
    ensures |t| <= |s|
  {
    if s != "" && s[0] in cut then TrimLeft(s[1..], cut) else s
  }

  function TrimRight(s: string, cut: set<char>): (t: string)
    ensures |t| <= |s|
  {
    if s != "" && s[|s| - 1] in cut then TrimRight(s[..|s| - 1], cut) else s
  }

  /** strings.Trim */
  function Trim(s: string, cut: set<char>): (t: string)
    ensures |t| <= |s|
  {
    TrimRight(TrimLeft(s, cut), cut)
  }

  predicate Trimmed(s: string, cut: set<char>) {
    s != "" ==> s[0] !in cut && s[|s| - 1] !in cut
  }

  lemma TrimIsIdentity(s: string, cut: set<char>)
    ensures Trim(s, cut) == s <==> Trimmed(s, cut)
  {
    if s != "" && s[0] in cut {
      assert |TrimLeft(s, cut)| < |s|;
    }
  }

  lemma {:induction false} TrimLeftPart(s: string, cut: set<char>)
    ensures exists k: nat {:trigger s[k..]} :: k <= |s| && TrimLeft(s, cut) == s[k..]
    ensures TrimLeft(s, cut) != "" ==> TrimLeft(s, cut)[0] !in cut
  {
    if s != "" && s[0] in cut {
      TrimLeftPart(s[1..], cut);
      var k: nat :| k <= |s[1..]| && TrimLeft(s[1..], cut) == s[1..][k..];
      assert s[1..][k..] == s[k + 1..];
    } else {
      assert s[0..] == s;
    }
  }

  lemma {:induction false} TrimRightPart(s: string, cut: set<char>)
    ensures exists k: nat {:trigger s[..k]} :: k <= |s| && TrimRight(s, cut) == s[..k]
    ensures TrimRight(s, cut) != "" ==> TrimRight(s, cut)[|TrimRight(s, cut)| - 1] !in cut
  {
    if s != "" && s[|s| - 1] in cut {
      TrimRightPart(s[..|s| - 1], cut);
      var k: nat :| k <= |s| - 1 && TrimRight(s[..|s| - 1], cut) == s[..|s| - 1][..k];
      assert s[..|s| - 1][..k] == s[..k];
    } else {
      assert s[..|s|] == s;
    }
  }

  /** What is trimmed is trimmed, and made of characters that were there. */
  lemma TrimResult(s: string, cut: set<char>)
    ensures Trimmed(Trim(s, cut), cut)
    ensures forall c :: c in Trim(s, cut) ==> c in s
  {
    var t := TrimLeft(s, cut);
    TrimLeftPart(s, cut);
    TrimRightPart(t, cut);
    var k: nat :| k <= |t| && TrimRight(t, cut) == t[..k];
  }

  /** `t` is `s` without the characters of `cut` at its two ends. */
  predicate TrimsTo(s: string, t: string, cut: set<char>) {
    exists i: nat, j: nat :: i <= j <= |s| && CutAway(s, i, j, cut) && t == s[i..j]
  }

  predicate CutAway(s: string, i: nat, j: nat, cut: set<char>)
    requires i <= j <= |s|
  {
    && (forall k :: 0 <= k < i ==> s[k] in cut) && (forall k :: j <= k < |s| ==> s[k] in cut)
    && (i < j ==> s[i] !in cut && s[j - 1] !in cut)
  }

  lemma {:induction false} TrimLeftCuts(s: string, cut: set<char>) returns (i: nat)
    ensures i <= |s| && TrimLeft(s, cut) == s[i..] && (i < |s| ==> s[i] !in cut)
    ensures forall k :: 0 <= k < i ==> s[k] in cut
  {
    if s != "" && s[0] in cut {
      i := TrimLeftCuts(s[1..], cut);
      assert s[1..][i..] == s[i + 1..];
      i := i + 1;
    } else {
      i := 0;
      assert s[0..] == s;
    }
  }

  lemma {:induction false} TrimRightCuts(s: string, cut: set<char>) returns (j: nat)
    ensures j <= |s| && TrimRight(s, cut) == s[..j] && (0 < j ==> s[j - 1] !in cut)
    ensures forall k :: j <= k < |s| ==> s[k] in cut
  {
    if s != "" && s[|s| - 1] in cut {
      j := TrimRightCuts(s[..|s| - 1], cut);
      assert s[..|s| - 1][..j] == s[..j];
    } else {
      j := |s|;
      assert s[..|s|] == s;
    }
  }

  lemma TrimMeans(s: string, cut: set<char>)
    ensures TrimsTo(s, Trim(s, cut), cut)
  {
    var i := TrimLeftCuts(s, cut);
    var j := TrimRightCuts(s[i..], cut);
    assert s[i..][..j] == s[i..i + j];
    assert CutAway(s, i, i + j, cut);
  }

  // ----- lines -----

  /** Longer lines make the scanner give up. */
  const MAX_LINE: nat := 65535

  /** What lies between the line feeds; nothing after a last one. */
  function RawLines(text: string): seq<string>
    decreases |text|
  {
    if text == "" then []
    else
      var k := IndexOf(text, '\n');
      [text[..k]] + if k == |text| then [] else RawLines(text[k + 1..])
  }

  /** The scanner drops one carriage return at the end of a line. */
  function DropCR(line: string): string {
    if line != "" && line[|line| - 1] == '\r' then line[..|line| - 1] else line
  }

  function Tokens(raw: seq<string>): (ts: seq<string>)
    ensures |ts| == |raw| && forall i :: 0 <= i < |raw| ==> ts[i] == DropCR(raw[i])
  {
    seq(|raw|, i requires 0 <= i < |raw| => DropCR(raw[i]))
  }

  predicate ShortLines(raw: seq<string>) {
    forall i :: 0 <= i < |raw| ==> |raw[i]| <= MAX_LINE
  }

  /** The lines a bufio.Scanner delivers, unless one of them is too long. */
  function Scan(text: string): Option<seq<string>> {
    if ShortLines(RawLines(text)) then Some(Tokens(RawLines(text))) else None
  }

  /** Lines, each with its line feed. */
  function Unlines(ls: seq<string>): string {
    if ls == [] then "" else ls[0] + "\n" + Unlines(ls[1..])
  }

  lemma {:induction false} UnlinesAppend(a: seq<string>, b: seq<string>)
    ensures Unlines(a + b) == Unlines(a) + Unlines(b)
  {
    if a == [] {
      assert a + b == b;
    } else {
      UnlinesAppend(a[1..], b);
      assert (a + b)[1..] == a[1..] + b;
    }
  }

  lemma UnlinesCons(line: string, ls: seq<string>)
    ensures Unlines([line] + ls) == line + "\n" + Unlines(ls)
  {
    assert ([line] + ls)[1..] == ls;
  }

  lemma CutAt(text: string, k: nat)
    requires k < |text|
    ensures text == text[..k] + [text[k]] + text[k + 1..]
  {
  }

  lemma RawLinesCons(text: string, k: nat)
    requires k < |text| && k == IndexOf(text, '\n')
    ensures Is(RawLines(text), [text[..k]] + RawLines(text[k + 1..]))
  {
  }

  /** The line feeds of a text are where its lines end, but a last line may do without one. */
  lemma {:induction false} LinesJoined(text: string)
    ensures Unlines(RawLines(text)) == if text == "" || text[|text| - 1] == '\n' then text else text + "\n"
    decreases |text|
  {
    if text != "" {
      var k := IndexOf(text, '\n');
      if k == |text| {
        UnlinesCons(text, []);
        assert text[..k] == text && [text] + [] == [text];
      } else {
        LinesJoined(text[k + 1..]);
        RawLinesCons(text, k);
        CutAt(text, k);
        UnlinesCons(text[..k], RawLines(text[k + 1..]));
        assert text[k + 1..] != "" ==> text[k + 1..][|text| - k - 2] == text[|text| - 1];
      }
    }
  }

  /** What the scanner delivers: the lines without one carriage return at the end, unless a line has more than 65535 bytes. */
  lemma ScanMeans(text: string)
    ensures var raw := RawLines(text);
            match Scan(text)
            case None => exists i :: 0 <= i < |raw| && |raw[i]| > 65535
            case Some(ts) =>
              && (forall i :: 0 <= i < |raw| ==> |raw[i]| <= 65535) && |ts| == |raw|
              && forall i :: 0 <= i < |raw| ==>
                   if |raw[i]| > 0 && raw[i][|raw[i]| - 1] == '\r' then raw[i] == ts[i] + "\r" else ts[i] == raw[i]
  {
  }

  predicate OneLiners(ls: seq<string>) {
    forall i :: 0 <= i < |ls| ==> '\n' !in ls[i]
  }

  /** Splitting undoes joining, for lines without line feeds. */
  lemma {:induction false} SplitJoined(ls: seq<string>)
    requires OneLiners(ls)
    ensures RawLines(Unlines(ls)) == ls
  {
    if ls != [] {
      var text := Unlines(ls);
      var n := |ls[0]|;
      assert text[..n] == ls[0] && text[n] == '\n' && text[n + 1..] == Unlines(ls[1..]);
      FirstAt(text, '\n', n);
      SplitJoined(ls[1..]);
    }
  }

  lemma {:induction false} RawLinesAreOneLiners(text: string)
    ensures OneLiners(RawLines(text))
    decreases |text|
  {
    if text != "" {
      var k := IndexOf(text, '\n');
      if k < |text| {
        RawLinesAreOneLiners(text[k + 1..]);
      }
    }
  }

  // ----- what a line means -----

  datatype Line = Skip | Header(name: string) | Opt(key: string, value: string)

  const COMMENT := {'#', ';'}
  const BRACKETS := {' ', '[', ']'}

  /** parseOption */
  function ParseOption(line: string): (string, string) {
    var i := IndexOf(line, '=');
    if i < |line| then (Trim(line[..i], {' '}), Trim(line[i + 1..], {' '}))
    else
      var j := IndexOf(line, ':');
      if j < |line| then (Trim(line[..j], {' '}), Trim(line[j + 1..], {' '}))
      else (line, "")
  }

  /** One turn of the loop of Read. */
  function Classify(line: string): Line {
    if line == "" || line[0] in COMMENT then Skip
    else if line[0] == '[' then Header(Trim(line, BRACKETS))
    else
      var (key, value) := ParseOption(line);
      Opt(key, value)
  }

  /** Position `i` is the first one of `c`. */
  predicate FirstOf(line: string, c: char, i: nat) {
    i < |line| && line[i] == c && c !in line[..i]
  }

  /** The key and the value stand on the two sides of position `i`, without blanks around them. */
  predicate SplitAt(line: string, i: nat, key: string, value: string) {
    i < |line| && TrimsTo(line[..i], key, {' '}) && TrimsTo(line[i + 1..], value, {' '})
  }

  lemma ParsedAt(line: string, i: nat)
    ensures FirstOf(line, '=', i) ==> SplitAt(line, i, ParseOption(line).0, ParseOption(line).1)
    ensures '=' !in line && FirstOf(line, ':', i) ==> SplitAt(line, i, ParseOption(line).0, ParseOption(line).1)
    ensures '=' !in line && ':' !in line ==> ParseOption(line) == (line, "")
  {
    if FirstOf(line, '=', i) {
      FirstAt(line, '=', i);
    } else if FirstOf(line, ':', i) {
      FirstAt(line, ':', i);
    }
    if i < |line| {
      TrimMeans(line[..i], {' '});
      TrimMeans(line[i + 1..], {' '});
    }
  }

  /**
   * What a line means: nothing if it is empty or starts with '#' or ';', a header if it starts with '[', and otherwise an
   * option, split at the first '=', or at the first ':' if there is no '=', or all key.
   */
  lemma LineMeans(line: string, i: nat)
    ensures line == "" || line[0] == '#' || line[0] == ';' ==> Classify(line) == Skip
    ensures line != "" && line[0] == '[' ==> Classify(line).Header? && TrimsTo(line, Classify(line).name, {' ', '[', ']'})
    ensures line != "" && line[0] !in {'#', ';', '['} ==>
              && Classify(line).Opt?
              && (FirstOf(line, '=', i) ==> SplitAt(line, i, Classify(line).key, Classify(line).value))
              && ('=' !in line && FirstOf(line, ':', i) ==> SplitAt(line, i, Classify(line).key, Classify(line).value))
              && ('=' !in line && ':' !in line ==> Classify(line).key == line && Classify(line).value == "")
  {
    TrimMeans(line, BRACKETS);
    ParsedAt(line, i);
    assert BRACKETS == {' ', '[', ']'};
  }

  /** How an option is printed. */
  function OptionText(key: string, value: string): string {
    if value != "" then key + "=" + value else key
  }

  function HeaderText(name: string): string {
    "[" + name + "]"
  }

  /** Everything that is read comes from the characters of the line. */
  lemma ClassifiedFrom(line: string)
    ensures match Classify(line)
            case Skip => true
            case Header(name) => Trimmed(name, BRACKETS) && forall c :: c in name ==> c in line
            case Opt(key, value) => (forall c :: c in key ==> c in line) && (forall c :: c in value ==> c in line)
  {
    TrimResult(line, BRACKETS);
    var i, j := IndexOf(line, '='), IndexOf(line, ':');
    TrimResult(line[..i], {' '});
    TrimResult(line[..j], {' '});
    if i < |line| {
      TrimResult(line[i + 1..], {' '});
    }
    if j < |line| {
      TrimResult(line[j + 1..], {' '});
    }
  }

  // ----- which options and names survive being printed and read -----

  /** The first character of the line would not start a comment or a section. */
  predicate GoodStart(line: string) {
    line != "" && line[0] !in COMMENT && line[0] != '['
  }

  predicate NoCR(line: string) {
    line != "" ==> line[|line| - 1] != '\r'
  }

  predicate GoodOption(key: string, value: string) {
    && GoodStart(OptionText(key, value)) && NoCR(OptionText(key, value))
    && '=' !in key
    && if value != "" then Trimmed(key, {' '}) && Trimmed(value, {' '}) else ':' !in key
  }

  /** Exactly the good options are read back from the line they are printed on. */
  lemma OptionSurvives(key: string, value: string)
    ensures Classify(DropCR(OptionText(key, value))) == Opt(key, value) <==> GoodOption(key, value)
  {
    var text := OptionText(key, value);
    if value != "" {
      ValuedOption(key, value);
    } else {
      BareOption(key);
    }
  }

  lemma BareOption(key: string)
    ensures Classify(DropCR(key)) == Opt(key, "") <==> GoodOption(key, "")
  {
    var line := DropCR(key);
    if !NoCR(key) {
      ShorterKey(line);
    } else if GoodStart(key) {
      var i, j := IndexOf(key, '='), IndexOf(key, ':');
      assert i < |key| ==> |Trim(key[..i], {' '})| < |key|;
      assert j < |key| ==> |Trim(key[..j], {' '})| < |key|;
    }
  }

  /** A key is never longer than its line. */
  lemma ShorterKey(line: string)
    ensures Classify(line).Opt? ==> |Classify(line).key| <= |line|
    ensures Classify(line).Opt? && Classify(line).value != "" ==> |Classify(line).key| + |Classify(line).value| < |line|
  {
  }

  lemma ValuedOption(key: string, value: string)
    requires value != ""
    ensures Classify(DropCR(key + "=" + value)) == Opt(key, value) <==> GoodOption(key, value)
  {
    var text := key + "=" + value;
    assert text[|text| - 1] == value[|value| - 1];
    if !NoCR(text) {
      ShorterKey(DropCR(text));
    } else if GoodStart(text) {
      var i := IndexOf(text, '=');
      if '=' in key {
        assert text == key + ("=" + value);
        FoundBefore(key, "=" + value, '=');
        assert |Trim(text[..i], {' '})| < |key|;
      } else {
        SplitAtEquals(key, value);
        TrimIsIdentity(key, {' '});
        TrimIsIdentity(value, {' '});
      }
    }
  }

  lemma SplitAtEquals(key: string, value: string)
    requires '=' !in key
    ensures var text := key + "=" + value; IndexOf(text, '=') == |key| && text[..|key|] == key && text[|key| + 1..] == value
  {
    var text := key + "=" + value;
    assert text[..|key|] == key && text[|key|] == '=';
    FirstAt(text, '=', |key|);
  }

  lemma {:induction false} TrimRightMore(s: string, c: char, cut: set<char>)
    requires c in cut
    ensures Trim(s + [c], cut) == Trim(s, cut)
  {
    TrimLeftMore(s, c, cut);
  }

  lemma {:induction false} TrimLeftMore(s: string, c: char, cut: set<char>)
    requires c in cut
    ensures TrimRight(TrimLeft(s + [c], cut), cut) == TrimRight(TrimLeft(s, cut), cut)
  {
    if s == "" {
      assert s + [c] == [c];
      assert [c][1..] == "";
    } else if s[0] in cut {
      assert (s + [c])[1..] == s[1..] + [c];
      TrimLeftMore(s[1..], c, cut);
    } else {
      assert (s + [c])[..|s|] == s;
    }
  }

  /** Exactly the trimmed names are read back from their header. */
  lemma NameSurvives(name: string)
    ensures Classify(DropCR(HeaderText(name))) == Header(name) <==> Trimmed(name, BRACKETS)
    ensures Classify(DropCR(HeaderText(name))).Header?
  {
    var text := HeaderText(name);
    assert DropCR(text) == text;
    assert text[1..] == name + [']'];
    TrimRightMore(name, ']', BRACKETS);
    TrimIsIdentity(name, BRACKETS);
  }

  // ----- examples of what does not survive -----

  /** A key that ends in a colon, as reading "k:=" makes one, loses it the second time. */
  lemma ColonIsLost()
    ensures Classify("k:=") == Opt("k:", "") && Classify(OptionText("k:", "")) == Opt("k", "")
  {
    assert "k:="[..2] == "k:" && "k:="[3..] == "";
    assert "k:"[..1] == "k" && "k:"[2..] == "";
    assert IndexOf("k:=", '=') == 2 by {
      SplitAtEquals("k:", "");
      assert "k:" + "=" + "" == "k:=";
    }
  }
}
