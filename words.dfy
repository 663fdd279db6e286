/** The word-continuity rules of the two engines, over strings of Unicode characters.

    JavaScript's `trim` and the `\s` class of a regular expression both use the ECMAScript
    white-space and line-terminator characters; `IsSpace` lists them. `toLowerCase` is
    approximated by `LowerChar`, which lowers the capital letters of ASCII, of Latin-1 and of
    Vietnamese and leaves every other character as it is. */
module Words {

  predicate IsSpace(c: char) {
    var n := c as int;
    n == 0x20 || 0x09 <= n <= 0x0D || n == 0xA0 || n == 0x1680 || 0x2000 <= n <= 0x200A ||
    n == 0x2028 || n == 0x2029 || n == 0x202F || n == 0x205F || n == 0x3000 || n == 0xFEFF
  }

  predicate NoSpace(s: string) {
    forall i :: 0 <= i < |s| ==> !IsSpace(s[i])
  }

  /** Capital letters of ASCII, Latin-1 and Vietnamese (Ă Đ Ĩ Ũ Ơ Ư and the letters with tone
      marks of the Latin Extended Additional block). */
  predicate IsUpper(c: char) {
    var n := c as int;
    0x41 <= n <= 0x5A || (0xC0 <= n <= 0xDE && n != 0xD7) ||
    n == 0x102 || n == 0x110 || n == 0x128 || n == 0x168 || n == 0x1A0 || n == 0x1AF ||
    (0x1EA0 <= n <= 0x1EF8 && n % 2 == 0)
  }

  /** The lower-case form of one character. */
  function LowerChar(c: char): (d: char)
    ensures !IsUpper(c) ==> d == c
    ensures !IsUpper(d)
    ensures IsSpace(d) <==> IsSpace(c)
  {
    var n := c as int;
    if 0x41 <= n <= 0x5A || (0xC0 <= n <= 0xDE && n != 0xD7) then (n + 0x20) as char
    else if n == 0x102 || n == 0x110 || n == 0x128 || n == 0x168 || n == 0x1A0 then (n + 1) as char
    else if n == 0x1AF then 0x1B0 as char
    else if 0x1EA0 <= n <= 0x1EF8 && n % 2 == 0 then (n + 1) as char
    else c
  }

  /** `s.toLowerCase()`, character by character. */
  function Lower(s: string): (t: string)
    ensures |t| == |s|
    ensures forall i :: 0 <= i < |s| ==> t[i] == LowerChar(s[i])
  {
    seq(|s|, i requires 0 <= i < |s| => LowerChar(s[i]))
  }

  /** `s` without its leading white space. */
  function TrimStart(s: string): (t: string)
    ensures |t| <= |s| && t == s[|s| - |t|..]
    ensures t == [] || !IsSpace(t[0])
    ensures forall i :: 0 <= i < |s| - |t| ==> IsSpace(s[i])
  {
    if |s| > 0 && IsSpace(s[0]) then TrimStart(s[1..]) else s
  }

  /** `s` without its trailing white space. */
  function TrimEnd(s: string): (t: string)
    ensures |t| <= |s| && t == s[..|t|]
    ensures t == [] || !IsSpace(t[|t| - 1])
    ensures forall i :: |t| <= i < |s| ==> IsSpace(s[i])
  {
    if |s| > 0 && IsSpace(s[|s| - 1]) then TrimEnd(s[..|s| - 1]) else s
  }

  /** `s.trim()`. */
  function Trim(s: string): string {
    TrimEnd(TrimStart(s))
  }

  /** The position of the first white-space character of `s`, or `|s|` if there is none. */
  function FirstSpace(s: string): (i: nat)
    ensures i <= |s| && NoSpace(s[..i])
    ensures i < |s| ==> IsSpace(s[i])
  {
    if |s| == 0 || IsSpace(s[0]) then 0
    else
      var i := 1 + FirstSpace(s[1..]);
      assert s[..i] == [s[0]] + s[1..][..i - 1];
      i
  }

  /** `s.split(/\s+/)`: the pieces between the runs of white space. A leading or trailing run
      gives an empty first or last piece, and the empty string gives one empty piece. */
  function Split(s: string): (pieces: seq<string>)
    ensures |pieces| >= 1
    ensures forall k :: 0 <= k < |pieces| ==> NoSpace(pieces[k])
    decreases |s|
  {
    var i := FirstSpace(s);
    if i == |s| then [s] else [s[..i]] + Split(TrimStart(s[i + 1..]))
  }

  /** `word.trim().split(/\s+/)[0]`. */
  function FirstToken(word: string): string {
    Split(Trim(word))[0]
  }

  /** `previous.trim().split(/\s+/)` and its last piece. */
  function LastToken(previous: string): string {
    var pieces := Split(Trim(previous));
    pieces[|pieces| - 1]
  }

  /** The leading run of non-space characters of `s`. */
  function LeadingWord(s: string): string {
    s[..FirstSpace(s)]
  }

  /** Continuity rule of server/server.js: a word continues the current word when there is no
      current word yet, or when its first token equals the current word's last token up to case. */
  predicate Continues(previous: string, word: string) {
    previous == [] || Lower(FirstToken(word)) == Lower(LastToken(previous))
  }

  /** `s.charAt(i)`: the one-character string at `i`, or the empty string out of range. */
  function CharAt(s: string, i: int): (c: string)
    ensures |c| <= 1
  {
    if 0 <= i < |s| then [s[i]] else []
  }

  /** Continuity rule of server.js: a word continues the current word when there is no current
      word yet, or when its first character equals the current word's last character up to case. */
  predicate ContinuesByLetter(previous: string, word: string) {
    previous == [] || Lower(CharAt(word, 0)) == Lower(CharAt(previous, |previous| - 1))
  }

  // ---------------------------------------------------------------------------------------
  // Properties of the token rule

  /** `FirstSpace` is pinned down by its two properties. */
  lemma {:induction false} FirstSpaceAt(s: string, i: nat)
    requires i <= |s| && NoSpace(s[..i]) && (i < |s| ==> IsSpace(s[i]))
    ensures FirstSpace(s) == i
  {
    if i > 0 {
      assert !IsSpace(s[..i][0]);
      assert s[1..][..i - 1] == s[..i][1..];
      FirstSpaceAt(s[1..], i - 1);
    }
  }

  /** The first piece of a split is the leading run of non-space characters. */
  lemma SplitHead(s: string)
    ensures Split(s)[0] == LeadingWord(s)
  {
    assert s[..|s|] == s;
  }

  /** Trimming the end of a string keeps its leading run of non-space characters. */
  lemma LeadingWordOfTrimEnd(s: string)
    ensures LeadingWord(TrimEnd(s)) == LeadingWord(s)
  {
    var t := TrimEnd(s);
    var i := FirstSpace(s);
    assert forall k :: 0 <= k < i ==> s[..i][k] == s[k];
    if i < |t| {
      assert t[..i] == s[..i];
      FirstSpaceAt(t, i);
    } else {
      assert |t| < |s| ==> IsSpace(s[|t|]);
      assert t == s[..i];
      FirstSpaceAt(t, |t|);
    }
  }

  /** The first token of a word is its leading run of non-space characters once the leading
      white space is dropped; trimming the end of the word never changes it. */
  lemma FirstTokenIsLeadingWord(word: string)
    ensures FirstToken(word) == LeadingWord(TrimStart(word))
  {
    SplitHead(Trim(word));
    LeadingWordOfTrimEnd(TrimStart(word));
  }

  /** A string without white space is split into itself alone. */
  lemma SplitWhole(s: string)
    requires NoSpace(s)
    ensures Split(s) == [s]
  {
    assert s[..|s|] == s;
    FirstSpaceAt(s, |s|);
  }

  /** A string that starts with a space-free run followed by white space is split there. */
  lemma SplitAt(s: string, i: nat)
    requires i < |s| && NoSpace(s[..i]) && IsSpace(s[i])
    ensures Split(s) == [s[..i]] + Split(TrimStart(s[i + 1..]))
  {
    FirstSpaceAt(s, i);
  }

  /** A word without white space is its own first and last token. */
  lemma SingleToken(w: string)
    requires w != [] && NoSpace(w)
    ensures FirstToken(w) == w && LastToken(w) == w
  {
    assert TrimStart(w) == w;
    assert TrimEnd(w) == w;
    SplitWhole(w);
  }

  /** Trimming a string whose ends are not white space changes nothing. */
  lemma TrimKeeps(w: string)
    requires w != [] && !IsSpace(w[0]) && !IsSpace(w[|w| - 1])
    ensures Trim(w) == w
  {
    assert TrimStart(w) == w;
  }

  /** The pieces of `a + " " + b` around the joining space. */
  lemma JoinedAt(a: string, b: string)
    requires NoSpace(a)
    ensures var w := a + " " + b;
      |a| < |w| && NoSpace(w[..|a|]) && IsSpace(w[|a|]) && w[|a| + 1..] == b
  {
    var w := a + " " + b;
    assert w[..|a|] == a;
    assert w[|a|] == ' ';
    assert w[|a| + 1..] == b;
  }

  /** Two space-free words joined by one space split into those two words. */
  lemma SplitTwo(a: string, b: string)
    requires NoSpace(a) && b != [] && NoSpace(b)
    ensures Split(a + " " + b) == [a, b]
  {
    var w := a + " " + b;
    calc {
      Split(w);
      { JoinedAt(a, b); SplitAt(w, |a|); }
      [w[..|a|]] + Split(TrimStart(w[|a| + 1..]));
      { JoinedAt(a, b); assert w[..|a|] == a; }
      [a] + Split(TrimStart(b));
      { TrimStartKeeps(b); }
      [a] + Split(b);
      { SplitWhole(b); }
      [a, b];
    }
  }

  /** A string that does not start with white space is its own `TrimStart`. */
  lemma TrimStartKeeps(s: string)
    requires s == [] || !IsSpace(s[0])
    ensures TrimStart(s) == s
  {
  }

  /** A two-word entry: its first word is the first token, its second word the last. */
  lemma TwoWords(a: string, b: string)
    requires a != [] && NoSpace(a) && b != [] && NoSpace(b)
    ensures FirstToken(a + " " + b) == a && LastToken(a + " " + b) == b
  {
    var w := a + " " + b;
    assert w[0] == a[0] && w[|w| - 1] == b[|b| - 1];
    TrimKeeps(w);
    SplitTwo(a, b);
  }

  /** Repeating the last token of the current word, followed by anything, is always accepted:
      the rule of the game as players see it. */
  lemma EchoContinues(previous: string, rest: string)
    requires LastToken(previous) != []
    ensures Continues(previous, LastToken(previous) + " " + rest)
  {
    var t := LastToken(previous);
    var w := t + " " + rest;
    var pieces := Split(Trim(previous));
    assert NoSpace(pieces[|pieces| - 1]);
    assert w[0] == t[0];
    assert TrimStart(w) == w;
    assert w[..|t|] == t && w[|t|] == ' ';
    FirstSpaceAt(w, |t|);
    assert LeadingWord(w) == t;
    FirstTokenIsLeadingWord(w);
  }

  /** For one-word entries the token rule asks for the same word again, up to case. */
  lemma OneWordEntries(previous: string, word: string)
    requires previous != [] && NoSpace(previous) && word != [] && NoSpace(word)
    ensures Continues(previous, word) <==> Lower(word) == Lower(previous)
  {
    SingleToken(previous);
    SingleToken(word);
  }

  /** The letter rule in terms of single characters: after a non-empty word, the next word must
      be non-empty and start with the last letter of the previous one, up to case. */
  lemma LetterRule(previous: string, word: string)
    requires previous != []
    ensures ContinuesByLetter(previous, word) <==>
      word != [] && LowerChar(word[0]) == LowerChar(previous[|previous| - 1])
  {
    if word != [] {
      assert Lower(CharAt(word, 0)) == [LowerChar(word[0])];
    }
    assert Lower(CharAt(previous, |previous| - 1)) == [LowerChar(previous[|previous| - 1])];
  }

  /** The three-player scenario with "apple", "elephant" and "banana": the letter rule accepts
      "elephant" after "apple" and rejects "banana" after "elephant". */
  lemma AppleScenario()
    ensures ContinuesByLetter("apple", "elephant")
    ensures !ContinuesByLetter("elephant", "banana")
  {
    LetterRule("apple", "elephant");
    LetterRule("elephant", "banana");
  }

  /** The token rule already rejects "elephant" after "apple". */
  lemma AppleScenarioByToken()
    ensures !Continues("apple", "elephant")
  {
    assert NoSpace("apple") && NoSpace("elephant");
    SingleToken("apple");
    SingleToken("elephant");
    assert |Lower("elephant")| != |Lower("apple")|;
  }

  /** For two-word entries the token rule links the second word of the current entry to the
      first word of the next one, up to case. */
  lemma TwoWordChain(a: string, b: string, c: string, d: string)
    requires a != [] && NoSpace(a) && b != [] && NoSpace(b)
    requires c != [] && NoSpace(c) && d != [] && NoSpace(d)
    ensures Continues(a + " " + b, c + " " + d) <==> Lower(c) == Lower(b)
  {
    TwoWords(a, b);
    TwoWords(c, d);
  }

  /** "mì quảng" continues "bánh mì". */
  lemma CompoundChain()
    ensures Continues("bánh mì", "mì quảng")
  {
    calc {
      Lower(FirstToken("mì quảng"));
      { MiQuang(); }
      Lower("mì");
      { assert NoSpace("bánh") && NoSpace("mì") && "bánh mì" == "bánh" + " " + "mì";
        TwoWords("bánh", "mì"); }
      Lower(LastToken("bánh mì"));
    }
  }

  /** The comparison ignores case: "mì quảng" also continues "Bánh Mì". */
  lemma CompoundChainIgnoresCase()
    ensures Continues("Bánh Mì", "mì quảng")
  {
    calc {
      Lower(FirstToken("mì quảng"));
      { MiQuang(); }
      Lower("mì");
      { assert LowerChar('M') == 'm'; }
      Lower("Mì");
      { assert NoSpace("Bánh") && NoSpace("Mì") && "Bánh Mì" == "Bánh" + " " + "Mì";
        TwoWords("Bánh", "Mì"); }
      Lower(LastToken("Bánh Mì"));
    }
  }

  /** The first token of "mì quảng". */
  lemma MiQuang()
    ensures FirstToken("mì quảng") == "mì"
  {
    assert NoSpace("mì") && NoSpace("quảng") && "mì quảng" == "mì" + " " + "quảng";
    TwoWords("mì", "quảng");
  }
}
