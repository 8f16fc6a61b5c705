/**
  The text cleaner in front of speech synthesis: emoji removal, then a fixed
  sequence of whole-string regular-expression substitutions that strip
  Markdown, then `strip()`.

  Each substitution is modelled as Python's `re.sub` scans: at each
  position the rule's pattern is tried; a match is replaced and scanning
  resumes after it, otherwise the character is copied and scanning moves
  on by one. None of the patterns matches the empty string.

    Bold        `\*\*(.*?)\*\*`             -> the text
    Italic      `\*(.*?)\*`                 -> the text
    Image       `!\[.*?\]\(.*?\)`           -> nothing
    Link        `\[([^\]]+)\]\(([^)]+)\)`   -> the text
    Header      `#+\s`                      -> nothing
    CodeBlock   "```[\s\S]*?```"            -> nothing
    InlineCode  "`(.*?)`"                   -> the text
    Newlines    `[\r\n]+`                   -> ". "
    Quotes      the four curly quotes       -> nothing
    Spaces      `\s{2,}`                    -> " "

  A lazy group `(.*?)` stops at the first closing marker and fails when a
  newline comes first; `[^c]+` followed by `c` is the maximal run, so no
  backtracking changes the match; `#+\s` matches exactly when the maximal
  run of `#` is followed by white space.
 */
module SpeechText {
  import opened Wrappers
  import opened Text
  import opened MarkdownLinks

  // ---------------------------------------------------------------------
  // Emojis

  /** The code point ranges of `remove_emojis`, as listed. The last one,
      U+24C2 to U+1F251, spans most of the Basic Multilingual Plane above
      it, CJK text included. */
  predicate IsEmoji(c: char) {
    var n := c as int;
    (0x1F600 <= n <= 0x1F64F) || (0x1F300 <= n <= 0x1F5FF) || (0x1F680 <= n <= 0x1F6FF)
    || (0x1F1E0 <= n <= 0x1F1FF) || (0x2702 <= n <= 0x27B0) || (0x24C2 <= n <= 0x1F251)
  }

  predicate NoEmoji(s: string) {
    forall k :: 0 <= k < |s| ==> !IsEmoji(s[k])
  }

  /** `remove_emojis`: deletes every character in the ranges. */
  function RemoveEmojis(s: string): (r: string)
    ensures |r| <= |s| && NoEmoji(r)
  {
    if s == [] then []
    else RemoveEmojis(s[..|s| - 1]) + (if IsEmoji(s[|s| - 1]) then [] else [s[|s| - 1]])
  }

  /** Removal works character by character, so it distributes over
      concatenation. */
  lemma {:induction false} RemoveEmojisAppend(a: string, b: string)
    ensures RemoveEmojis(a + b) == RemoveEmojis(a) + RemoveEmojis(b)
    decreases |b|
  {
    if b == [] {
      assert a + b == a;
    } else {
      var init := b[..|b| - 1];
      RemoveEmojisAppend(a, init);
      assert (a + b)[..|a + b| - 1] == a + init;
    }
  }

  /** Text without characters in the ranges is kept as it is. */
  lemma {:induction false} RemoveEmojisKeeps(s: string)
    requires NoEmoji(s)
    ensures RemoveEmojis(s) == s
    decreases |s|
  {
    if s != [] {
      RemoveEmojisKeeps(s[..|s| - 1]);
    }
  }

  /** Text made only of characters in the ranges disappears. */
  lemma {:induction false} RemoveEmojisDrops(s: string)
    requires forall k :: 0 <= k < |s| ==> IsEmoji(s[k])
    ensures RemoveEmojis(s) == []
    decreases |s|
  {
    if s != [] {
      RemoveEmojisDrops(s[..|s| - 1]);
    }
  }

  /** CJK ideographs (U+4E00 to U+9FFF) fall in the last range, so Chinese
      or Japanese text after an emoji-free prefix is deleted with the
      emojis. */
  lemma CjkRemoved(prefix: string, cjk: string)
    requires NoEmoji(prefix)
    requires forall k :: 0 <= k < |cjk| ==> 0x4E00 <= cjk[k] as int <= 0x9FFF
    ensures RemoveEmojis(prefix + cjk) == prefix
  {
    RemoveEmojisAppend(prefix, cjk);
    RemoveEmojisKeeps(prefix);
    RemoveEmojisDrops(cjk);
    assert prefix + [] == prefix;
  }

  // ---------------------------------------------------------------------
  // One substitution

  datatype Rule = Bold | Italic | Image | Link | Header | CodeBlock | InlineCode | Newlines | Quotes | Spaces

  predicate IsQuote(c: char) {
    c == '“' || c == '”' || c == '‘' || c == '’'
  }

  /** The character a match of the rule begins with. */
  predicate Opens(rule: Rule, c: char) {
    match rule
    case Bold => c == '*'
    case Italic => c == '*'
    case Image => c == '!'
    case Link => c == '['
    case Header => c == '#'
    case CodeBlock => c == '`'
    case InlineCode => c == '`'
    case Newlines => c == '\r' || c == '\n'
    case Quotes => IsQuote(c)
    case Spaces => IsSpace(c)
  }

  datatype Class = Hash | LineBreak | White

  predicate InClass(c: char, cls: Class) {
    match cls
    case Hash => c == '#'
    case LineBreak => c == '\r' || c == '\n'
    case White => IsSpace(c)
  }

  /** The length of the maximal run of the class at the start of `s`. */
  function RunOf(s: string, cls: Class): (n: nat)
    ensures n <= |s|
    ensures forall k :: 0 <= k < n ==> InClass(s[k], cls)
    ensures n < |s| ==> !InClass(s[n], cls)
  {
    if s == [] || !InClass(s[0], cls) then 0 else 1 + RunOf(s[1..], cls)
  }

  /** `mark(.*?)mark` at the start of `s`: its length and the text between
      the marks. */
  function Enclosed(s: string, mark: string): (m: Option<(nat, string)>)
    requires mark != []
    ensures m.Some? ==> |mark| < m.value.0 <= |s| && s[0] == mark[0]
  {
    if !(mark <= s) then None
    else match LazyRun(s[|mark|..], mark)
      case None => None
      case Some(i) => Some((|mark| + i + |mark|, s[|mark|..|mark| + i]))
  }

  /** The match of the rule at the start of `s`: its length and what
      replaces it. */
  function MatchAt(rule: Rule, s: string): (m: Option<(nat, string)>)
    ensures m.Some? ==> 0 < m.value.0 <= |s| && Opens(rule, s[0])
  {
    match rule
    case Bold => Enclosed(s, "**")
    case Italic => Enclosed(s, "*")
    case InlineCode => Enclosed(s, "`")
    case Image => ImageAt(s)
    case Link => LinkAt(s)
    case Header =>
      var n := RunOf(s, Hash);
      if 0 < n < |s| && IsSpace(s[n]) then Some((n + 1, "")) else None
    case CodeBlock => CodeBlockAt(s)
    case Newlines =>
      var n := RunOf(s, LineBreak);
      if n > 0 then Some((n, ". ")) else None
    case Quotes =>
      if s != [] && IsQuote(s[0]) then Some((1, "")) else None
    case Spaces =>
      var n := RunOf(s, White);
      if n >= 2 then Some((n, " ")) else None
  }

  /** `!\[.*?\]\(.*?\)` at the start of `s`: its length. */
  function ImageAt(s: string): (m: Option<(nat, string)>)
    ensures m.Some? ==> 0 < m.value.0 <= |s| && s[0] == '!' && m.value.1 == ""
  {
    if !("![" <= s) then None
    else match LazyRun(s[2..], "](")
      case None => None
      case Some(i) =>
        match LazyRun(s[2 + i + 2..], ")")
        case None => None
        case Some(j) => Some((2 + i + 2 + j + 1, ""))
  }

  /** `\[([^\]]+)\]\(([^)]+)\)` at the start of `s`: its length and the
      link text. */
  function LinkAt(s: string): (m: Option<(nat, string)>)
    ensures m.Some? ==> 0 < m.value.0 <= |s| && s[0] == '['
  {
    if !("[" <= s) then None
    else match GreedyRun(s[1..], ']', "](")
      case None => None
      case Some(i) =>
        match GreedyRun(s[1 + i + 2..], ')', ")")
        case None => None
        case Some(j) => Some((1 + i + 2 + j + 1, s[1..1 + i]))
  }

  /** "```[\s\S]*?```" at the start of `s`: its length. */
  function CodeBlockAt(s: string): (m: Option<(nat, string)>)
    ensures m.Some? ==> 0 < m.value.0 <= |s| && s[0] == '`' && m.value.1 == ""
  {
    if !("```" <= s) then None
    else match Find(s[3..], "```")
      case None => None
      case Some(i) => Some((3 + i + 3, ""))
  }

  /** `re.sub` of the rule over the whole string. */
  function Sub(rule: Rule, s: string): string
    decreases |s|
  {
    if s == [] then []
    else match MatchAt(rule, s)
      case Some((n, rep)) => rep + Sub(rule, s[n..])
      case None => [s[0]] + Sub(rule, s[1..])
  }

  /** The substitutions of `clean_text`, in order. */
  const Rules: seq<Rule> := [Bold, Italic, Image, Link, Header, CodeBlock, InlineCode, Newlines, Quotes, Spaces]

  /** The substitutions applied one after the other. */
  function SubAll(rules: seq<Rule>, s: string): string
    decreases |rules|
  {
    if rules == [] then s else SubAll(rules[1..], Sub(rules[0], s))
  }

  /** `clean_text` */
  function CleanText(text: string): string {
    Strip(SubAll(Rules, RemoveEmojis(text)))
  }

  /** Applying two lists of substitutions is applying their concatenation. */
  lemma {:induction false} SubAllAppend(a: seq<Rule>, b: seq<Rule>, s: string)
    ensures SubAll(a + b, s) == SubAll(b, SubAll(a, s))
    decreases |a|
  {
    if a == [] {
      assert a + b == b;
    } else {
      assert (a + b)[0] == a[0] && (a + b)[1..] == a[1..] + b;
      SubAllAppend(a[1..], b, Sub(a[0], s));
    }
  }

  // ---------------------------------------------------------------------
  // What each substitution leaves

  /** Text in which no match of the rule can begin is left alone, and so is
      such a prefix of any text. */
  lemma {:induction false} SubUntouched(rule: Rule, x: string, y: string)
    requires forall k :: 0 <= k < |x| ==> !Opens(rule, x[k])
    ensures Sub(rule, x + y) == x + Sub(rule, y)
    decreases |x|
  {
    if x != [] {
      var s := x + y;
      assert s[0] == x[0] && s[1..] == x[1..] + y;
      SubSkips(rule, s);
      SubUntouched(rule, x[1..], y);
      ConsAppend(x, Sub(rule, y));
    } else {
      assert x + y == y;
    }
  }

  lemma ConsAppend<T>(x: seq<T>, z: seq<T>)
    requires x != []
    ensures [x[0]] + (x[1..] + z) == x + z
  {
    assert [x[0]] + x[1..] == x;
  }

  /** A character that cannot open a match is copied. */
  lemma SubSkips(rule: Rule, s: string)
    requires s != [] && !Opens(rule, s[0])
    ensures Sub(rule, s) == [s[0]] + Sub(rule, s[1..])
  {
    assert MatchAt(rule, s).None?;
  }

  /** A match at the start is replaced and scanning resumes after it. */
  lemma SubMatch(rule: Rule, x: string, y: string, rep: string)
    requires MatchAt(rule, x + y) == Some((|x|, rep))
    ensures Sub(rule, x + y) == rep + Sub(rule, y)
  {
    assert (x + y)[|x|..] == y;
  }

  /** Every run of line breaks becomes ". ", so none is left. */
  lemma {:induction false} NewlinesGone(s: string)
    ensures '\r' !in Sub(Newlines, s) && '\n' !in Sub(Newlines, s)
    decreases |s|
  {
    if s != [] {
      match MatchAt(Newlines, s)
      case Some((n, rep)) =>
        NewlinesGone(s[n..]);
      case None =>
        NewlinesGone(s[1..]);
    }
  }

  /** A maximal run of line breaks becomes one ". ". */
  lemma NewlineRunBecomesStop(run: string, y: string)
    requires run != [] && forall k :: 0 <= k < |run| ==> run[k] == '\r' || run[k] == '\n'
    requires y == [] || (y[0] != '\r' && y[0] != '\n')
    ensures Sub(Newlines, run + y) == ". " + Sub(Newlines, y)
  {
    RunOfPrefix(run, y, LineBreak);
    SubMatch(Newlines, run, y, ". ");
  }

  lemma {:induction false} RunOfPrefix(run: string, y: string, cls: Class)
    requires forall k :: 0 <= k < |run| ==> InClass(run[k], cls)
    requires y == [] || !InClass(y[0], cls)
    ensures RunOf(run + y, cls) == |run|
    decreases |run|
  {
    if run == [] {
      assert run + y == y;
    } else {
      RunOfPrefix(run[1..], y, cls);
      assert (run + y)[1..] == run[1..] + y;
    }
  }

  /** No curly quote is left. */
  lemma {:induction false} QuotesGone(s: string)
    ensures forall k :: 0 <= k < |Sub(Quotes, s)| ==> !IsQuote(Sub(Quotes, s)[k])
    decreases |s|
  {
    if s != [] {
      QuotesGone(s[1..]);
    }
  }

  /** The quote and space substitutions bring in no character but a space. */
  lemma {:induction false} SubAvoids(rule: Rule, s: string, c: char)
    requires rule == Quotes || rule == Spaces
    requires c !in s && c != ' '
    ensures c !in Sub(rule, s)
    decreases |s|
  {
    if s != [] {
      match MatchAt(rule, s)
      case Some((n, rep)) =>
        assert c !in s[n..];
        SubAvoids(rule, s[n..], c);
      case None =>
        SubAvoids(rule, s[1..], c);
    }
  }

  /** No two white-space characters in a row. */
  predicate NoDoubleSpace(s: string) {
    forall k :: 0 <= k < |s| - 1 ==> !(IsSpace(s[k]) && IsSpace(s[k + 1]))
  }

  /** Every run of two or more white-space characters becomes one space and
      a single one is kept, so no two are left side by side; the result
      starts with white space only when the text does. */
  lemma {:induction false} SpacesCollapse(s: string)
    ensures NoDoubleSpace(Sub(Spaces, s))
    ensures Sub(Spaces, s) != [] && IsSpace(Sub(Spaces, s)[0]) ==> s != [] && IsSpace(s[0])
    decreases |s|
  {
    if s != [] {
      var n := RunOf(s, White);
      if n >= 2 {
        SpacesCollapse(s[n..]);
        assert Sub(Spaces, s) == " " + Sub(Spaces, s[n..]);
      } else {
        SpacesCollapse(s[1..]);
        assert Sub(Spaces, s) == [s[0]] + Sub(Spaces, s[1..]);
        assert IsSpace(s[0]) ==> 1 < |s| ==> !IsSpace(s[1..][0]);
      }
    }
  }

  lemma StripKeepsNoDoubleSpace(s: string)
    requires NoDoubleSpace(s)
    ensures NoDoubleSpace(Strip(s))
  {
    var i := StripOffset(s);
    assert forall k :: 0 <= k < |Strip(s)| ==> Strip(s)[k] == s[i + k];
  }

  lemma StripKeepsNoEmoji(s: string)
    requires NoEmoji(s)
    ensures NoEmoji(Strip(s))
  {
    var i := StripOffset(s);
    assert forall k :: 0 <= k < |Strip(s)| ==> Strip(s)[k] == s[i + k];
  }

  lemma StripKeepsNoQuote(s: string)
    requires forall k :: 0 <= k < |s| ==> !IsQuote(s[k])
    ensures forall k :: 0 <= k < |Strip(s)| ==> !IsQuote(Strip(s)[k])
  {
    var i := StripOffset(s);
    assert forall k :: 0 <= k < |Strip(s)| ==> Strip(s)[k] == s[i + k];
  }

  /** A substitution brings in no emoji: replacements are either part of
      the text or ". " or " " or nothing. */
  lemma {:induction false} SubKeepsNoEmoji(rule: Rule, s: string)
    requires NoEmoji(s)
    ensures NoEmoji(Sub(rule, s))
    decreases |s|
  {
    if s != [] {
      match MatchAt(rule, s)
      case Some((n, rep)) =>
        MatchKeepsNoEmoji(rule, s);
        assert NoEmoji(s[n..]);
        SubKeepsNoEmoji(rule, s[n..]);
      case None =>
        SubKeepsNoEmoji(rule, s[1..]);
    }
  }

  lemma MatchKeepsNoEmoji(rule: Rule, s: string)
    requires NoEmoji(s) && MatchAt(rule, s).Some?
    ensures NoEmoji(MatchAt(rule, s).value.1)
  {
    var rep := MatchAt(rule, s).value.1;
    if rule == Bold || rule == Italic || rule == InlineCode || rule == Link {
      assert exists a, b :: 0 <= a <= b <= |s| && rep == s[a..b];
    }
  }

  /** What `clean_text` returns: no white space at either end, no line
      break, no curly quote, no two white-space characters in a row, and
      no character of the emoji ranges. */
  lemma CleanTextShape(text: string)
    ensures var r := CleanText(text);
      (r == [] || (!IsSpace(r[0]) && !IsSpace(r[|r| - 1]))) &&
      '\r' !in r && '\n' !in r && NoDoubleSpace(r) && NoEmoji(r) &&
      (forall k :: 0 <= k < |r| ==> !IsQuote(r[k]))
  {
    var x := SubAll(Rules[..7], RemoveEmojis(text));
    var lines := Sub(Newlines, x);
    var unquoted := Sub(Quotes, lines);
    var spaced := Sub(Spaces, unquoted);
    LastThree(RemoveEmojis(text));
    NewlinesGone(x);
    SubAvoids(Quotes, lines, '\r');
    SubAvoids(Quotes, lines, '\n');
    SubAvoids(Spaces, unquoted, '\r');
    SubAvoids(Spaces, unquoted, '\n');
    StripInside(spaced, '\r');
    StripInside(spaced, '\n');
    QuotesGone(lines);
    QuotesAvoided(unquoted);
    StripKeepsNoQuote(spaced);
    SpacesCollapse(unquoted);
    StripKeepsNoDoubleSpace(spaced);
    SubAllKeepsNoEmoji(Rules, RemoveEmojis(text));
    StripKeepsNoEmoji(spaced);
  }

  /** The last three substitutions are line breaks, quotes and spaces. */
  lemma LastThree(s: string)
    ensures SubAll(Rules, s) == Sub(Spaces, Sub(Quotes, Sub(Newlines, SubAll(Rules[..7], s))))
  {
    assert Rules == Rules[..7] + [Newlines, Quotes, Spaces];
    SubAllAppend(Rules[..7], [Newlines, Quotes, Spaces], s);
  }

  lemma QuotesAvoided(s: string)
    requires forall k :: 0 <= k < |s| ==> !IsQuote(s[k])
    ensures forall k :: 0 <= k < |Sub(Spaces, s)| ==> !IsQuote(Sub(Spaces, s)[k])
  {
    SubAvoids(Spaces, s, '“');
    SubAvoids(Spaces, s, '”');
    SubAvoids(Spaces, s, '‘');
    SubAvoids(Spaces, s, '’');
  }

  lemma {:induction false} SubAllKeepsNoEmoji(rules: seq<Rule>, s: string)
    requires NoEmoji(s)
    ensures NoEmoji(SubAll(rules, s))
    decreases |rules|
  {
    if rules != [] {
      SubKeepsNoEmoji(rules[0], s);
      SubAllKeepsNoEmoji(rules[1..], Sub(rules[0], s));
    }
  }

  // ---------------------------------------------------------------------
  // Markdown that is spoken as its text

  /** A character none of the rules acts on. */
  predicate Plain(c: char) {
    !IsEmoji(c) && !IsSpace(c) && !IsQuote(c) && c !in "*![]()#`"
  }

  predicate AllPlain(s: string) {
    forall k :: 0 <= k < |s| ==> Plain(s[k])
  }

  /** A rule leaves text alone when no match of it can begin there. */
  lemma Untouched(rule: Rule, s: string)
    requires forall k :: 0 <= k < |s| ==> !Opens(rule, s[k])
    ensures Sub(rule, s) == s
  {
    SubUntouched(rule, s, []);
    assert s + [] == s;
  }

  /** Substitutions none of which can begin a match in the text leave it
      alone. */
  lemma {:induction false} AllUntouched(rules: seq<Rule>, s: string)
    requires forall i, k :: 0 <= i < |rules| && 0 <= k < |s| ==> !Opens(rules[i], s[k])
    ensures SubAll(rules, s) == s
    decreases |rules|
  {
    if rules != [] {
      Untouched(rules[0], s);
      AllUntouched(rules[1..], s);
    }
  }

  /** Plain text goes through any substitutions and `strip` unchanged. */
  lemma PlainKept(rules: seq<Rule>, t: string)
    requires t != [] && AllPlain(t)
    ensures Strip(SubAll(rules, t)) == t
  {
    AllUntouched(rules, t);
    StripNoSpace(t);
  }

  /** `[^c]+` followed by `follow`, which starts with `c`, stops right
      before the first `c`. */
  lemma GreedyRunPast(x: string, y: string, c: char, follow: string)
    requires x != [] && c !in x && follow <= y && follow != [] && follow[0] == c
    ensures GreedyRun(x + y, c, follow) == Some(|x|)
  {
    FindPastFree(x, y, [c]);
    assert (x + y)[|x|..] == y;
  }

  /** A link `[t](u)`, with no `]` in the text and no `)` in the URL, is one
      match, replaced by its text. */
  lemma LinkReplaced(t: string, u: string, rest: string)
    requires t != [] && ']' !in t && u != [] && ')' !in u
    ensures Sub(Link, "[" + t + "](" + u + ")" + rest) == t + Sub(Link, rest)
  {
    var m := "[" + t + "](" + u + ")";
    var s := m + rest;
    assert s[1..] == t + ("](" + u + ")" + rest);
    GreedyRunPast(t, "](" + u + ")" + rest, ']', "](");
    assert s[1 + |t| + 2..] == u + (")" + rest);
    GreedyRunPast(u, ")" + rest, ')', ")");
    assert s[1..1 + |t|] == t;
    assert LinkAt(s) == Some((|m|, t));
    SubMatch(Link, m, rest, t);
  }

  /** `**t**`, with no `*` or newline in `t`, is one match, replaced by `t`. */
  lemma BoldReplaced(t: string, rest: string)
    requires '*' !in t && '\n' !in t
    ensures Sub(Bold, "**" + t + "**" + rest) == t + Sub(Bold, rest)
  {
    var m := "**" + t + "**";
    var s := m + rest;
    assert s[2..] == t + ("**" + rest);
    LazyRunPast(t, "**" + rest, "**");
    assert s[2..2 + |t|] == t;
    assert Enclosed(s, "**") == Some((|m|, t));
    SubMatch(Bold, m, rest, t);
  }

  /** The bold markers inside a link go: `[**t**](u)` becomes `[t](u)`, which
      the link substitution then reduces to `t`. */
  lemma BoldInLinkReplaced(t: string, u: string)
    requires '*' !in t && '\n' !in t && '*' !in u
    ensures Sub(Bold, "[" + "**" + t + "**" + "](" + u + ")") == "[" + t + "](" + u + ")"
  {
    var tail := "](" + u + ")";
    RegroupSeven("[", "**", t, "**", "](", u, ")");
    BoldAfterOpen(t, tail);
    Regroup("[", t, "](", u, ")");
  }

  lemma RegroupSeven<T>(a: seq<T>, b: seq<T>, c: seq<T>, d: seq<T>, e: seq<T>, f: seq<T>, g: seq<T>)
    ensures a + b + c + d + e + f + g == a + (b + c + d + (e + f + g))
  {
  }

  lemma BoldAfterOpen(t: string, tail: string)
    requires '*' !in t && '\n' !in t && '*' !in tail
    ensures Sub(Bold, "[" + ("**" + t + "**" + tail)) == "[" + (t + tail)
  {
    SubUntouched(Bold, "[", "**" + t + "**" + tail);
    BoldReplaced(t, tail);
    Untouched(Bold, tail);
  }

  lemma Regroup<T>(a: seq<T>, b: seq<T>, c: seq<T>, d: seq<T>, e: seq<T>)
    ensures a + (b + (c + d + e)) == a + b + c + d + e
  {
  }

  /** An image `![a](u)`, with no `]` or newline in `a` and no `)` or
      newline in `u`, is one match, deleted. */
  lemma ImageReplaced(a: string, u: string, rest: string)
    requires ']' !in a && '\n' !in a && ')' !in u && '\n' !in u
    ensures Sub(Image, "![" + a + "](" + u + ")" + rest) == Sub(Image, rest)
  {
    var m := "![" + a + "](" + u + ")";
    ImageMatched(a, u, rest);
    SubMatch(Image, m, rest, "");
    assert "" + Sub(Image, rest) == Sub(Image, rest);
  }

  lemma ImageMatched(a: string, u: string, rest: string)
    requires ']' !in a && '\n' !in a && ')' !in u && '\n' !in u
    ensures var m := "![" + a + "](" + u + ")";
      MatchAt(Image, m + rest) == Some((|m|, ""))
  {
    var m := "![" + a + "](" + u + ")";
    var s := m + rest;
    assert s[2..] == a + ("](" + u + ")" + rest);
    LazyRunPast(a, "](" + u + ")" + rest, "](");
    assert s[2 + |a| + 2..] == u + (")" + rest);
    LazyRunPast(u, ")" + rest, ")");
    assert ImageAt(s) == Some((|m|, ""));
  }

  /** A header marker `## ` is deleted. */
  lemma HeaderReplaced(t: string)
    ensures Sub(Header, "## " + t) == Sub(Header, t)
  {
    RunOfPrefix("##", " " + t, Hash);
    assert "## " + t == "##" + (" " + t);
    assert MatchAt(Header, "## " + t) == Some((3, ""));
    SubMatch(Header, "## ", t, "");
    assert "" + Sub(Header, t) == Sub(Header, t);
  }

  /** The characters around a link's text and URL bring in no emoji and
      start no bold, italic or image match. */
  lemma LinkFrame(t: string, u: string)
    requires AllPlain(t) && AllPlain(u)
    ensures var s := "[" + t + "](" + u + ")";
      NoEmoji(s) && forall i, k :: 0 <= i < 3 && 0 <= k < |s| ==> !Opens([Bold, Italic, Image][i], s[k])
  {
  }

  /** A link of plain text and URL is spoken as its text. */
  lemma LinkSpokenAsText(t: string, u: string)
    requires t != [] && AllPlain(t) && u != [] && AllPlain(u)
    ensures CleanText("[" + t + "](" + u + ")") == t
  {
    LinkFront(t, u);
    PlainKept(Rules[4..], t);
  }

  /** The first four substitutions reduce such a link to its text. */
  lemma LinkFront(t: string, u: string)
    requires t != [] && AllPlain(t) && u != [] && AllPlain(u)
    ensures var s := "[" + t + "](" + u + ")";
      SubAll(Rules, RemoveEmojis(s)) == SubAll(Rules[4..], t)
  {
    var s := "[" + t + "](" + u + ")";
    LinkFrame(t, u);
    RemoveEmojisKeeps(s);
    RulesSplit(s);
    AllUntouched([Bold, Italic, Image], s);
    LinkAlone(t, u);
  }

  /** The pipeline seen as the first three passes, then links, then the rest. */
  lemma RulesSplit(s: string)
    ensures SubAll(Rules, s) == SubAll(Rules[4..], SubAll([Link], SubAll([Bold, Italic, Image], s)))
  {
    assert Rules == [Bold, Italic, Image] + ([Link] + Rules[4..]);
    SubAllAppend([Bold, Italic, Image], [Link] + Rules[4..], s);
    SubAllAppend([Link], Rules[4..], SubAll([Bold, Italic, Image], s));
  }

  lemma LinkAlone(t: string, u: string)
    requires t != [] && ']' !in t && u != [] && ')' !in u
    ensures SubAll([Link], "[" + t + "](" + u + ")") == t
  {
    var s := "[" + t + "](" + u + ")";
    LinkReplaced(t, u, "");
    assert s + "" == s && t + "" == t;
  }
}
