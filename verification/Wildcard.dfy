/** Wildcard patterns: their compilation to regular expressions, what those mean, and the
    memo table of compiled ones. */
module Wildcard {
  import opened Wrappers

  // ----- The part of the regexp syntax that is used -----

  /** `c`, `.`, `.*`, `^` and `$`. */
  datatype Item = Literal(c: char) | AnyChar | AnyRun | Begin | End

  predicate IsMeta(c: char) {
    || c == '\\' || c == '.' || c == '+' || c == '*' || c == '?' || c == '(' || c == ')'
    || c == '|' || c == '[' || c == ']' || c == '{' || c == '}' || c == '^' || c == '$'
  }

  predicate IsWordChar(c: char) {
    '0' <= c <= '9' || 'a' <= c <= 'z' || 'A' <= c <= 'Z'
  }

  /** The text begins with a metacharacter that is more than itself.  A closing bracket or
      brace that closes nothing is itself, and so is an opening brace that no number follows. */
  predicate IsSyntax(re: string)
    requires re != ""
  {
    if re[0] == '{' then |re| > 1 && '0' <= re[1] <= '9'
    else IsMeta(re[0]) && re[0] != ']' && re[0] != '}'
  }

  /** Reads a regexp of that part of the syntax; None for any other. */
  function Parse(re: string): Option<seq<Item>> {
    if re == "" then Some([])
    else if re[0] == '\\' then
      if |re| == 1 || IsWordChar(re[1]) || re[1] as int >= 128 then None
      else Behind(Literal(re[1]), Parse(re[2..]))
    else if re[0] == '.' && |re| > 1 && re[1] == '*' then Behind(AnyRun, Parse(re[2..]))
    else if re[0] == '.' then Behind(AnyChar, Parse(re[1..]))
    else if re[0] == '^' then Behind(Begin, Parse(re[1..]))
    else if re[0] == '$' then Behind(End, Parse(re[1..]))
    else if IsSyntax(re) then None
    else Behind(Literal(re[0]), Parse(re[1..]))
  }

  function Behind(item: Item, items: Option<seq<Item>>): Option<seq<Item>> {
    if items.None? then None else Some([item] + items.value)
  }

  /** The items match the text from place `i` up to place `j`. */
  predicate Accepts(items: seq<Item>, text: string, i: nat, j: nat)
    requires i <= |text|
    decreases |items|
  {
    if items == [] then i == j
    else
      match items[0]
      case Literal(c) => i < |text| && text[i] == c && Accepts(items[1..], text, i + 1, j)
      case AnyChar => i < |text| && text[i] != '\n' && Accepts(items[1..], text, i + 1, j)
      case AnyRun => exists k | i <= k <= |text| :: '\n' !in text[i..k] && Accepts(items[1..], text, k, j)
      case Begin => i == 0 && Accepts(items[1..], text, i, j)
      case End => i == |text| && Accepts(items[1..], text, i, j)
  }

  /** `MatchString`: the items match somewhere. */
  predicate Finds(items: seq<Item>, text: string) {
    exists i, j | 0 <= i <= j <= |text| :: Accepts(items, text, i, j)
  }

  // ----- What a pattern is meant to match -----

  /** Each `*` stands for any run without newline, every other character for itself. */
  predicate Glob(pattern: string, text: string)
    decreases |pattern| + |text|
  {
    if pattern == "" then text == ""
    else if pattern[0] == '*' then
      Glob(pattern[1..], text) || (text != "" && text[0] != '\n' && Glob(pattern, text[1..]))
    else text != "" && text[0] == pattern[0] && Glob(pattern[1..], text[1..])
  }

  // ----- The compiler -----

  function Quoted(c: char): string {
    if IsMeta(c) then ['\\', c] else [c]
  }

  /** `regexp.QuoteMeta` */
  function QuoteMeta(text: string): string {
    if text == "" then "" else Quoted(text[0]) + QuoteMeta(text[1..])
  }

  /** `strings.Split` at every star. */
  function SplitStars(pattern: string): (components: seq<string>)
    ensures |components| >= 1
    ensures |components| == 1 <==> '*' !in pattern
    ensures |components| == 1 ==> components[0] == pattern
  {
    if pattern == "" then [""]
    else
      var rest := SplitStars(pattern[1..]);
      if pattern[0] == '*' then [""] + rest
      else [[pattern[0]] + rest[0]] + rest[1..]
  }

  function Translated(pattern: string): string {
    if pattern == "" then ""
    else (if pattern[0] == '*' then ".*" else Quoted(pattern[0])) + Translated(pattern[1..])
  }

  function RegexpText(pattern: string): string {
    if '*' !in pattern then "^" + pattern + "$" else "^" + Translated(pattern) + "$"
  }

  /** The components quoted, with `.*` between them, up to the `n`th. */
  function Joined(components: seq<string>, n: nat): string
    requires n <= |components|
  {
    if n == 0 then ""
    else if n == 1 then QuoteMeta(components[0])
    else Joined(components, n - 1) + ".*" + QuoteMeta(components[n - 1])
  }

  lemma Regroup(a: string, b: string, c: string, d: string)
    ensures (a + b) + c + d == a + (b + c + d)
    ensures a == b == "" ==> a + c + d == c + d
  {
  }

  lemma {:induction false} JoinedStar(components: seq<string>, n: nat)
    requires 1 <= n <= |components|
    ensures Joined([""] + components, n + 1) == ".*" + Joined(components, n)
  {
    var longer := [""] + components;
    if n == 1 {
      assert longer[1] == components[0] && Joined(longer, 1) == QuoteMeta("");
      Regroup("", "", ".*", QuoteMeta(components[0]));
    } else {
      JoinedStar(components, n - 1);
      assert longer[n] == components[n - 1];
      Regroup(".*", Joined(components, n - 1), ".*", QuoteMeta(components[n - 1]));
    }
  }

  lemma {:induction false} JoinedChar(c: char, components: seq<string>, n: nat)
    requires 1 <= n <= |components|
    ensures Joined([[c] + components[0]] + components[1..], n) == Quoted(c) + Joined(components, n)
  {
    var glued := [[c] + components[0]] + components[1..];
    if n == 1 {
      assert glued[0][1..] == components[0];
    } else {
      JoinedChar(c, components, n - 1);
      assert glued[n - 1] == components[n - 1];
      Regroup(Quoted(c), Joined(components, n - 1), ".*", QuoteMeta(components[n - 1]));
    }
  }

  lemma {:induction false} JoinedIsTranslated(pattern: string)
    ensures Joined(SplitStars(pattern), |SplitStars(pattern)|) == Translated(pattern)
  {
    if pattern != "" {
      var rest := SplitStars(pattern[1..]);
      JoinedIsTranslated(pattern[1..]);
      if pattern[0] == '*' {
        JoinedStar(rest, |rest|);
      } else {
        JoinedChar(pattern[0], rest, |rest|);
      }
    }
  }

  method WildCardToRegexp(pattern: string) returns (re: string)
    ensures re == RegexpText(pattern)
  {
    var components := SplitStars(pattern);
    if |components| == 1 {
      return "^" + pattern + "$";
    }
    var result := "";
    for i := 0 to |components|
      invariant result == Joined(components, i)
    {
      if i > 0 {
        result := result + ".*";
      } else {
        assert "" + QuoteMeta(components[0]) == QuoteMeta(components[0]);
      }
      result := result + QuoteMeta(components[i]);
    }
    JoinedIsTranslated(pattern);
    return "^" + result + "$";
  }

  // ----- The compiled text means the pattern -----

  /** The items a pattern should become. */
  function Items(pattern: string): seq<Item> {
    if pattern == "" then []
    else [if pattern[0] == '*' then AnyRun else Literal(pattern[0])] + Items(pattern[1..])
  }

  lemma ParseFront(item: string, rest: string)
    requires item == ".*" || (|item| == 1 && !IsMeta(item[0])) || (|item| == 2 && item[0] == '\\' && IsMeta(item[1]))
    ensures Parse(item + rest)
            == Behind(if item == ".*" then AnyRun else Literal(item[|item| - 1]), Parse(rest))
  {
    var re := item + rest;
    assert re[..|item|] == item && re[|item|..] == rest;
    assert re[0] == item[0];
    if |item| == 2 {
      assert re[1] == item[1];
    }
  }

  lemma ParseDollar()
    ensures Parse("" + "$") == Some([End])
  {
    var re := "" + "$";
    assert |re| == 1 && re[0] == '$' && re[1..] == "";
    assert Parse("") == Some([]) && [End] + [] == [End];
    assert Parse(re) == Behind(End, Parse(re[1..]));
  }

  lemma {:induction false} ParseOfTranslated(pattern: string)
    ensures Parse(Translated(pattern) + "$") == Some(Items(pattern) + [End])
  {
    if pattern == "" {
      ParseDollar();
      assert [] + [End] == [End];
    } else {
      var front, rest := if pattern[0] == '*' then ".*" else Quoted(pattern[0]), Translated(pattern[1..]) + "$";
      ParseOfTranslated(pattern[1..]);
      ParseFront(front, rest);
      assert Translated(pattern) + "$" == front + rest;
      assert Items(pattern) + [End] == [Items(pattern)[0]] + (Items(pattern[1..]) + [End]);
    }
  }

  /** A star's run, one character at a time or all at once. */
  lemma {:induction false} GlobStar(pattern: string, text: string)
    requires pattern != "" && pattern[0] == '*'
    ensures Glob(pattern, text) <==> exists k | 0 <= k <= |text| :: '\n' !in text[..k] && Glob(pattern[1..], text[k..])
    decreases |text|
  {
    assert text[0..] == text && text[..0] == "";
    if text != "" {
      GlobStar(pattern, text[1..]);
      forall k | 0 <= k <= |text[1..]|
        ensures text[1..][k..] == text[k + 1..] && text[..k + 1] == [text[0]] + text[1..][..k]
      {
      }
      if k :| 0 < k <= |text| && '\n' !in text[..k] && Glob(pattern[1..], text[k..]) {
        assert text[1..][k - 1..] == text[k..] && text[..k] == [text[0]] + text[1..][..k - 1];
        assert text[0] in text[..k];
      }
      if k :| 0 <= k <= |text[1..]| && '\n' !in text[1..][..k]
              && Glob(pattern[1..], text[1..][k..]) && text[0] != '\n' {
        assert '\n' !in text[..k + 1] && Glob(pattern[1..], text[k + 1..]);
      }
    }
  }

  lemma {:induction false} ItemsAcceptGlob(pattern: string, text: string, i: nat, j: nat)
    requires i <= |text|
    ensures Accepts(Items(pattern) + [End], text, i, j) <==> j == |text| && Glob(pattern, text[i..])
    decreases |pattern|
  {
    var items := Items(pattern) + [End];
    if pattern == "" {
      assert items == [End] && items[1..] == [];
    } else {
      assert items[1..] == Items(pattern[1..]) + [End];
      if pattern[0] == '*' {
        GlobStar(pattern, text[i..]);
        forall k | i <= k <= |text|
          ensures Accepts(items[1..], text, k, j) <==> j == |text| && Glob(pattern[1..], text[i..][k - i..])
          ensures text[i..k] == text[i..][..k - i]
        {
          ItemsAcceptGlob(pattern[1..], text, k, j);
          assert text[i..][k - i..] == text[k..];
        }
        StarAccepts(pattern, items, text, i, j);
      } else if i < |text| {
        ItemsAcceptGlob(pattern[1..], text, i + 1, j);
        assert text[i..][1..] == text[i + 1..];
      }
    }
  }

  lemma StarAccepts(pattern: string, items: seq<Item>, text: string, i: nat, j: nat)
    requires i <= |text| && pattern != "" && pattern[0] == '*' && items != [] && items[0] == AnyRun
    requires forall k | i <= k <= |text| ::
               && (Accepts(items[1..], text, k, j) <==> j == |text| && Glob(pattern[1..], text[i..][k - i..]))
               && text[i..k] == text[i..][..k - i]
    requires Glob(pattern, text[i..]) <==>
             exists k | 0 <= k <= |text[i..]| :: '\n' !in text[i..][..k] && Glob(pattern[1..], text[i..][k..])
    ensures Accepts(items, text, i, j) <==> j == |text| && Glob(pattern, text[i..])
  {
    if k :| 0 <= k <= |text[i..]| && '\n' !in text[i..][..k] && Glob(pattern[1..], text[i..][k..]) && j == |text| {
      assert text[i..][(i + k) - i..] == text[i..][k..] && '\n' !in text[i..i + k];
      assert Accepts(items[1..], text, i + k, j);
    }
  }

  /** The items of `^...$` for a pattern find exactly the texts that the pattern means. */
  lemma AnchoredFindsGlob(pattern: string, text: string)
    ensures Finds([Begin] + Items(pattern) + [End], text) <==> Glob(pattern, text)
  {
    var items := [Begin] + Items(pattern) + [End];
    assert items[1..] == Items(pattern) + [End];
    assert text[0..] == text;
    forall i, j | 0 <= i <= j <= |text|
      ensures Accepts(items, text, i, j) <==> i == 0 && j == |text| && Glob(pattern, text)
    {
      ItemsAcceptGlob(pattern, text, i, j);
    }
    if Glob(pattern, text) {
      assert Accepts(items, text, 0, |text|);
    }
  }

  lemma ParseAnchored(body: string, items: seq<Item>)
    requires Parse(body + "$") == Some(items)
    ensures Parse("^" + body + "$") == Some([Begin] + items)
  {
    assert ("^" + body + "$")[1..] == body + "$";
  }

  /** A pattern with a star is compiled to a regexp that finds exactly what it means. */
  lemma StarPatternMeans(pattern: string, text: string)
    requires '*' in pattern
    ensures var items := Parse(RegexpText(pattern)); items.Some? && (Finds(items.value, text) <==> Glob(pattern, text))
  {
    ParseOfTranslated(pattern);
    ParseAnchored(Translated(pattern), Items(pattern) + [End]);
    assert [Begin] + (Items(pattern) + [End]) == [Begin] + Items(pattern) + [End];
    AnchoredFindsGlob(pattern, text);
  }

  // ----- Patterns without a star are not quoted -----

  /** What a pattern without star finds when dots are all its syntax. */
  predicate Dotted(pattern: string, text: string) {
    |text| == |pattern|
    && forall i | 0 <= i < |text| :: if pattern[i] == '.' then text[i] != '\n' else text[i] == pattern[i]
  }

  predicate HasAnchorOrEscape(pattern: string) {
    '^' in pattern || '$' in pattern || '\\' in pattern
  }

  predicate OnlyDots(pattern: string) {
    pattern == "" || ((pattern[0] == '.' || !IsSyntax(pattern)) && OnlyDots(pattern[1..]))
  }

  lemma {:induction false} OnlyDotsHave(pattern: string)
    requires OnlyDots(pattern)
    ensures '*' !in pattern && !HasAnchorOrEscape(pattern)
  {
    if pattern != "" {
      OnlyDotsHave(pattern[1..]);
      assert pattern == [pattern[0]] + pattern[1..];
    }
  }

  function DotItems(pattern: string): seq<Item> {
    if pattern == "" then []
    else [if pattern[0] == '.' then AnyChar else Literal(pattern[0])] + DotItems(pattern[1..])
  }

  lemma {:induction false} ParseOfDots(pattern: string)
    requires OnlyDots(pattern)
    ensures Parse(pattern + "$") == Some(DotItems(pattern) + [End])
  {
    var re := pattern + "$";
    if pattern == "" {
      ParseDollar();
      assert [] + [End] == [End];
    } else {
      OnlyDotsHave(pattern);
      assert pattern[0] in pattern && re[0] == pattern[0] && re[1..] == pattern[1..] + "$";
      assert re[1] == if |pattern| > 1 then pattern[1] else '$';
      assert re[1] != '*';
      ParseOfDots(pattern[1..]);
      assert DotItems(pattern) + [End] == [DotItems(pattern)[0]] + (DotItems(pattern[1..]) + [End]);
    }
  }

  lemma {:induction false} DotItemsAccept(pattern: string, text: string, i: nat, j: nat)
    requires i <= |text|
    ensures Accepts(DotItems(pattern) + [End], text, i, j) <==> j == |text| && Dotted(pattern, text[i..])
    decreases |pattern|
  {
    var items := DotItems(pattern) + [End];
    if pattern == "" {
      assert items == [End] && items[1..] == [];
    } else {
      assert items[1..] == DotItems(pattern[1..]) + [End];
      if i < |text| {
        DotItemsAccept(pattern[1..], text, i + 1, j);
        DottedStep(pattern, text[i..]);
        assert text[i..][1..] == text[i + 1..];
      }
    }
  }

  lemma DottedStep(pattern: string, text: string)
    requires pattern != "" && text != ""
    ensures Dotted(pattern, text) <==>
            (if pattern[0] == '.' then text[0] != '\n' else text[0] == pattern[0]) && Dotted(pattern[1..], text[1..])
  {
    if Dotted(pattern[1..], text[1..]) {
      forall i | 1 <= i < |text| ensures if pattern[i] == '.' then text[i] != '\n' else text[i] == pattern[i] {
        assert pattern[1..][i - 1] == pattern[i] && text[1..][i - 1] == text[i];
      }
    }
  }

  /** Dots in such a pattern match any character but a newline. */
  lemma DotPatternMeans(pattern: string, text: string)
    requires OnlyDots(pattern)
    ensures var items := Parse(RegexpText(pattern));
      items.Some? && (Finds(items.value, text) <==> Dotted(pattern, text))
  {
    OnlyDotsHave(pattern);
    ParseOfDots(pattern);
    ParseAnchored(pattern, DotItems(pattern) + [End]);
    var items := [Begin] + (DotItems(pattern) + [End]);
    assert items[1..] == DotItems(pattern) + [End] && text[0..] == text;
    forall i, j | 0 <= i <= j <= |text|
      ensures Accepts(items, text, i, j) <==> i == 0 && j == |text| && Dotted(pattern, text)
    {
      DotItemsAccept(pattern, text, i, j);
    }
    if Dotted(pattern, text) {
      assert Accepts(items, text, 0, |text|);
    }
  }

  /** So it denotes itself alone, as a pattern without star is meant to, exactly when it
      has no dot. */
  lemma DotPatternMeansItself(pattern: string)
    requires OnlyDots(pattern)
    ensures (forall text :: Dotted(pattern, text) <==> text == pattern) <==> '.' !in pattern
  {
    if '.' in pattern {
      var i :| 0 <= i < |pattern| && pattern[i] == '.';
      var text := pattern[i := 'x'];
      if Dotted(pattern, pattern) {
        assert Dotted(pattern, text) && text[i] != pattern[i];
      }
    } else {
      forall text | Dotted(pattern, text) ensures text == pattern {
      }
    }
  }

  // ----- Star-free patterns with other metacharacters -----

  /** Items that stand for one character. */
  function Width(items: seq<Item>): nat {
    if items == [] then 0
    else (if items[0].Literal? || items[0].AnyChar? then 1 else 0) + Width(items[1..])
  }

  /** An anchor, or a backslash, in the pattern costs its items one character of width, unless
      a backslash at the end has taken the closing anchor. */
  lemma {:induction false} StarFreeItems(pattern: string)
    requires '*' !in pattern && Parse(pattern + "$").Some?
    ensures var items := Parse(pattern + "$").value;
      && AnyRun !in items && Width(items) <= |pattern|
      && (End in items && HasAnchorOrEscape(pattern) ==> Width(items) < |pattern|)
  {
    var re := pattern + "$";
    if pattern == "" {
      ParseDollar();
    } else if pattern[0] == '\\' {
      assert re[0] == '\\' && re[1] == (if |pattern| == 1 then '$' else pattern[1]);
      if |pattern| == 1 {
        assert re[2..] == "" && Parse("") == Some([]);
      } else {
        assert re[2..] == pattern[2..] + "$";
        StarFreeItems(pattern[2..]);
      }
    } else {
      assert re[0] == pattern[0] && re[1..] == pattern[1..] + "$";
      assert re[1] != '*';
      StarFreeItems(pattern[1..]);
      assert HasAnchorOrEscape(pattern) ==>
               pattern[0] == '^' || pattern[0] == '$' || HasAnchorOrEscape(pattern[1..]);
    }
  }

  /** With a closing anchor nothing longer is accepted than the items are wide. */
  lemma {:induction false} AnchoredWidth(items: seq<Item>, text: string, i: nat, j: nat)
    requires i <= |text| && AnyRun !in items && End in items && Accepts(items, text, i, j)
    ensures |text| - i <= Width(items)
  {
    if items[0] != End {
      assert items[0] != AnyRun;
      AnchoredWidth(items[1..], text, if items[0].Begin? then i else i + 1, j);
    }
  }

  /** Without one, whatever is accepted is accepted with more text behind it. */
  lemma {:induction false} UnanchoredGoesOn(items: seq<Item>, text: string, i: nat, j: nat, more: string)
    requires i <= |text| && AnyRun !in items && End !in items && Accepts(items, text, i, j)
    ensures Accepts(items, text + more, i, j)
  {
    if items != [] {
      assert items[0] != AnyRun && items[0] != End;
      UnanchoredGoesOn(items[1..], text, if items[0].Begin? then i else i + 1, j, more);
    }
  }

  lemma {:induction false} AcceptsUpTo(items: seq<Item>, text: string, i: nat, j: nat)
    requires i <= |text| && AnyRun !in items && Accepts(items, text, i, j)
    ensures i <= j <= |text|
  {
    if items != [] {
      assert items[0] != AnyRun;
      AcceptsUpTo(items[1..], text, if items[0].Begin? || items[0].End? then i else i + 1, j);
    }
  }

  /** What can be read has no syntax but dots, anchors and backslashes. */
  lemma {:induction false} ReadableMeta(pattern: string)
    requires '*' !in pattern && Parse(pattern + "$").Some? && !HasAnchorOrEscape(pattern)
    ensures OnlyDots(pattern)
  {
    if pattern != "" {
      var re := pattern + "$";
      assert re[0] == pattern[0] && re[1..] == pattern[1..] + "$";
      assert re[1] != '*';
      ReadableMeta(pattern[1..]);
      assert |pattern| > 1 ==> re[1] == pattern[1];
    }
  }

  /** A pattern without star that has an anchor or a backslash does not mean itself alone. */
  lemma AnchoredOrEscaped(pattern: string) returns (text: string)
    requires '*' !in pattern && Parse(RegexpText(pattern)).Some? && HasAnchorOrEscape(pattern)
    ensures Finds(Parse(RegexpText(pattern)).value, text) != (text == pattern)
  {
    var re := RegexpText(pattern);
    assert re[0] == '^' && re[1..] == pattern + "$";
    var items, all := Parse(pattern + "$").value, Parse(re).value;
    assert all == [Begin] + items && all[1..] == items;
    StarFreeItems(pattern);
    text := pattern;
    if i, j :| 0 <= i <= j <= |pattern| && Accepts(all, pattern, i, j) {
      if End in items {
        AnchoredWidth(items, pattern, i, j);
        assert false;
      } else {
        text := pattern + "x";
        UnanchoredGoesOn(all, pattern, i, j, "x");
        assert Finds(all, text);
      }
    }
  }

  /** The promise for patterns without star, that each denotes itself alone, is kept for those
      that can be read exactly if they have no dot, anchor or backslash. */
  lemma StarFreeMeansItself(pattern: string)
    requires '*' !in pattern && Parse(RegexpText(pattern)).Some?
    ensures (forall text :: Finds(Parse(RegexpText(pattern)).value, text) <==> text == pattern)
            <==> '.' !in pattern && !HasAnchorOrEscape(pattern)
  {
    var re := RegexpText(pattern);
    assert re[0] == '^' && re[1..] == pattern + "$";
    if HasAnchorOrEscape(pattern) {
      var text := AnchoredOrEscaped(pattern);
    } else {
      ReadableMeta(pattern);
      forall text ensures Finds(Parse(re).value, text) <==> Dotted(pattern, text) {
        DotPatternMeans(pattern, text);
      }
      DotPatternMeansItself(pattern);
    }
  }

  /** A backslash at the end takes the closing anchor for a dollar sign: `a\` finds `a$x`, and
      not itself. */
  lemma TrailingBackslash()
    ensures Parse(RegexpText("a\\")) == Some([Begin, Literal('a'), Literal('$')])
    ensures Finds([Begin, Literal('a'), Literal('$')], "a$x") && !Finds([Begin, Literal('a'), Literal('$')], "a\\")
  {
    var re, items := RegexpText("a\\"), [Begin, Literal('a'), Literal('$')];
    var tail := re[2..];
    assert |re| == 4 && re[0] == '^' && re[1] == 'a' && re[2] == '\\' && re[3] == '$';
    assert tail[0] == '\\' && tail[1] == '$' && tail[2..] == "" && Parse("") == Some([]);
    assert [Literal('$')] + [] == [Literal('$')] && [Begin] + [Literal('a'), Literal('$')] == items;
    assert [Literal('a')] + [Literal('$')] == [Literal('a'), Literal('$')];
    assert Parse(tail) == Behind(Literal('$'), Some([])) == Some([Literal('$')]);
    assert re[1..][1..] == tail && Parse(re[1..]) == Some([Literal('a'), Literal('$')]);
    assert items[1..] == [Literal('a'), Literal('$')] && items[1..][1..] == [Literal('$')] && [Literal('$')][1..] == [];
    assert Accepts(items, "a$x", 0, 2);
    forall i, j | 0 <= i <= j <= 2 ensures !Accepts(items, "a\\", i, j) {
    }
  }

  // ----- The memo table -----

  /** Go's regexp package, for the syntax that `Parse` does not read. */
  datatype Engine = Engine(compiles: string -> bool, finds: (string, string) -> bool)

  datatype Regexp = Known(items: seq<Item>) | Foreign(source: string)

  function Compile(engine: Engine, re: string): Option<Regexp> {
    match Parse(re)
    case Some(items) => Some(Known(items))
    case None => if engine.compiles(re) then Some(Foreign(re)) else None
  }

  predicate MatchString(engine: Engine, re: Regexp, value: string) {
    match re
    case Known(items) => Finds(items, value)
    case Foreign(source) => engine.finds(source, value)
  }

  /** What matching a value against a pattern means: it does not depend on any table. */
  predicate Matches(engine: Engine, pattern: string, value: string) {
    var re := Compile(engine, RegexpText(pattern));
    re.Some? && MatchString(engine, re.value, value)
  }

  lemma MatchesMeaning(engine: Engine, pattern: string, value: string)
    ensures '*' in pattern ==> (Matches(engine, pattern, value) <==> Glob(pattern, value))
    ensures OnlyDots(pattern) ==> (Matches(engine, pattern, value) <==> Dotted(pattern, value))
    ensures OnlyDots(pattern) && '.' !in pattern ==> (Matches(engine, pattern, value) <==> value == pattern)
  {
    if '*' in pattern {
      StarPatternMeans(pattern, value);
    }
    if OnlyDots(pattern) {
      DotPatternMeans(pattern, value);
      DotPatternMeansItself(pattern);
    }
  }

  /** Compiled regexps by their text, kept over all calls and all configurations. */
  class Matcher {
    const engine: Engine
    var table: map<string, Regexp>

    constructor (engine: Engine)
      ensures Valid() && this.engine == engine
    {
      this.engine, table := engine, map[];
    }

    ghost predicate Valid()
      reads this
    {
      forall re | re in table :: Compile(engine, re) == Some(table[re])
    }

    method Match(pattern: string, value: string) returns (matched: bool)
      requires Valid()
      modifies this
      ensures Valid() && matched == Matches(engine, pattern, value)
    {
      var str := WildCardToRegexp(pattern);
      if str !in table {
        var re := Compile(engine, str);
        if re.None? {
          return false;
        }
        table := table[str := re.value];
      }
      return MatchString(engine, table[str], value);
    }
  }
}
