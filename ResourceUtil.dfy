/** Text helpers of the crawler: URL formatting, content sanitisation,
    stem extraction and stopword-based language detection. */
module ResourceUtil {

  /** What the helpers take from libraries and regular expressions whose
      behaviour is not part of this model. */
  datatype Toolkit = Toolkit(
    // positions matched by USERNAME_REGEX and by EMAIL_REGEX (deleted by `sub('')`)
    usernameMatches: string -> seq<bool>,
    emailMatches: string -> seq<bool>,
    // nltk's wordpunct_tokenize and the Porter stemmer
    tokenize: string -> seq<string>,
    stem: string -> string,
    // `isalnum` of a single character
    isAlnumChar: char -> bool,
    // nltk's English stopwords, and the stopwords of every language it knows
    englishStopwords: set<string>,
    allStopwords: set<string>)

  // ---------------------------------------------------------------- characters

  /** The characters `unicode.strip()` removes (Python 2.7). */
  predicate IsSpace(c: char) {
    ('\t' <= c && c <= '\r') || ('\U{1C}' <= c && c <= '\U{1F}') || c == ' '
    || c == '\U{85}' || c == '\U{A0}' || c == '\U{1680}' || c == '\U{180E}'
    || ('\U{2000}' <= c && c <= '\U{200A}') || c == '\U{2028}' || c == '\U{2029}'
    || c == '\U{202F}' || c == '\U{205F}' || c == '\U{3000}'
  }

  /** The class `\s` of a pattern compiled without `re.UNICODE`: [ \t\n\r\f\v]. */
  predicate IsPatternSpace(c: char) {
    c == ' ' || ('\t' <= c && c <= '\r')
  }

  /** HASHTAG_REGEX: `#` or the full-width `＃`. */
  predicate IsHashtagMark(c: char) {
    c == '#' || c == '\U{FF03}'
  }

  /** EMOJI_REGEX (astral planes) and MISC_SYMBOLS_REGEX (U+20A0..U+27BF). */
  predicate IsSymbol(c: char) {
    c >= '\U{10000}' || ('\U{20A0}' <= c && c <= '\U{27BF}')
  }

  /** OTHER_THAN_SPACE_REGEX. */
  predicate IsLineBreakOrTab(c: char) {
    c == '\n' || c == '\t' || c == '\r'
  }

  predicate IsUpper(c: char) {
    'A' <= c && c <= 'Z'
  }

  /** `lower()` on one character; case mapping outside ASCII is not modelled. */
  function LowerChar(c: char): (d: char)
    ensures !IsUpper(d)
    ensures !IsUpper(c) ==> d == c
    ensures IsUpper(c) ==> d as int == c as int + 32
    ensures IsSpace(d) == IsSpace(c) && IsPatternSpace(d) == IsPatternSpace(c)
  {
    if IsUpper(c) then (c as int + 32) as char else c
  }

  // ---------------------------------------------------------------- sanitize_content steps

  /** `HASHTAG_REGEX.sub(' ', s)` */
  function ReplaceHashtags(s: string): (r: string)
    ensures |r| == |s|
    ensures forall c :: c in r ==> !IsHashtagMark(c)
    ensures forall i :: 0 <= i < |s| && !IsHashtagMark(s[i]) ==> r[i] == s[i]
    ensures forall i :: 0 <= i < |s| && IsHashtagMark(s[i]) ==> r[i] == ' '
  {
    seq(|s|, i requires 0 <= i < |s| => if IsHashtagMark(s[i]) then ' ' else s[i])
  }

  /** Position `i` lies in a match; positions past the mask do not. */
  predicate Masked(mask: seq<bool>, i: nat) {
    i < |mask| && mask[i]
  }

  /** The mask of `s[1..]`. */
  function MaskTail(mask: seq<bool>): seq<bool> {
    if mask == [] then [] else mask[1..]
  }

  /** Number of positions below `n` that lie in no match. */
  function Kept(mask: seq<bool>, n: nat): (k: nat)
    ensures k <= n
  {
    if n == 0 then 0
    else (if Masked(mask, 0) then 0 else 1) + Kept(MaskTail(mask), n - 1)
  }

  /** `r` is `s` with its matched characters removed: exactly the unmatched
      characters remain, in their order, each unmatched `s[i]` at the number
      of unmatched positions before it; with no match `r` is `s`. */
  ghost predicate Deleted(s: string, mask: seq<bool>, r: string) {
    && |r| == Kept(mask, |s|) && |r| <= |s|
    && (forall i :: 0 <= i < |s| && !Masked(mask, i) ==> Kept(mask, i) < |r| && r[Kept(mask, i)] == s[i])
    && (forall c :: c in r ==> c in s)
    && ((forall i :: 0 <= i < |mask| ==> !mask[i]) ==> r == s)
  }

  /** `PATTERN.sub('', s)` where `mask[i]` says whether position `i` lies in a match. */
  function Delete(s: string, mask: seq<bool>): (r: string)
    ensures Deleted(s, mask, r)
    decreases |s|
  {
    if s == [] then []
    else
      var rest := Delete(s[1..], MaskTail(mask));
      DeleteStep(s, mask, rest);
      if Masked(mask, 0) then rest else [s[0]] + rest
  }

  /** One step of Delete: the first character goes exactly when it is matched,
      and the rest is `s[1..]` with its matched characters removed. */
  lemma DeleteStep(s: string, mask: seq<bool>, rest: string)
    requires s != [] && Deleted(s[1..], MaskTail(mask), rest)
    ensures Deleted(s, mask, if Masked(mask, 0) then rest else [s[0]] + rest)
  {
    var r := if Masked(mask, 0) then rest else [s[0]] + rest;
    forall i | 0 <= i < |s| && !Masked(mask, i)
      ensures Kept(mask, i) < |r| && r[Kept(mask, i)] == s[i]
    {
      if i > 0 {
        assert Masked(MaskTail(mask), i - 1) == Masked(mask, i);
        assert Kept(mask, i) == (if Masked(mask, 0) then 0 else 1) + Kept(MaskTail(mask), i - 1);
        assert s[1..][i - 1] == s[i];
      }
    }
    forall c | c in rest
      ensures c in s
    {
      var k :| 0 <= k < |rest| && rest[k] == c;
      assert c in s[1..];
    }
    if forall i :: 0 <= i < |mask| ==> !mask[i] {
      assert forall i :: 0 <= i < |MaskTail(mask)| ==> !MaskTail(mask)[i] by {
        forall i | 0 <= i < |MaskTail(mask)|
          ensures !MaskTail(mask)[i]
        {
          assert MaskTail(mask)[i] == mask[i + 1];
        }
      }
      assert s == [s[0]] + s[1..];
    }
  }

  /** `EMOJI_REGEX.sub(' ', s)` followed by `MISC_SYMBOLS_REGEX.sub(' ', s)` */
  function BlankSymbols(s: string): (r: string)
    ensures |r| == |s|
    ensures forall c :: c in r ==> (c in s || c == ' ') && !IsSymbol(c)
    ensures forall i :: 0 <= i < |s| && !IsSymbol(s[i]) ==> r[i] == s[i]
    ensures forall i :: 0 <= i < |s| && IsSymbol(s[i]) ==> r[i] == ' '
  {
    seq(|s|, i requires 0 <= i < |s| => if IsSymbol(s[i]) then ' ' else s[i])
  }

  /** Every character is whitespace. */
  predicate Blank(s: string) {
    forall i :: 0 <= i < |s| ==> IsSpace(s[i])
  }

  /** Number of characters `lstrip()` removes. */
  function LeadingSpaces(s: string): (n: nat)
    ensures n <= |s|
    ensures forall i :: 0 <= i < n ==> IsSpace(s[i])
    ensures n < |s| ==> !IsSpace(s[n])
    decreases |s|
  {
    if s != [] && IsSpace(s[0]) then 1 + LeadingSpaces(s[1..]) else 0
  }

  /** Number of characters `rstrip()` removes. */
  function TrailingSpaces(s: string): (n: nat)
    ensures n <= |s|
    ensures forall i :: |s| - n <= i < |s| ==> IsSpace(s[i])
    ensures n < |s| ==> !IsSpace(s[|s| - 1 - n])
    decreases |s|
  {
    if s != [] && IsSpace(s[|s| - 1]) then 1 + TrailingSpaces(s[..|s| - 1]) else 0
  }

  /** `unicode.strip()` */
  function Strip(s: string): (r: string)
    ensures forall c :: c in r ==> c in s
    ensures r == [] <==> Blank(s)
    ensures r != [] ==> !IsSpace(r[0]) && !IsSpace(r[|r| - 1])
    ensures r != [] ==>
      (LeadingSpaces(s) + |r| + TrailingSpaces(s) == |s| && r == s[LeadingSpaces(s)..LeadingSpaces(s) + |r|])
  {
    var lead := LeadingSpaces(s);
    if lead == |s| then []
    else
      var trail := TrailingSpaces(s);
      assert IsSpace(s[|s| - 1]) ==> |s| - trail <= |s| - 1;
      assert lead < |s| - trail;
      s[lead..|s| - trail]
  }

  /** `OTHER_THAN_SPACE_REGEX.sub(' ', s)` */
  function ControlToSpace(s: string): (r: string)
    ensures |r| == |s|
    ensures forall c :: c in r ==> (c in s || c == ' ') && !IsLineBreakOrTab(c)
    ensures forall i :: 0 <= i < |s| && !IsLineBreakOrTab(s[i]) ==> r[i] == s[i]
    ensures forall i :: 0 <= i < |s| && IsLineBreakOrTab(s[i]) ==> r[i] == ' '
  {
    seq(|s|, i requires 0 <= i < |s| => if IsLineBreakOrTab(s[i]) then ' ' else s[i])
  }

  /** Length of the run of `\s` characters that starts `s`. */
  function SpaceRun(s: string): (n: nat)
    ensures n <= |s|
    ensures forall i :: 0 <= i < n ==> IsPatternSpace(s[i])
    ensures n < |s| ==> !IsPatternSpace(s[n])
    decreases |s|
  {
    if s != [] && IsPatternSpace(s[0]) then 1 + SpaceRun(s[1..]) else 0
  }

  /** No two adjacent `\s` characters. */
  ghost predicate NoSpaceRuns(s: string) {
    forall i, j :: 0 <= i < j < |s| && j == i + 1 ==> !(IsPatternSpace(s[i]) && IsPatternSpace(s[j]))
  }

  /** The text with every maximal run of `\s` characters, however long,
      written as one space: the words of `s` and where runs separate them. */
  function Skeleton(s: string): string
    decreases |s|
  {
    if s == [] then []
    else
      var n := SpaceRun(s);
      if n == 0 then [s[0]] + Skeleton(s[1..]) else " " + Skeleton(s[n..])
  }

  /** A text that starts with one `\s` character followed by a non-`\s` one. */
  lemma SkeletonLoneSpace(c: char, t: string)
    requires IsPatternSpace(c)
    requires t != [] ==> !IsPatternSpace(t[0])
    ensures Skeleton([c] + t) == " " + Skeleton(t)
  {
    assert ([c] + t)[1..] == t;
    assert SpaceRun(t) == 0;
  }

  /** `r` is `s` with its runs of `\s` collapsed: it adds no character but
      the space; has no two adjacent `\s` characters; is empty only when `s`
      is; starts and ends as `s` does (a non-`\s` end character is kept, a
      `\s` start stays `\s`); and keeps the words of `s` in order, with a
      separator wherever `s` had a run (the same Skeleton). */
  ghost predicate Collapsed(s: string, r: string) {
    && (forall c :: c in r ==> c in s || c == ' ')
    && NoSpaceRuns(r)
    && (r == [] <==> s == [])
    && (s != [] ==> r != [] && IsPatternSpace(r[0]) == IsPatternSpace(s[0]))
    && (s != [] && !IsPatternSpace(s[0]) ==> r[0] == s[0])
    && (s != [] && !IsPatternSpace(s[|s| - 1]) ==> r[|r| - 1] == s[|s| - 1])
    && Skeleton(r) == Skeleton(s)
  }

  /** `MULTIPLE_SPACES_REGEX.sub(' ', s)`: every run of two or more `\s`
      characters becomes one space; a lone `\s` character stays as it is. */
  function CollapseSpaces(s: string): (r: string)
    ensures Collapsed(s, r)
    decreases |s|
  {
    if s == [] then []
    else
      var n := SpaceRun(s);
      if n >= 2 then
        var rest := CollapseSpaces(s[n..]);
        CollapseRunStep(s, rest);
        " " + rest
      else
        var rest := CollapseSpaces(s[1..]);
        CollapseCharStep(s, rest);
        [s[0]] + rest
  }

  /** One step of CollapseSpaces: a run of two or more `\s` characters
      becomes one space, and the rest is collapsed. */
  lemma CollapseRunStep(s: string, rest: string)
    requires SpaceRun(s) >= 2
    requires Collapsed(s[SpaceRun(s)..], rest)
    ensures Collapsed(s, " " + rest)
  {
    var n := SpaceRun(s);
    var tail := s[n..];
    assert tail == s[|s| - |tail|..];
    assert tail != [] ==> !IsPatternSpace(tail[0]);
    assert IsPatternSpace(s[0]) && (tail == [] ==> IsPatternSpace(s[|s| - 1]));
    StepChars(s, tail, ' ', rest);
    StepRuns(' ', rest);
    StepLast(s, tail, ' ', rest);
    StepSkeleton(s, rest);
  }

  /** The other step of CollapseSpaces: any other character is kept, and the
      rest is collapsed. */
  lemma CollapseCharStep(s: string, rest: string)
    requires s != [] && SpaceRun(s) < 2
    requires Collapsed(s[1..], rest)
    ensures Collapsed(s, [s[0]] + rest)
  {
    var tail := s[1..];
    assert tail == s[|s| - |tail|..];
    assert tail != [] ==> !(IsPatternSpace(s[0]) && IsPatternSpace(tail[0]));
    StepChars(s, tail, s[0], rest);
    StepRuns(s[0], rest);
    StepLast(s, tail, s[0], rest);
    StepSkeleton(s, rest);
  }

  lemma StepChars(s: string, tail: string, head: char, rest: string)
    requires |tail| < |s| && tail == s[|s| - |tail|..] && (head == ' ' || head == s[0])
    requires forall c :: c in rest ==> c in tail || c == ' '
    ensures forall c :: c in [head] + rest ==> c in s || c == ' '
  {
    forall c | c in tail
      ensures c in s
    {
      var k :| 0 <= k < |tail| && tail[k] == c;
      assert s[|s| - |tail| + k] == c;
    }
  }

  lemma StepRuns(head: char, rest: string)
    requires NoSpaceRuns(rest)
    requires rest != [] && IsPatternSpace(head) ==> !IsPatternSpace(rest[0])
    ensures NoSpaceRuns([head] + rest)
  {
    var r := [head] + rest;
    forall i, j | 0 <= i < j < |r| && j == i + 1
      ensures !(IsPatternSpace(r[i]) && IsPatternSpace(r[j]))
    {
      if i > 0 {
        assert r[i] == rest[i - 1] && r[j] == rest[j - 1];
      }
    }
  }

  lemma StepLast(s: string, tail: string, head: char, rest: string)
    requires |tail| < |s| && tail == s[|s| - |tail|..]
    requires tail != [] ==>
      rest != [] && (!IsPatternSpace(tail[|tail| - 1]) ==> rest[|rest| - 1] == tail[|tail| - 1])
    requires tail == [] ==> rest == [] && (head == s[|s| - 1] || IsPatternSpace(s[|s| - 1]))
    ensures !IsPatternSpace(s[|s| - 1]) ==> ([head] + rest)[|rest|] == s[|s| - 1]
  {
    if tail != [] {
      assert tail[|tail| - 1] == s[|s| - 1];
    }
  }

  lemma StepSkeleton(s: string, rest: string)
    requires s != []
    requires var tail := if SpaceRun(s) >= 2 then s[SpaceRun(s)..] else s[1..];
      Skeleton(rest) == Skeleton(tail)
      && (tail != [] ==> rest != [] && IsPatternSpace(rest[0]) == IsPatternSpace(tail[0]))
    ensures Skeleton(if SpaceRun(s) >= 2 then " " + rest else [s[0]] + rest) == Skeleton(s)
  {
    var n := SpaceRun(s);
    if n >= 2 {
      SkeletonLoneSpace(' ', rest);
    } else if n == 1 {
      SkeletonLoneSpace(s[0], rest);
    } else {
      assert ([s[0]] + rest)[1..] == rest;
    }
  }

  /** A text with no run of two `\s` characters is left as it is, so a lone
      `\s` character keeps its own value. */
  lemma {:induction false} CollapseSpacesNoRuns(s: string)
    requires NoSpaceRuns(s)
    ensures CollapseSpaces(s) == s
    decreases |s|
  {
    if s != [] {
      if |s| >= 2 {
        assert !(IsPatternSpace(s[0]) && IsPatternSpace(s[1]));
      }
      assert SpaceRun(s) < 2;
      NoSpaceRunsTail(s);
      CollapseSpacesNoRuns(s[1..]);
      assert CollapseSpaces(s) == [s[0]] + CollapseSpaces(s[1..]);
      assert s == [s[0]] + s[1..];
    }
  }

  lemma NoSpaceRunsTail(s: string)
    requires s != [] && NoSpaceRuns(s)
    ensures NoSpaceRuns(s[1..])
  {
    forall i, j | 0 <= i < j < |s[1..]| && j == i + 1
      ensures !(IsPatternSpace(s[1..][i]) && IsPatternSpace(s[1..][j]))
    {
      assert s[1..][i] == s[i + 1] && s[1..][j] == s[j + 1];
    }
  }

  /** `lower()` */
  function Lower(s: string): (r: string)
    ensures |r| == |s|
    ensures forall i :: 0 <= i < |s| ==> r[i] == LowerChar(s[i])
  {
    seq(|s|, i requires 0 <= i < |s| => LowerChar(s[i]))
  }

  /** sanitize_content: the eight substitutions in the order the source applies them. */
  function SanitizeContent(tk: Toolkit, content: string): string {
    var noHashtags := ReplaceHashtags(content);
    var noUsernames := Delete(noHashtags, tk.usernameMatches(noHashtags));
    var noEmails := Delete(noUsernames, tk.emailMatches(noUsernames));
    var noSymbols := BlankSymbols(noEmails);
    var stripped := Strip(noSymbols);
    var oneLine := ControlToSpace(stripped);
    var collapsed := CollapseSpaces(oneLine);
    Lower(collapsed)
  }

  /** The last three steps (`\n\t\r`, runs of ASCII `\s`, case) bring a
      stripped text without hashtag marks into normal form. */
  lemma NormalizeSpacing(s: string)
    requires forall c :: c in s ==> !IsHashtagMark(c)
    requires s != [] ==> !IsSpace(s[0]) && !IsSpace(s[|s| - 1])
    ensures var r := Lower(CollapseSpaces(ControlToSpace(s)));
      && (forall c :: c in r ==> !IsHashtagMark(c) && !IsLineBreakOrTab(c) && !IsUpper(c))
      && NoSpaceRuns(r)
      && (r != [] ==> !IsSpace(r[0]) && !IsSpace(r[|r| - 1]))
  {
    ControlToSpaceKeeps(s);
    CollapseKeeps(ControlToSpace(s));
    LowerKeeps(CollapseSpaces(ControlToSpace(s)));
  }

  /** Turning `\n`, `\t` and `\r` into spaces adds no hashtag mark and keeps
      the ends, which are not whitespace. */
  lemma ControlToSpaceKeeps(s: string)
    requires forall c :: c in s ==> !IsHashtagMark(c)
    requires s != [] ==> !IsSpace(s[0]) && !IsSpace(s[|s| - 1])
    ensures var r := ControlToSpace(s);
      && (forall c :: c in r ==> !IsHashtagMark(c) && !IsLineBreakOrTab(c))
      && (r != [] ==> !IsSpace(r[0]) && !IsSpace(r[|r| - 1]))
  {
  }

  /** Collapsing runs adds no hashtag mark, `\n`, `\t` or `\r`, and keeps the
      ends, which are not whitespace. */
  lemma CollapseKeeps(t: string)
    requires forall c :: c in t ==> !IsHashtagMark(c) && !IsLineBreakOrTab(c)
    requires t != [] ==> !IsSpace(t[0]) && !IsSpace(t[|t| - 1])
    ensures var r := CollapseSpaces(t);
      && (forall c :: c in r ==> !IsHashtagMark(c) && !IsLineBreakOrTab(c))
      && NoSpaceRuns(r)
      && (r != [] ==> !IsSpace(r[0]) && !IsSpace(r[|r| - 1]))
  {
    if t != [] {
      assert !IsPatternSpace(t[0]) && !IsPatternSpace(t[|t| - 1]);
    }
    KeepsFrom(t, CollapseSpaces(t));
  }

  lemma KeepsFrom(t: string, r: string)
    requires forall c :: c in t ==> !IsHashtagMark(c) && !IsLineBreakOrTab(c)
    requires forall c :: c in r ==> c in t || c == ' '
    requires t != [] ==> r != [] && r[0] == t[0] && r[|r| - 1] == t[|t| - 1] && !IsSpace(t[0]) && !IsSpace(t[|t| - 1])
    requires t == [] ==> r == []
    ensures forall c :: c in r ==> !IsHashtagMark(c) && !IsLineBreakOrTab(c)
    ensures r != [] ==> !IsSpace(r[0]) && !IsSpace(r[|r| - 1])
  {
  }

  /** Lower-casing keeps the absence of hashtag marks, of `\n`, `\t` and
      `\r`, of two adjacent ASCII `\s` characters and of surrounding
      whitespace. */
  lemma LowerKeeps(t: string)
    requires forall c :: c in t ==> !IsHashtagMark(c) && !IsLineBreakOrTab(c)
    requires NoSpaceRuns(t)
    requires t != [] ==> !IsSpace(t[0]) && !IsSpace(t[|t| - 1])
    ensures var r := Lower(t);
      && (forall c :: c in r ==> !IsHashtagMark(c) && !IsLineBreakOrTab(c) && !IsUpper(c))
      && NoSpaceRuns(r)
      && (r != [] ==> !IsSpace(r[0]) && !IsSpace(r[|r| - 1]))
  {
    var r := Lower(t);
    forall c | c in r
      ensures !IsHashtagMark(c) && !IsLineBreakOrTab(c) && !IsUpper(c)
    {
      var i :| 0 <= i < |r| && r[i] == c;
      assert t[i] in t;
    }
    forall i, j | 0 <= i < j < |r| && j == i + 1
      ensures !(IsPatternSpace(r[i]) && IsPatternSpace(r[j]))
    {
      assert r[i] == LowerChar(t[i]) && r[j] == LowerChar(t[j]);
    }
  }

  /** The sanitised text has no hashtag mark, no `\n`, `\t` or `\r`, no two
      adjacent ASCII `\s` characters, no surrounding whitespace and no
      upper-case ASCII letter. */
  lemma SanitizeContentNormalForm(tk: Toolkit, content: string)
    ensures var r := SanitizeContent(tk, content);
      && (forall c :: c in r ==> !IsHashtagMark(c) && !IsLineBreakOrTab(c) && !IsUpper(c))
      && NoSpaceRuns(r)
      && (r != [] ==> !IsSpace(r[0]) && !IsSpace(r[|r| - 1]))
  {
    var noHashtags := ReplaceHashtags(content);
    var noUsernames := Delete(noHashtags, tk.usernameMatches(noHashtags));
    var noEmails := Delete(noUsernames, tk.emailMatches(noUsernames));
    var noSymbols := BlankSymbols(noEmails);
    var stripped := Strip(noSymbols);
    assert forall c :: c in noEmails ==> !IsHashtagMark(c);
    assert forall c :: c in noSymbols ==> !IsHashtagMark(c);
    assert SanitizeContent(tk, content) == Lower(CollapseSpaces(ControlToSpace(stripped)));
    NormalizeSpacing(stripped);
  }

  // ---------------------------------------------------------------- is_english

  /** The tokens of the sanitised text. */
  function Tokens(tk: Toolkit, content: string): seq<string> {
    tk.tokenize(SanitizeContent(tk, content))
  }

  /** NON_ENGLISH_STOPWORDS: every known stopword that is not an English one. */
  function NonEnglishStopwords(tk: Toolkit): (r: set<string>)
    ensures r !! tk.englishStopwords
    ensures r <= tk.allStopwords
  {
    tk.allStopwords - tk.englishStopwords
  }

  /** is_english: more distinct English stopwords than non-English ones among the tokens. */
  predicate IsEnglish(tk: Toolkit, text: string) {
    var words := set w | w in Tokens(tk, text);
    |words * tk.englishStopwords| > |words * NonEnglishStopwords(tk)|
  }

  /** A text with no English stopword among its tokens is never English. */
  lemma EnglishNeedsEnglishStopword(tk: Toolkit, text: string)
    ensures IsEnglish(tk, text) ==> exists w :: w in Tokens(tk, text) && w in tk.englishStopwords
  {
    if IsEnglish(tk, text) {
      var common := (set w | w in Tokens(tk, text)) * tk.englishStopwords;
      assert |common| > 0;
      var w :| w in common;
    }
  }

  /** A text with an English stopword and no non-English one is English. */
  lemma EnglishWithoutForeignStopwords(tk: Toolkit, text: string, w: string)
    requires w in Tokens(tk, text) && w in tk.englishStopwords
    requires forall v :: v in Tokens(tk, text) ==> v !in NonEnglishStopwords(tk)
    ensures IsEnglish(tk, text)
  {
    var words := set v | v in Tokens(tk, text);
    assert words * NonEnglishStopwords(tk) == {};
    assert w in words * tk.englishStopwords;
  }

  // ---------------------------------------------------------------- extract_stems

  /** A list comprehension `[x for x in xs if p(x)]`. */
  function Filter<T>(xs: seq<T>, p: T -> bool): (r: seq<T>)
    ensures |r| <= |xs|
    ensures forall x :: x in r ==> x in xs && p(x)
    decreases |xs|
  {
    if xs == [] then [] else (if p(xs[0]) then [xs[0]] else []) + Filter(xs[1..], p)
  }

  /** Filtering keeps the order of the input. */
  lemma {:induction false} FilterAppend<T>(a: seq<T>, b: seq<T>, p: T -> bool)
    ensures Filter(a + b, p) == Filter(a, p) + Filter(b, p)
  {
    if a == [] {
      assert a + b == b;
    } else {
      assert (a + b)[1..] == a[1..] + b;
      FilterAppend(a[1..], b, p);
    }
  }

  /** Filtering keeps every occurrence of a kept value, repeats included. */
  lemma {:induction false} FilterMultiplicity<T>(xs: seq<T>, p: T -> bool, x: T)
    ensures multiset(Filter(xs, p))[x] == if p(x) then multiset(xs)[x] else 0
  {
    if xs != [] {
      FilterMultiplicity(xs[1..], p, x);
      assert xs == [xs[0]] + xs[1..];
    }
  }

  /** `token.isalnum()` */
  predicate IsAlnum(tk: Toolkit, w: string) {
    |w| > 0 && forall i :: 0 <= i < |w| ==> tk.isAlnumChar(w[i])
  }

  function NotStopword(tk: Toolkit): string -> bool {
    w => w !in tk.englishStopwords
  }

  function Alnum(tk: Toolkit): string -> bool {
    w => IsAlnum(tk, w)
  }

  /** The tokens that survive both filters of extract_stems. */
  function ContentWords(tk: Toolkit, tokens: seq<string>): seq<string> {
    Filter(Filter(tokens, NotStopword(tk)), Alnum(tk))
  }

  /** extract_stems: one stem per surviving token, in token order. */
  function ExtractStems(tk: Toolkit, content: string): (r: seq<string>)
    ensures |r| <= |Tokens(tk, content)|
  {
    var kept := ContentWords(tk, Tokens(tk, content));
    seq(|kept|, i requires 0 <= i < |kept| => tk.stem(kept[i]))
  }

  /** The surviving tokens are exactly the non-stopword alphanumeric ones,
      each as often as it occurs among the tokens. */
  lemma ContentWordsMultiplicity(tk: Toolkit, tokens: seq<string>, w: string)
    ensures multiset(ContentWords(tk, tokens))[w]
         == if w !in tk.englishStopwords && IsAlnum(tk, w) then multiset(tokens)[w] else 0
  {
    FilterMultiplicity(tokens, NotStopword(tk), w);
    FilterMultiplicity(Filter(tokens, NotStopword(tk)), Alnum(tk), w);
  }

  /** The surviving tokens of a concatenation are those of each part, in order. */
  lemma ContentWordsAppend(tk: Toolkit, a: seq<string>, b: seq<string>)
    ensures ContentWords(tk, a + b) == ContentWords(tk, a) + ContentWords(tk, b)
  {
    FilterAppend(a, b, NotStopword(tk));
    FilterAppend(Filter(a, NotStopword(tk)), Filter(b, NotStopword(tk)), Alnum(tk));
  }

  /** Every stem comes from a surviving token at the same position. */
  lemma ExtractStemsSpec(tk: Toolkit, content: string)
    ensures var kept := ContentWords(tk, Tokens(tk, content));
      && |ExtractStems(tk, content)| == |kept|
      && (forall i :: 0 <= i < |kept| ==> ExtractStems(tk, content)[i] == tk.stem(kept[i]))
      && (forall w :: w in kept ==> w in Tokens(tk, content) && w !in tk.englishStopwords && IsAlnum(tk, w))
  {
    var tokens := Tokens(tk, content);
    var once := Filter(tokens, NotStopword(tk));
    forall w | w in ContentWords(tk, tokens)
      ensures w in tokens && w !in tk.englishStopwords && IsAlnum(tk, w)
    {
      assert w in once;
    }
  }

  // ---------------------------------------------------------------- format_url

  predicate MatchesAt(s: string, i: nat, pat: string) {
    i + |pat| <= |s| && s[i..i + |pat|] == pat
  }

  ghost predicate Contains(s: string, pat: string) {
    exists i: nat :: MatchesAt(s, i, pat)
  }

  function FindFrom(s: string, pat: string, i: nat): (r: int)
    requires i <= |s|
    ensures r == -1 || (i <= r && MatchesAt(s, r, pat))
    ensures forall j: nat :: i <= j && (r == -1 || j < r) ==> !MatchesAt(s, j, pat)
    decreases |s| - i
  {
    if MatchesAt(s, i, pat) then i
    else if i == |s| then -1
    else FindFrom(s, pat, i + 1)
  }

  /** `str.find`: the first index where `pat` occurs, or -1. */
  function Find(s: string, pat: string): (r: int)
    ensures r == -1 || (0 <= r && MatchesAt(s, r, pat))
    ensures forall j: nat :: (r == -1 || j < r) ==> !MatchesAt(s, j, pat)
  {
    FindFrom(s, pat, 0)
  }

  /** format_url: cut the URL at its first "http", or else prefix "http://" to
      the part starting at the first case-insensitive "www". With neither,
      Python's `url[-1:]` keeps only the last character. */
  function FormatUrl(url: string): (r: string)
    ensures |r| >= 4 && r[..4] == "http"
  {
    var pos := Find(url, "http");
    if pos >= 0 then
      assert url[pos..][..4] == url[pos..pos + 4];
      url[pos..]
    else
      var www := Find(Lower(url), "www");
      "http://" + (if www >= 0 then url[www..] else if url == [] then [] else url[|url| - 1..])
  }

  /** With an "http" in it, format_url returns the URL from its first "http" on. */
  lemma FormatUrlFromHttp(url: string)
    requires Contains(url, "http")
    ensures var r := FormatUrl(url);
      && |r| <= |url| && r == url[|url| - |r|..]
      && MatchesAt(url, |url| - |r|, "http")
      && forall j: nat :: j < |url| - |r| ==> !MatchesAt(url, j, "http")
  {
    var i: nat :| MatchesAt(url, i, "http");
    assert Find(url, "http") >= 0;
  }

  /** Without "http" but with a "www" in any case, format_url prefixes
      "http://" to the URL from its first "www" on. */
  lemma FormatUrlFromWww(url: string)
    requires !Contains(url, "http") && Contains(Lower(url), "www")
    ensures var r := FormatUrl(url);
      && 7 <= |r| <= |url| + 7 && r[..7] == "http://"
      && r[7..] == url[|url| + 7 - |r|..]
      && MatchesAt(Lower(url), |url| + 7 - |r|, "www")
      && forall j: nat :: j < |url| + 7 - |r| ==> !MatchesAt(Lower(url), j, "www")
  {
    assert Find(url, "http") == -1;
    var i: nat :| MatchesAt(Lower(url), i, "www");
    var www := Find(Lower(url), "www");
    assert www >= 0;
    var r := FormatUrl(url);
    assert r == "http://" + url[www..];
  }

  /** With neither, format_url keeps only the last character of the URL. */
  lemma FormatUrlFallback(url: string)
    requires !Contains(url, "http") && !Contains(Lower(url), "www")
    ensures FormatUrl(url) == "http://" + (if url == [] then [] else [url[|url| - 1]])
  {
    assert Find(url, "http") == -1;
    assert Find(Lower(url), "www") == -1;
  }
}
